/**
 The swipe decoder: the two keys nearest to each end of the gesture select the
 candidate words, whose ideal paths are then ranked against the gesture.
 */
module SwipeDecoder {
  import opened Prelude
  import opened Polyline
  import opened Similarity

  const FREQ_WEIGHT: real := 0.12

  // ---------------------------------------------------------------- nearest keys

  /** Key `i` is nearer to `p` than key `j`; of equally near keys the first one is. */
  predicate Nearer(p: Point, keys: seq<Point>, i: int, j: int)
    requires 0 <= i < |keys| && 0 <= j < |keys|
  {
    Dist2(p, keys[i]) < Dist2(p, keys[j]) || (Dist2(p, keys[i]) == Dist2(p, keys[j]) && i < j)
  }

  /** The nearest and the second nearest of the first `n` keys. */
  ghost predicate AreNearest(p: Point, keys: seq<Point>, n: nat, first: int, second: int) {
    && 0 <= first < n <= |keys| && 0 <= second < n && first != second
    && Nearer(p, keys, first, second)
    && forall i | 0 <= i < n && i != first && i != second :: Nearer(p, keys, second, i)
  }

  lemma FirstIsNearest(p: Point, keys: seq<Point>, n: nat, first: int, second: int)
    requires AreNearest(p, keys, n, first, second)
    ensures forall i | 0 <= i < n && i != first :: Nearer(p, keys, first, i)
  {
    hide Dist2;
    forall i | 0 <= i < n && i != first ensures Nearer(p, keys, first, i) {
      if i != second {
        assert Nearer(p, keys, second, i);
      }
    }
  }

  lemma NearestUnique(p: Point, keys: seq<Point>, n: nat, a: int, b: int, c: int, d: int)
    requires AreNearest(p, keys, n, a, b) && AreNearest(p, keys, n, c, d)
    ensures a == c && b == d
  {
    hide Dist2;
    FirstIsNearest(p, keys, n, a, b);
    FirstIsNearest(p, keys, n, c, d);
    if a != c {
      Asymmetric(p, keys, a, c);
    } else if b != d {
      Asymmetric(p, keys, b, d);
    }
  }

  lemma Asymmetric(p: Point, keys: seq<Point>, i: int, j: int)
    requires 0 <= i < |keys| && 0 <= j < |keys| && i != j
    ensures Nearer(p, keys, i, j) <==> !Nearer(p, keys, j, i)
  {
    hide Dist2;
  }

  /** One more key: it becomes the nearest, the second nearest, or neither. */
  lemma OneMoreKey(p: Point, keys: seq<Point>, n: nat, first: int, second: int)
    requires n < |keys| && AreNearest(p, keys, n, first, second)
    ensures var d := Dist2(p, keys[n]);
      if d < Dist2(p, keys[first]) then AreNearest(p, keys, n + 1, n, first)
      else if d < Dist2(p, keys[second]) then AreNearest(p, keys, n + 1, first, n)
      else AreNearest(p, keys, n + 1, first, second)
  {
    hide Dist2;
    FirstIsNearest(p, keys, n, first, second);
    forall i | 0 <= i < n && i != first && i != second
      ensures Dist2(p, keys[second]) <= Dist2(p, keys[i])
    {
      assert Nearer(p, keys, second, i);
    }
  }

  /** A running minimum, at first infinite (the program starts from the largest float). */
  datatype Bound = Infinite | Finite(d: real) {
    predicate Above(v: real) { Infinite? || v < d }
  }

  method Nearest2(p: Point, keys: seq<Point>) returns (first: nat, second: nat)
    requires |keys| >= 2
    ensures AreNearest(p, keys, |keys|, first, second)
  {
    hide Dist2;
    first, second := 0, 1;
    var d0, d1 := Infinite, Infinite;
    for i := 0 to |keys|
      invariant i == 0 ==> d0 == d1 == Infinite && first == 0 && second == 1
      invariant i == 1 ==> first == 0 && d0 == Finite(Dist2(p, keys[0])) && d1 == Infinite && second == 0
      invariant i >= 2 ==> AreNearest(p, keys, i, first, second) &&
                           d0 == Finite(Dist2(p, keys[first])) && d1 == Finite(Dist2(p, keys[second]))
    {
      var d := Dist2(p, keys[i]);
      if i >= 2 {
        OneMoreKey(p, keys, i, first, second);
      }
      if d0.Above(d) {
        d1 := d0;
        second := first;
        d0 := Finite(d);
        first := i;
      } else if d1.Above(d) {
        d1 := Finite(d);
        second := i;
      }
    }
  }

  // ---------------------------------------------------------------- words

  predicate IsWord(w: string) {
    |w| >= 2 && forall i | 0 <= i < |w| :: 'a' <= w[i] <= 'z'
  }

  function Letter(c: char): nat
    requires 'a' <= c <= 'z'
  {
    c as int - 'a' as int
  }

  function First(w: string): nat requires IsWord(w) { Letter(w[0]) }
  function Last(w: string): nat requires IsWord(w) { Letter(w[|w| - 1]) }

  /** Bucket number of a word. */
  function Key(w: string): nat
    requires IsWord(w)
  {
    First(w) * 26 + Last(w)
  }

  ghost predicate AllWords(words: seq<string>) {
    forall w | w in words :: IsWord(w)
  }

  /** The dictionary lines that are words, in order. */
  function Words(lines: seq<string>): (r: seq<string>)
    ensures AllWords(r)
  {
    if lines == [] then []
    else Words(lines[..|lines| - 1]) + (if IsWord(lines[|lines| - 1]) then [lines[|lines| - 1]] else [])
  }

  /** The word list is read line by line, each line on its own. */
  lemma {:induction false} WordsConcat(a: seq<string>, b: seq<string>)
    ensures Words(a + b) == Words(a) + Words(b)
  {
    if b == [] {
      assert a + b == a;
    } else {
      assert (a + b)[..|a + b| - 1] == a + b[..|b| - 1];
      WordsConcat(a, b[..|b| - 1]);
    }
  }

  /** And a line is kept if it has two or more letters and nothing but small letters. */
  lemma OneLine(line: string)
    ensures Words([line]) == if |line| >= 2 && forall i | 0 <= i < |line| :: 97 <= line[i] as int <= 122 then [line] else []
  {
    assert [line][..0] == [];
  }

  /** Ranks of the words in bucket `k`, ascending. */
  function Bucket(words: seq<string>, k: nat): seq<nat>
    requires AllWords(words)
  {
    if words == [] then []
    else Bucket(words[..|words| - 1], k) + (if Key(words[|words| - 1]) == k then [|words| - 1] else [])
  }

  lemma {:induction false} BucketHolds(words: seq<string>, k: nat, r: nat)
    requires AllWords(words)
    ensures r in Bucket(words, k) <==> r < |words| && Key(words[r]) == k
  {
    if words != [] {
      BucketHolds(words[..|words| - 1], k, r);
    }
  }

  /** Ideal path of a word. */
  function Template(w: string, keys: seq<Point>): seq<Point>
    requires IsWord(w) && |keys| == 26
  {
    seq(|w|, i requires 0 <= i < |w| => keys[Letter(w[i])])
  }

  // ---------------------------------------------------------------- ranking

  /** Sum of the distances of corresponding points. */
  function SumDist(dist: Metric, a: seq<Point>, b: seq<Point>): real
    requires |a| == |b|
  {
    if a == [] then 0.0 else SumDist(dist, a[..|a| - 1], b[..|b| - 1]) + dist(a[|a| - 1], b[|b| - 1])
  }

  function MeanDist(dist: Metric, a: seq<Point>, b: seq<Point>): real
    requires |a| == |b| && a != []
  {
    SumDist(dist, a, b) / |a| as real
  }

  /** Shape distance to the normalised gesture `g`, blended with frequency rank. */
  function Score(dist: Metric, words: seq<string>, keys: seq<Point>, g: seq<Point>, r: nat): real
    requires AllWords(words) && r < |words| && |keys| == 26 && |g| == N
  {
    MeanDist(dist, g, Normalized(Resampled(dist, Template(words[r], keys)))) + FREQ_WEIGHT * (r as real / |words| as real)
  }

  // ---------------------------------------------------------------- what the score means

  lemma {:induction false} SumConcat(dist: Metric, a: seq<Point>, b: seq<Point>, c: seq<Point>, d: seq<Point>)
    requires |a| == |c| && |b| == |d|
    ensures SumDist(dist, a + b, c + d) == SumDist(dist, a, c) + SumDist(dist, b, d)
  {
    if b == [] {
      assert a + b == a && c + d == c;
    } else {
      var n := |b| - 1;
      assert (a + b)[..|a + b| - 1] == a + b[..n] && (c + d)[..|c + d| - 1] == c + d[..n];
      SumConcat(dist, a, b[..n], c, d[..n]);
    }
  }

  lemma MeanTimes(dist: Metric, a: seq<Point>, b: seq<Point>)
    requires |a| == |b| && a != []
    ensures MeanDist(dist, a, b) * |a| as real == SumDist(dist, a, b)
  {
    hide SumDist;
    DivTimes(SumDist(dist, a, b), |a| as real);
  }

  /** The mean of one distance is that distance, and the mean of two parts weighs each by
      its length. */
  lemma MeanIsMean(dist: Metric, p: Point, q: Point, a: seq<Point>, b: seq<Point>, c: seq<Point>, d: seq<Point>)
    requires |a| == |c| && |b| == |d| && a != [] && b != []
    ensures MeanDist(dist, [p], [q]) == dist(p, q)
    ensures MeanDist(dist, a + b, c + d) * (|a| + |b|) as real ==
            MeanDist(dist, a, c) * |a| as real + MeanDist(dist, b, d) * |b| as real
  {
    MeanTimes(dist, a + b, c + d);
    MeanTimes(dist, a, c);
    MeanTimes(dist, b, d);
    SumConcat(dist, a, b, c, d);
    assert [p][..0] == [] && [q][..0] == [];
    hide MeanDist;
    OneDistance(dist, p, q);
  }

  lemma OneDistance(dist: Metric, p: Point, q: Point)
    ensures MeanDist(dist, [p], [q]) == dist(p, q)
  {
    assert [p][..0] == [] && [q][..0] == [];
    assert SumDist(dist, [p], [q]) == dist(p, q);
  }

  lemma {:induction false} SumConstant(dist: Metric, a: seq<Point>, b: seq<Point>, c: real)
    requires |a| == |b| && forall i | 0 <= i < |a| :: dist(a[i], b[i]) == c
    ensures SumDist(dist, a, b) == c * |a| as real
  {
    if a != [] {
      var n := |a| - 1;
      SumConstant(dist, a[..n], b[..n], c);
      assert c * (n + 1) as real == c * n as real + c;
    }
  }

  /** Where all pairs are equally far apart that is the shape distance. */
  lemma MeanOfEqual(dist: Metric, a: seq<Point>, b: seq<Point>, c: real)
    requires |a| == |b| && a != [] && forall i | 0 <= i < |a| :: dist(a[i], b[i]) == c
    ensures MeanDist(dist, a, b) == c
  {
    SumConstant(dist, a, b, c);
    MeanTimes(dist, a, b);
    hide SumDist, MeanDist;
    SameProduct(MeanDist(dist, a, b), c, |a| as real);
  }

  lemma SameProduct(u: real, v: real, n: real)
    requires n > 0.0 && u * n == v * n
    ensures u == v
  {
  }

  lemma {:induction false} SumNonNeg(dist: Metric, a: seq<Point>, b: seq<Point>)
    requires Euclid(dist) && |a| == |b|
    ensures SumDist(dist, a, b) >= 0.0 && (SumDist(dist, a, b) == 0.0 <==> a == b)
  {
    if a != [] {
      var n := |a| - 1;
      SumNonNeg(dist, a[..n], b[..n]);
      DistZero(dist, a[n], b[n]);
      assert dist(a[n], b[n]) >= 0.0;
      hide Euclid;
      assert a == a[..n] + [a[n]] && b == b[..n] + [b[n]];
    }
  }

  /** A shape is at distance 0 from itself, and at a positive one from every other. */
  lemma MeanIsDistance(dist: Metric, a: seq<Point>, b: seq<Point>)
    requires Euclid(dist) && |a| == |b| && a != []
    ensures MeanDist(dist, a, b) >= 0.0 && (MeanDist(dist, a, b) == 0.0 <==> a == b)
  {
    SumNonNeg(dist, a, b);
    MeanTimes(dist, a, b);
    hide SumDist, MeanDist, Euclid;
    SignOfFactor(MeanDist(dist, a, b), |a| as real, SumDist(dist, a, b));
  }

  lemma SignOfFactor(v: real, n: real, p: real)
    requires n > 0.0 && v * n == p && p >= 0.0
    ensures v >= 0.0 && (v == 0.0 <==> p == 0.0)
  {
  }

  /** A word scores what its rank alone costs if its shape is the gesture's, and more if not. */
  lemma ScoreIsLeast(dist: Metric, words: seq<string>, keys: seq<Point>, g: seq<Point>, r: nat)
    requires Euclid(dist) && AllWords(words) && r < |words| && |keys| == 26 && |g| == N
    ensures var least := 0.12 * (r as real / |words| as real);
      && Score(dist, words, keys, g, r) >= least
      && (Score(dist, words, keys, g, r) == least <==> g == Normalized(Resampled(dist, Template(words[r], keys))))
  {
    hide MeanDist, Euclid, Resampled;
    assert words[r] in words;
    var path := Resampled(dist, Template(words[r], keys));
    assert |Normalized(path)| == N by {
      GridSize(path);
    }
    hide Normalized;
    MeanIsDistance(dist, g, Normalized(path));
  }

  /** The gesture visits the centres of the word's keys, one after the other. */
  predicate Traces(gesture: seq<Point>, word: string, keys: seq<Point>)
    requires IsWord(word) && |keys| == 26
  {
    |gesture| == |word| && forall i | 0 <= i < |word| :: gesture[i] == keys[word[i] as int - 97]
  }

  lemma TraceIsTemplate(gesture: seq<Point>, word: string, keys: seq<Point>)
    requires IsWord(word) && |keys| == 26 && Traces(gesture, word, keys)
    ensures gesture == Template(word, keys)
  {
  }

  datatype Scored = Scored(score: real, rank: nat)

  predicate Before(a: Scored, b: Scored) {
    a.score < b.score || (a.score == b.score && a.rank < b.rank)
  }

  /** Best first, no repetitions. */
  predicate Ranked(s: seq<Scored>) {
    forall i, j | 0 <= i < j < |s| :: Before(s[i], s[j])
  }

  lemma HasMember(s: seq<Scored>)
    requires s != []
    ensures exists x :: x in s
  {
    assert s[0] in s;
  }

  /** The full ranking of a set is unique. */
  lemma {:induction false} RankingUnique(a: seq<Scored>, b: seq<Scored>)
    requires Ranked(a) && Ranked(b) && forall x :: x in a <==> x in b
    ensures a == b
  {
    if a == [] {
      if b != [] {
        HasMember(b);
      }
    } else {
      var n, m := |a| - 1, |b| - 1;
      assert a[n] in a && b != [];
      assert b[m] in b;
      var i :| 0 <= i < |b| && b[i] == a[n];
      var j :| 0 <= j < |a| && a[j] == b[m];
      assert a[n] == b[m];
      forall x ensures x in a[..n] <==> x in b[..m] {
        assert x in a[..n] ==> x in a && Before(x, a[n]);
        assert x in b[..m] ==> x in b && Before(x, b[m]);
      }
      RankingUnique(a[..n], b[..m]);
    }
  }

  /** `sort_by` on the score alone: stable insertion. */
  function InsertByScore(s: seq<Scored>, x: Scored): seq<Scored> {
    if s == [] || s[|s| - 1].score <= x.score then s + [x]
    else InsertByScore(s[..|s| - 1], x) + [s[|s| - 1]]
  }

  function SortByScore(s: seq<Scored>): seq<Scored> {
    if s == [] then [] else InsertByScore(SortByScore(s[..|s| - 1]), s[|s| - 1])
  }

  lemma {:induction false} InsertMembers(s: seq<Scored>, x: Scored)
    ensures forall y :: y in InsertByScore(s, x) <==> y in s || y == x
  {
    if s != [] && s[|s| - 1].score > x.score {
      InsertMembers(s[..|s| - 1], x);
      assert s == s[..|s| - 1] + [s[|s| - 1]];
    }
  }

  lemma {:induction false} InsertRanked(s: seq<Scored>, x: Scored)
    requires Ranked(s) && forall y | y in s :: y.rank < x.rank
    ensures Ranked(InsertByScore(s, x))
  {
    if s != [] && s[|s| - 1].score > x.score {
      var n := |s| - 1;
      InsertRanked(s[..n], x);
      InsertMembers(s[..n], x);
      var t := InsertByScore(s[..n], x);
      forall i | 0 <= i < |t| ensures Before(t[i], s[n]) {
        assert t[i] in t;
      }
    } else {
      forall i | 0 <= i < |s| ensures Before(s[i], x) {
        assert s[i] in s && (i < |s| - 1 ==> Before(s[i], s[|s| - 1]));
      }
    }
  }

  /** Sorting by score candidates listed by rank ranks them by score and rank. */
  lemma {:induction false} SortRanks(s: seq<Scored>)
    requires forall i, j | 0 <= i < j < |s| :: s[i].rank < s[j].rank
    ensures Ranked(SortByScore(s)) && forall y :: y in SortByScore(s) <==> y in s
  {
    if s != [] {
      var n := |s| - 1;
      SortRanks(s[..n]);
      InsertMembers(SortByScore(s[..n]), s[n]);
      assert s == s[..n] + [s[n]];
      InsertRanked(SortByScore(s[..n]), s[n]);
    }
  }

  /** `sort_unstable` followed by `dedup`. */
  function InsertRank(s: seq<nat>, r: nat): seq<nat> {
    if s == [] || s[|s| - 1] < r then s + [r]
    else if s[|s| - 1] == r then s
    else InsertRank(s[..|s| - 1], r) + [s[|s| - 1]]
  }

  function SortDedup(s: seq<nat>): seq<nat> {
    if s == [] then [] else InsertRank(SortDedup(s[..|s| - 1]), s[|s| - 1])
  }

  predicate Increasing(s: seq<nat>) {
    forall i, j | 0 <= i < j < |s| :: s[i] < s[j]
  }

  lemma {:induction false} InsertRankSorts(s: seq<nat>, r: nat)
    requires Increasing(s)
    ensures Increasing(InsertRank(s, r)) && forall y :: y in InsertRank(s, r) <==> y in s || y == r
  {
    if s != [] && s[|s| - 1] > r {
      var n := |s| - 1;
      InsertRankSorts(s[..n], r);
      assert s == s[..n] + [s[n]];
      var t := InsertRank(s[..n], r);
      forall i | 0 <= i < |t| ensures t[i] < s[n] {
        assert t[i] in t;
      }
    }
  }

  lemma {:induction false} SortDedupSorts(s: seq<nat>)
    ensures Increasing(SortDedup(s)) && forall y :: y in SortDedup(s) <==> y in s
  {
    if s != [] {
      var n := |s| - 1;
      SortDedupSorts(s[..n]);
      InsertRankSorts(SortDedup(s[..n]), s[n]);
      assert s == s[..n] + [s[n]];
    }
  }

  // ---------------------------------------------------------------- specification of decoding

  /** Letter `l` is one of the two nearest to `p`. */
  ghost predicate Near(p: Point, keys: seq<Point>, l: int) {
    exists a, b :: AreNearest(p, keys, |keys|, a, b) && (l == a || l == b)
  }

  ghost predicate IsCandidate(words: seq<string>, keys: seq<Point>, gesture: seq<Point>, r: nat)
    requires AllWords(words) && gesture != []
  {
    r < |words| && Near(gesture[0], keys, First(words[r])) && Near(gesture[|gesture| - 1], keys, Last(words[r]))
  }

  /** All candidates with their scores, best first. */
  ghost predicate IsRanking(dist: Metric, words: seq<string>, keys: seq<Point>, gesture: seq<Point>, full: seq<Scored>)
    requires AllWords(words) && |keys| == 26 && gesture != []
  {
    Ranked(full) &&
    forall x: Scored :: x in full <==>
      IsCandidate(words, keys, gesture, x.rank) &&
      x.score == Score(dist, words, keys, Normalized(Resampled(dist, gesture)), x.rank)
  }

  /** The `top` best of all words of the dictionary whose first letter is near the
      start of the gesture and whose last letter is near its end. */
  ghost predicate IsDecoding(dist: Metric, words: seq<string>, keys: seq<Point>, gesture: seq<Point>, top: nat, out: seq<string>)
    requires AllWords(words) && |keys| == 26
  {
    if |gesture| < 2 then out == []
    else exists full: seq<Scored> ::
      && IsRanking(dist, words, keys, gesture, full)
      && |out| == Min(top, |full|)
      && forall i | 0 <= i < |out| :: full[i].rank < |words| && out[i] == words[full[i].rank]
  }

  /** A bucket holds exactly the words with its two letters. */
  lemma BucketOfLetters(words: seq<string>, f: nat, l: nat, r: nat)
    requires AllWords(words) && f < 26 && l < 26
    ensures r in Bucket(words, f * 26 + l) <==> r < |words| && First(words[r]) == f && Last(words[r]) == l
  {
    BucketHolds(words, f * 26 + l, r);
    if r < |words| {
      var w := words[r];
      assert 0 <= First(w) < 26 && 0 <= Last(w) < 26;
      PairNumber(First(w), Last(w), f, l);
    }
  }

  lemma PairNumber(a: nat, b: nat, f: nat, l: nat)
    requires b < 26 && l < 26
    ensures a * 26 + b == f * 26 + l <==> a == f && b == l
  {
  }

  /** With the nearest keys known, a candidate is a word with one of each pair of letters. */
  lemma CandidateLetters(words: seq<string>, keys: seq<Point>, gesture: seq<Point>, r: nat, starts: seq<nat>, ends: seq<nat>)
    requires AllWords(words) && gesture != [] && |starts| == |ends| == 2
    requires AreNearest(gesture[0], keys, |keys|, starts[0], starts[1])
    requires AreNearest(gesture[|gesture| - 1], keys, |keys|, ends[0], ends[1])
    ensures IsCandidate(words, keys, gesture, r) <==>
            r < |words| && First(words[r]) in starts && Last(words[r]) in ends
  {
    hide AreNearest;
    NearPair(gesture[0], keys, starts);
    NearPair(gesture[|gesture| - 1], keys, ends);
  }

  lemma NearPair(p: Point, keys: seq<Point>, pair: seq<nat>)
    requires |pair| == 2 && AreNearest(p, keys, |keys|, pair[0], pair[1])
    ensures forall l: nat :: Near(p, keys, l) <==> l in pair
  {
    hide AreNearest;
    forall l: nat ensures Near(p, keys, l) <==> l in pair {
      if Near(p, keys, l) {
        var a, b :| AreNearest(p, keys, |keys|, a, b) && (l == a || l == b);
        NearestUnique(p, keys, |keys|, a, b, pair[0], pair[1]);
      }
    }
  }

  // ---------------------------------------------------------------- the decoder

  class Decoder {
    const words: seq<string>
    const buckets: seq<seq<nat>>

    ghost predicate Valid() {
      && AllWords(words)
      && |buckets| == 26 * 26
      && forall k | 0 <= k < 26 * 26 :: buckets[k] == Bucket(words, k)
    }

    /** `lines` are the trimmed lines of the word list, most frequent first. */
    constructor (lines: seq<string>)
      ensures Valid() && words == Words(lines)
    {
      var ws: seq<string> := [];
      var bs: seq<seq<nat>> := seq(26 * 26, _ => []);
      for n := 0 to |lines|
        invariant ws == Words(lines[..n])
        invariant |bs| == 26 * 26 && forall k | 0 <= k < 26 * 26 :: bs[k] == Bucket(ws, k)
      {
        assert lines[..n + 1][..n] == lines[..n];
        var w := lines[n];
        if IsWord(w) {
          var f, l := First(w), Last(w);
          assert (ws + [w])[..|ws|] == ws;
          bs := bs[f * 26 + l := bs[f * 26 + l] + [|ws|]];
          ws := ws + [w];
        }
      }
      assert lines[..|lines|] == lines;
      words, buckets := ws, bs;
    }

    /** The words in the bucket of a pair of letters. */
    lemma BucketOf(f: nat, l: nat)
      requires Valid() && f < 26 && l < 26
      ensures f * 26 + l < |buckets|
      ensures forall r: nat :: r in buckets[f * 26 + l] <==> r < |words| && First(words[r]) == f && Last(words[r]) == l
    {
      forall r: nat
        ensures r in buckets[f * 26 + l] <==> r < |words| && First(words[r]) == f && Last(words[r]) == l
      {
        BucketOfLetters(words, f, l, r);
      }
    }

    /** The ranks in the buckets of the letter pairs of `f` and the first `n` of `ends`. */
    ghost predicate Starting(cand: seq<nat>, f: nat, ends: seq<nat>)
      requires Valid()
    {
      forall r: nat :: r in cand <==> r < |words| && First(words[r]) == f && Last(words[r]) in ends
    }

    method WithFirst(f: nat, ends: seq<nat>) returns (cand: seq<nat>)
      requires Valid() && f < 26 && forall i | 0 <= i < |ends| :: ends[i] < 26
      ensures Starting(cand, f, ends)
    {
      cand := [];
      for j := 0 to |ends|
        invariant Starting(cand, f, ends[..j])
      {
        var l := ends[j];
        BucketOf(f, l);
        hide Bucket;
        assert ends[..j + 1] == ends[..j] + [l];
        cand := cand + buckets[f * 26 + l];
      }
      assert ends[..|ends|] == ends;
    }

    /** The ranks in the buckets of all pairs of letters. */
    method Candidates(starts: seq<nat>, ends: seq<nat>) returns (cand: seq<nat>)
      requires Valid() && forall i | 0 <= i < |starts| :: starts[i] < 26
      requires forall i | 0 <= i < |ends| :: ends[i] < 26
      ensures forall r: nat :: r in cand <==> r < |words| && First(words[r]) in starts && Last(words[r]) in ends
    {
      cand := [];
      for i := 0 to |starts|
        invariant forall r: nat :: r in cand <==> r < |words| && First(words[r]) in starts[..i] && Last(words[r]) in ends
      {
        hide Bucket, First, Last;
        var more := WithFirst(starts[i], ends);
        assert starts[..i + 1] == starts[..i] + [starts[i]];
        cand := cand + more;
      }
      assert starts[..|starts|] == starts;
    }

    /** Scores of candidates, in the order given. */
    method ScoreAll(dist: Metric, keys: seq<Point>, g: seq<Point>, cand: seq<nat>) returns (scored: seq<Scored>)
      requires Valid() && |keys| == 26 && Euclid(dist) && |g| == N && forall i | 0 <= i < |cand| :: cand[i] < |words|
      ensures |scored| == |cand|
      ensures forall i | 0 <= i < |cand| :: scored[i] == Scored(Score(dist, words, keys, g, cand[i]), cand[i])
    {
      hide MeanDist, Euclid, Length, PointAt, Centred, Span, Mean;
      scored := [];
      for n := 0 to |cand|
        invariant |scored| == n
        invariant forall i | 0 <= i < n :: scored[i] == Scored(Score(dist, words, keys, g, cand[i]), cand[i])
      {
        var r := cand[n];
        assert words[r] in words;
        var path := Resample(dist, Template(words[r], keys));
        var t := Normalize(path);
        GridSize(path);
        var shape := MeanDist(dist, g, t);
        scored := scored + [Scored(shape + FREQ_WEIGHT * (r as real / |words| as real), r)];
      }
    }

    method Decode(dist: Metric, gesture: seq<Point>, keys: seq<Point>, top: nat) returns (out: seq<string>)
      requires Valid() && |keys| == 26 && Euclid(dist)
      ensures IsDecoding(dist, words, keys, gesture, top, out)
    {
      if |gesture| < 2 {
        return [];
      }
      hide Resampled, Normalized, MeanDist, Euclid, Score, AreNearest, Ranked, Bucket;
      var s0, s1 := Nearest2(gesture[0], keys);
      var e0, e1 := Nearest2(gesture[|gesture| - 1], keys);
      NearestInRange(gesture[0], keys, s0, s1);
      NearestInRange(gesture[|gesture| - 1], keys, e0, e1);
      var cand := Candidates([s0, s1], [e0, e1]);
      forall r: nat ensures r in cand <==> IsCandidate(words, keys, gesture, r) {
        CandidateLetters(words, keys, gesture, r, [s0, s1], [e0, e1]);
      }
      out := Rank(dist, gesture, keys, top, cand);
    }

    /** The second half of `decode`. */
    method Rank(dist: Metric, gesture: seq<Point>, keys: seq<Point>, top: nat, candidates: seq<nat>) returns (out: seq<string>)
      requires Valid() && |keys| == 26 && Euclid(dist) && |gesture| >= 2
      requires forall r: nat :: r in candidates <==> IsCandidate(words, keys, gesture, r)
      ensures IsDecoding(dist, words, keys, gesture, top, out)
    {
      hide Score, Ranked, Bucket, IsCandidate, IsRanking, Normalized, Resampled, Euclid, SortDedup, SortByScore;
      if candidates == [] {
        EmptyIsRanking(dist, words, keys, gesture);
        return [];
      }
      SortDedupSorts(candidates);
      var cand := SortDedup(candidates);
      var path := Resample(dist, gesture);
      ShapeSize(dist, gesture);
      var g := Normalize(path);
      forall i | 0 <= i < |cand| ensures cand[i] < |words| {
        assert cand[i] in candidates;
        CandidateBound(words, keys, gesture, cand[i]);
      }
      var scored := ScoreAll(dist, keys, g, cand);
      var full := SortByScore(scored);
      RankedCandidates(dist, words, keys, gesture, g, cand, scored, full);
      var n := Min(top, |full|);
      out := seq(n, i requires 0 <= i < n => words[full[i].rank]);
    }
  }

  lemma GridSize(ps: seq<Point>)
    requires ps != []
    ensures |Normalized(ps)| == |ps|
  {
  }

  lemma ShapeSize(dist: Metric, ps: seq<Point>)
    ensures var r := Resampled(dist, ps); r != [] && |Normalized(r)| == N
  {
    GridSize(Resampled(dist, ps));
  }

  /** Scoring the candidates in rank order and sorting stably by score ranks them. */
  lemma RankedCandidates(dist: Metric, words: seq<string>, keys: seq<Point>, gesture: seq<Point>, g: seq<Point>,
      cand: seq<nat>, scored: seq<Scored>, full: seq<Scored>)
    requires AllWords(words) && |keys| == 26 && gesture != [] && |g| == N && g == Normalized(Resampled(dist, gesture))
    requires Increasing(cand) && forall r: nat :: r in cand <==> IsCandidate(words, keys, gesture, r)
    requires |scored| == |cand| && full == SortByScore(scored)
    requires forall i | 0 <= i < |cand| ::
      cand[i] < |words| && scored[i] == Scored(Score(dist, words, keys, g, cand[i]), cand[i])
    ensures IsRanking(dist, words, keys, gesture, full)
    ensures forall i | 0 <= i < |full| :: full[i].rank < |words|
  {
    hide Score, Ranked, IsCandidate, Normalized, Resampled;
    SortRanks(scored);
    hide SortByScore;
    forall x: Scored
      ensures x in full <==>
        IsCandidate(words, keys, gesture, x.rank) && x.rank < |words| &&
        x.score == Score(dist, words, keys, g, x.rank)
    {
      CandidateBound(words, keys, gesture, x.rank);
      if x in scored {
        var i :| 0 <= i < |scored| && scored[i] == x;
        assert cand[i] in cand;
      }
      if x.rank in cand {
        var i :| 0 <= i < |cand| && cand[i] == x.rank;
        assert scored[i] in scored;
      }
    }
    forall i | 0 <= i < |full| ensures full[i].rank < |words| {
      assert full[i] in full;
    }
    CandidateBounds(words, keys, gesture);
  }

  lemma CandidateBound(words: seq<string>, keys: seq<Point>, gesture: seq<Point>, r: nat)
    requires AllWords(words) && gesture != []
    ensures IsCandidate(words, keys, gesture, r) ==> r < |words|
  {
  }

  lemma CandidateBounds(words: seq<string>, keys: seq<Point>, gesture: seq<Point>)
    requires AllWords(words) && gesture != []
    ensures forall r: nat | IsCandidate(words, keys, gesture, r) :: r < |words|
  {
  }

  lemma EmptyIsRanking(dist: Metric, words: seq<string>, keys: seq<Point>, gesture: seq<Point>)
    requires AllWords(words) && |keys| == 26 && gesture != []
    requires forall r: nat :: !IsCandidate(words, keys, gesture, r)
    ensures IsRanking(dist, words, keys, gesture, [])
  {
  }

  lemma NearestInRange(p: Point, keys: seq<Point>, a: nat, b: nat)
    requires AreNearest(p, keys, |keys|, a, b)
    ensures a < |keys| && b < |keys|
  {
  }

  // ---------------------------------------------------------------- what decoding depends on

  lemma RankingsAgree(dist: Metric, words: seq<string>, keys: seq<Point>, gesture: seq<Point>, a: seq<Scored>, b: seq<Scored>)
    requires AllWords(words) && |keys| == 26 && gesture != []
    requires IsRanking(dist, words, keys, gesture, a) && IsRanking(dist, words, keys, gesture, b)
    ensures a == b
  {
    hide Ranked, IsCandidate, Score, Normalized, Resampled, AllWords;
    RankingUnique(a, b);
  }

  /** The specification fixes the answer. */
  lemma DecodingUnique(dist: Metric, words: seq<string>, keys: seq<Point>, gesture: seq<Point>, top: nat,
      a: seq<string>, b: seq<string>)
    requires AllWords(words) && |keys| == 26
    requires IsDecoding(dist, words, keys, gesture, top, a) && IsDecoding(dist, words, keys, gesture, top, b)
    ensures a == b
  {
    hide IsRanking, AllWords;
    if |gesture| >= 2 {
      var full: seq<Scored> :| IsRanking(dist, words, keys, gesture, full) && |a| == Min(top, |full|)
        && forall i | 0 <= i < |a| :: full[i].rank < |words| && a[i] == words[full[i].rank];
      var full': seq<Scored> :| IsRanking(dist, words, keys, gesture, full') && |b| == Min(top, |full'|)
        && forall i | 0 <= i < |b| :: full'[i].rank < |words| && b[i] == words[full'[i].rank];
      RankingsAgree(dist, words, keys, gesture, full, full');
    }
  }

  lemma RankWeights(r: nat, q: nat, n: nat)
    requires r < q && n > 0
    ensures 0.12 * (r as real / n as real) < 0.12 * (q as real / n as real)
  {
    DivOrder(r as real, q as real, n as real);
  }

  lemma DivOrder(a: real, b: real, n: real)
    requires a < b && n > 0.0
    ensures a / n < b / n
  {
    DivTimes(a, n);
    DivTimes(b, n);
  }

  /** Only words that are more frequent can score as well as one whose shape is the gesture's. */
  lemma MatchBeatsRarer(dist: Metric, words: seq<string>, keys: seq<Point>, g: seq<Point>, r: nat, q: nat)
    requires Euclid(dist) && AllWords(words) && r < q < |words| && |keys| == 26 && |g| == N
    requires g == Normalized(Resampled(dist, Template(words[r], keys)))
    ensures Score(dist, words, keys, g, r) < Score(dist, words, keys, g, q)
  {
    hide Score, Euclid, Resampled, Normalized, AllWords;
    ScoreIsLeast(dist, words, keys, g, r);
    ScoreIsLeast(dist, words, keys, g, q);
    RankWeights(r, q, |words|);
  }

  /** Place `k` of the answer belongs to word `r`, behind candidates that are more frequent,
      unless the answer ends before it. */
  ghost predicate HasPlace(words: seq<string>, keys: seq<Point>, gesture: seq<Point>, top: nat, out: seq<string>, r: nat, k: nat)
    requires AllWords(words) && gesture != [] && r < |words|
  {
    && (if k < |out| then out[k] == words[r] else |out| == top)
    && forall i | 0 <= i < k && i < |out| :: IsAhead(words, keys, gesture, r, out[i])
  }

  /** A candidate that is more frequent than word `r`. */
  ghost predicate IsAhead(words: seq<string>, keys: seq<Point>, gesture: seq<Point>, r: nat, word: string)
    requires AllWords(words) && gesture != [] && r < |words|
  {
    exists q: nat :: q < r && IsCandidate(words, keys, gesture, q) && word == words[q]
  }

  /** In the full ranking only more frequent words come before a match. */
  lemma RankedBeforeMatch(dist: Metric, words: seq<string>, keys: seq<Point>, gesture: seq<Point>, full: seq<Scored>,
      r: nat, k: nat)
    requires Euclid(dist) && AllWords(words) && |keys| == 26 && gesture != [] && r < |words|
    requires Normalized(Resampled(dist, gesture)) == Normalized(Resampled(dist, Template(words[r], keys)))
    requires IsRanking(dist, words, keys, gesture, full) && k < |full| && full[k].rank == r
    ensures forall i | 0 <= i < k :: full[i].rank < r && IsCandidate(words, keys, gesture, full[i].rank)
  {
    var g := Normalized(Resampled(dist, gesture));
    ShapeSize(dist, gesture);
    hide Score, Euclid, Resampled, Normalized, IsCandidate, AllWords;
    forall i | 0 <= i < k ensures full[i].rank < r && IsCandidate(words, keys, gesture, full[i].rank) {
      assert full[i] in full && full[k] in full && Before(full[i], full[k]);
      CandidateBound(words, keys, gesture, full[i].rank);
      if full[i].rank > r {
        MatchBeatsRarer(dist, words, keys, g, r, full[i].rank);
      }
    }
  }

  /** In the answer a candidate whose shape is the gesture's comes behind no word that is
      less frequent. */
  lemma MatchComesFirst(dist: Metric, words: seq<string>, keys: seq<Point>, gesture: seq<Point>, top: nat,
      out: seq<string>, r: nat)
    requires Euclid(dist) && AllWords(words) && |keys| == 26 && |gesture| >= 2
    requires r < |words| && IsCandidate(words, keys, gesture, r)
    requires Normalized(Resampled(dist, gesture)) == Normalized(Resampled(dist, Template(words[r], keys)))
    requires IsDecoding(dist, words, keys, gesture, top, out)
    ensures exists k: nat :: HasPlace(words, keys, gesture, top, out, r, k)
  {
    hide Score, Euclid, Resampled, Normalized, IsCandidate, AllWords, IsRanking;
    var full: seq<Scored> :| IsRanking(dist, words, keys, gesture, full) && |out| == Min(top, |full|)
      && forall i | 0 <= i < |out| :: full[i].rank < |words| && out[i] == words[full[i].rank];
    var k := OwnPlace(dist, words, keys, gesture, full, r);
    RankedBeforeMatch(dist, words, keys, gesture, full, r, k);
    PlaceInAnswer(words, keys, gesture, top, out, full, r, k);
    hide HasPlace;
  }

  lemma OwnPlace(dist: Metric, words: seq<string>, keys: seq<Point>, gesture: seq<Point>, full: seq<Scored>, r: nat)
      returns (k: nat)
    requires AllWords(words) && |keys| == 26 && gesture != [] && r < |words| && IsCandidate(words, keys, gesture, r)
    requires IsRanking(dist, words, keys, gesture, full)
    ensures k < |full| && full[k].rank == r
  {
    ShapeSize(dist, gesture);
    hide Score, Resampled, Normalized, IsCandidate, AllWords, Ranked;
    var own := Scored(Score(dist, words, keys, Normalized(Resampled(dist, gesture)), r), r);
    assert own in full;
    k :| k < |full| && full[k] == own;
  }

  lemma PlaceInAnswer(words: seq<string>, keys: seq<Point>, gesture: seq<Point>, top: nat, out: seq<string>,
      full: seq<Scored>, r: nat, k: nat)
    requires AllWords(words) && gesture != [] && r < |words| && |out| == Min(top, |full|)
    requires forall i | 0 <= i < |out| :: full[i].rank < |words| && out[i] == words[full[i].rank]
    requires k < |full| && full[k].rank == r
    requires forall i | 0 <= i < k :: full[i].rank < r && IsCandidate(words, keys, gesture, full[i].rank)
    ensures HasPlace(words, keys, gesture, top, out, r, k)
  {
    hide IsCandidate, AllWords;
    forall i | 0 <= i < k && i < |out|
      ensures IsAhead(words, keys, gesture, r, out[i])
    {
      var q := full[i].rank;
      assert q < r && IsCandidate(words, keys, gesture, q) && out[i] == words[q];
    }
  }

  /** A nearest and a second nearest key always exist. */
  lemma {:induction false} NearestExist(p: Point, keys: seq<Point>, n: nat) returns (a: int, b: int)
    requires 2 <= n <= |keys|
    ensures AreNearest(p, keys, n, a, b)
  {
    hide Dist2;
    if n == 2 {
      a, b := if Nearer(p, keys, 0, 1) then 0 else 1, if Nearer(p, keys, 0, 1) then 1 else 0;
    } else {
      a, b := NearestExist(p, keys, n - 1);
      OneMoreKey(p, keys, n - 1, a, b);
      var d := Dist2(p, keys[n - 1]);
      if d < Dist2(p, keys[a]) {
        a, b := n - 1, a;
      } else if d < Dist2(p, keys[b]) {
        b := n - 1;
      }
    }
  }

  predicate DistinctKeys(keys: seq<Point>) {
    forall i, j | 0 <= i < j < |keys| :: keys[i] != keys[j]
  }

  /** At the centre of a key that key is the nearest. */
  lemma OwnKeyIsNear(keys: seq<Point>, l: nat)
    requires DistinctKeys(keys) && |keys| >= 2 && l < |keys|
    ensures Near(keys[l], keys, l)
  {
    var a, b := NearestExist(keys[l], keys, |keys|);
    FirstIsNearest(keys[l], keys, |keys|, a, b);
    forall i | 0 <= i < |keys| ensures Dist2(keys[l], keys[i]) >= 0.0 && (Dist2(keys[l], keys[i]) == 0.0 <==> keys[l] == keys[i]) {
      NoNearer(keys[l], keys[i]);
    }
    hide Dist2;
    assert a == l || Nearer(keys[l], keys, a, l);
    assert keys[a] == keys[l];
  }

  lemma NoNearer(p: Point, q: Point)
    ensures Dist2(p, q) >= 0.0 && (Dist2(p, q) == 0.0 <==> p == q)
  {
    if Dist2(p, q) == 0.0 {
      SumOfSquares(p.x - q.x, p.y - q.y);
    }
  }

  lemma TracedIsCandidate(words: seq<string>, keys: seq<Point>, gesture: seq<Point>, r: nat)
    requires AllWords(words) && |keys| == 26 && DistinctKeys(keys) && r < |words|
    requires gesture == Template(words[r], keys)
    ensures |gesture| >= 2 && IsCandidate(words, keys, gesture, r)
  {
    assert words[r] in words;
    OwnKeyIsNear(keys, First(words[r]));
    OwnKeyIsNear(keys, Last(words[r]));
    hide Near, DistinctKeys, AllWords;
  }

  /** A gesture that traces a word of the dictionary exactly: in the answer that word comes
      behind no word that is less frequent, so first if no candidate is more frequent. */
  lemma TracedWordComesFirst(dist: Metric, words: seq<string>, keys: seq<Point>, gesture: seq<Point>, top: nat,
      out: seq<string>, r: nat)
    requires Euclid(dist) && AllWords(words) && |keys| == 26 && DistinctKeys(keys) && r < |words|
    requires Traces(gesture, words[r], keys)
    requires IsDecoding(dist, words, keys, gesture, top, out)
    ensures |gesture| >= 2 && IsCandidate(words, keys, gesture, r)
    ensures exists k: nat :: HasPlace(words, keys, gesture, top, out, r, k)
    ensures top > 0 && (forall q: nat | q < r :: !IsCandidate(words, keys, gesture, q)) ==> out != [] && out[0] == words[r]
  {
    assert words[r] in words;
    TraceIsTemplate(gesture, words[r], keys);
    TracedIsCandidate(words, keys, gesture, r);
    hide IsCandidate, IsDecoding, Normalized, Resampled, Euclid, AllWords, DistinctKeys, HasPlace, Traces, Template;
    MatchComesFirst(dist, words, keys, gesture, top, out, r);
    if top > 0 && forall q: nat | q < r :: !IsCandidate(words, keys, gesture, q) {
      FirstOfAll(words, keys, gesture, top, out, r);
    }
  }

  lemma FirstOfAll(words: seq<string>, keys: seq<Point>, gesture: seq<Point>, top: nat, out: seq<string>, r: nat)
    requires AllWords(words) && gesture != [] && r < |words| && top > 0
    requires exists k: nat :: HasPlace(words, keys, gesture, top, out, r, k)
    requires forall q: nat | q < r :: !IsCandidate(words, keys, gesture, q)
    ensures out != [] && out[0] == words[r]
  {
    hide IsCandidate, AllWords;
    var k: nat :| HasPlace(words, keys, gesture, top, out, r, k);
    assert |out| > 0;
    assert !IsAhead(words, keys, gesture, r, out[0]);
  }

  lemma Dist2Mapped(m: Map, p: Point, q: Point, kk: real)
    requires kk == m.k * m.k
    ensures Dist2(m.At(p), m.At(q)) == kk * Dist2(p, q)
  {
    Factor(m.k, p.x, q.x, m.dx);
    Factor(m.k, p.y, q.y, m.dy);
    SquaresScaled(m.k, kk, p.x - q.x, p.y - q.y, m.At(p).x - m.At(q).x, m.At(p).y - m.At(q).y);
  }

  lemma SquaresScaled(k: real, kk: real, a: real, b: real, a': real, b': real)
    requires a' == k * a && b' == k * b && kk == k * k
    ensures a' * a' + b' * b' == kk * (a * a + b * b)
  {
    assert a' * a' == kk * (a * a);
    assert b' * b' == kk * (b * b);
    Distribute(kk, a * a + b * b, a * a, b * b);
  }

  lemma NearerMapped(m: Map, p: Point, keys: seq<Point>, i: int, j: int)
    requires m.k > 0.0 && 0 <= i < |keys| && 0 <= j < |keys|
    ensures Nearer(m.At(p), m.All(keys), i, j) <==> Nearer(p, keys, i, j)
  {
    var kk := m.k * m.k;
    SquarePositive(m.k, kk);
    NearerScaled(m, p, keys, i, j, kk);
  }

  lemma NearerScaled(m: Map, p: Point, keys: seq<Point>, i: int, j: int, kk: real)
    requires kk > 0.0 && kk == m.k * m.k && 0 <= i < |keys| && 0 <= j < |keys|
    ensures Nearer(m.At(p), m.All(keys), i, j) <==> Nearer(p, keys, i, j)
  {
    hide Dist2, Map.At;
    Dist2Mapped(m, p, keys[i], kk);
    Dist2Mapped(m, p, keys[j], kk);
    OrderScaled(kk, Dist2(p, keys[i]), Dist2(p, keys[j]), Dist2(m.At(p), m.At(keys[i])), Dist2(m.At(p), m.At(keys[j])));
  }

  lemma OrderScaled(k: real, a: real, b: real, a': real, b': real)
    requires k > 0.0 && a' == k * a && b' == k * b
    ensures (a' < b' <==> a < b) && (a' == b' <==> a == b)
  {
    OrderKept(k, a, b);
    OrderKept(k, b, a);
  }

  lemma PositiveProduct(a: real, b: real, c: real)
    requires a > 0.0 && b > 0.0 && c == a * b
    ensures c > 0.0
  {
  }

  lemma SquarePositive(k: real, kk: real)
    requires k > 0.0 && kk == k * k
    ensures kk > 0.0
  {
    var j := k;
    PositiveProduct(k, j, kk);
  }

  /** `nearest2` commutes with the map. */
  lemma NearestMapped(m: Map, p: Point, keys: seq<Point>, n: nat, a: int, b: int)
    requires m.k > 0.0
    ensures AreNearest(m.At(p), m.All(keys), n, a, b) <==> AreNearest(p, keys, n, a, b)
  {
    hide Map.At;
    forall i, j | 0 <= i < |keys| && 0 <= j < |keys|
      ensures Nearer(m.At(p), m.All(keys), i, j) <==> Nearer(p, keys, i, j)
    {
      NearerMapped(m, p, keys, i, j);
    }
    hide Nearer;
  }

  lemma CandidateMapped(m: Map, words: seq<string>, keys: seq<Point>, gesture: seq<Point>, r: nat)
    requires AllWords(words) && gesture != [] && m.k > 0.0
    ensures IsCandidate(words, m.All(keys), m.All(gesture), r) <==> IsCandidate(words, keys, gesture, r)
  {
    hide Map.At, Near, First, Last;
    if r < |words| {
      NearMapped(m, gesture[0], keys, First(words[r]));
      NearMapped(m, gesture[|gesture| - 1], keys, Last(words[r]));
    }
  }

  lemma NearMapped(m: Map, p: Point, keys: seq<Point>, l: int)
    requires m.k > 0.0
    ensures Near(m.At(p), m.All(keys), l) <==> Near(p, keys, l)
  {
    hide Map.At, AreNearest;
    if Near(p, keys, l) {
      var a, b :| AreNearest(p, keys, |keys|, a, b) && (l == a || l == b);
      NearestMapped(m, p, keys, |keys|, a, b);
    }
    if Near(m.At(p), m.All(keys), l) {
      var a, b :| AreNearest(m.At(p), m.All(keys), |m.All(keys)|, a, b) && (l == a || l == b);
      NearestMapped(m, p, keys, |keys|, a, b);
    }
  }

  /** The path, once resampled, keeps its side of both cut-offs when mapped. */
  predicate Safe(dist: Metric, m: Map, ps: seq<Point>) {
    LengthSafe(dist, m, ps) && SpanSafe(m, Resampled(dist, ps))
  }

  /** The shape that is compared does not change. */
  lemma ShapeMapped(dist: Metric, m: Map, ps: seq<Point>)
    requires Euclid(dist) && m.k > 0.0 && ps != [] && Safe(dist, m, ps)
    ensures Normalized(Resampled(dist, m.All(ps))) == Normalized(Resampled(dist, ps))
  {
    hide Map.At, Normalized, LengthSafe, SpanSafe, Euclid, Length, PointAt;
    ResampledMapped(dist, m, ps);
    NormalizedMapped(m, Resampled(dist, ps));
  }

  lemma ScoreMapped(dist: Metric, m: Map, words: seq<string>, keys: seq<Point>, g: seq<Point>, r: nat)
    requires Euclid(dist) && AllWords(words) && r < |words| && |keys| == 26 && |g| == N && m.k > 0.0
    requires Safe(dist, m, Template(words[r], keys))
    ensures Score(dist, words, m.All(keys), g, r) == Score(dist, words, keys, g, r)
  {
    hide Map.At, MeanDist, Safe, Euclid, Length, PointAt, Mean, Span;
    assert Template(words[r], m.All(keys)) == m.All(Template(words[r], keys));
    ShapeMapped(dist, m, Template(words[r], keys));
  }

  /** No candidate crosses a cut-off. */
  ghost predicate AllSafe(dist: Metric, m: Map, words: seq<string>, keys: seq<Point>, gesture: seq<Point>)
    requires AllWords(words) && |keys| == 26 && gesture != []
  {
    Safe(dist, m, gesture) &&
    forall r: nat | IsCandidate(words, keys, gesture, r) :: Safe(dist, m, Template(words[r], keys))
  }

  lemma RankingMapped(dist: Metric, m: Map, words: seq<string>, keys: seq<Point>, gesture: seq<Point>, full: seq<Scored>)
    requires Euclid(dist) && AllWords(words) && |keys| == 26 && gesture != [] && m.k > 0.0
    requires AllSafe(dist, m, words, keys, gesture)
    ensures IsRanking(dist, words, m.All(keys), m.All(gesture), full) <==> IsRanking(dist, words, keys, gesture, full)
  {
    ShapeMapped(dist, m, gesture);
    var g := Normalized(Resampled(dist, gesture));
    GridSize(Resampled(dist, gesture));
    hide Map.At, Ranked, Normalized, Resampled, Safe, Euclid, Score, First, Last, Near;
    forall r: nat
      ensures IsCandidate(words, m.All(keys), m.All(gesture), r) <==> IsCandidate(words, keys, gesture, r)
      ensures IsCandidate(words, keys, gesture, r) ==>
        r < |words| && Score(dist, words, m.All(keys), g, r) == Score(dist, words, keys, g, r)
    {
      CandidateMapped(m, words, keys, gesture, r);
      if IsCandidate(words, keys, gesture, r) {
        CandidateBound(words, keys, gesture, r);
        ScoreMapped(dist, m, words, keys, g, r);
      }
    }
    hide IsCandidate;
  }

  /** Decoding ignores where the keyboard is and how large it is. */
  lemma DecodingMapped(dist: Metric, m: Map, words: seq<string>, keys: seq<Point>, gesture: seq<Point>, top: nat, out: seq<string>)
    requires Euclid(dist) && AllWords(words) && |keys| == 26 && m.k > 0.0
    requires |gesture| >= 2 ==> AllSafe(dist, m, words, keys, gesture)
    ensures IsDecoding(dist, words, m.All(keys), m.All(gesture), top, out) <==> IsDecoding(dist, words, keys, gesture, top, out)
  {
    hide Map.At, IsRanking, AllSafe, Euclid;
    if |gesture| >= 2 {
      forall full
        ensures IsRanking(dist, words, m.All(keys), m.All(gesture), full) <==> IsRanking(dist, words, keys, gesture, full)
      {
        RankingMapped(dist, m, words, keys, gesture, full);
      }
    }
  }
}
