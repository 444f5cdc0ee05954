/**
 Streaming audio: the linear resampler over chunks of any sizes, the encoder's framing
 and the playback buffer. The fractional read position is kept as an exact multiple
 of 1/outRate.
 */
module Audio {
  type Sample = s: int | -32768 <= s <= 32767

  const FRAME_SAMPLES: nat := 960

  // ---------------------------------------------------------------- arithmetic

  /** `num / den` rounded to the nearest integer, halves away from zero. */
  function RoundDiv(num: int, den: int): int
    requires den > 0
  {
    if num >= 0 then (2 * num + den) / (2 * den) else -((2 * -num + den) / (2 * den))
  }

  function Clamp(v: int): Sample {
    if v < -32768 then -32768 else if v > 32767 then 32767 else v
  }

  lemma QuotientBounds(a: int, b: int, q: int)
    requires b > 0 && q == a / b
    ensures q * b <= a < q * b + b
  {
  }

  lemma QuotientIs(a: int, b: int, q: int)
    requires b > 0 && q * b <= a < q * b + b
    ensures a / b == q && a % b == a - q * b
  {
    var d, r := a / b, a % b;
    assert a == d * b + r;
    if d < q {
      MulOrder(d + 1, q, b);
    } else if d > q {
      MulOrder(q + 1, d, b);
    }
  }

  lemma MulOrder(a: int, b: int, c: int)
    requires a <= b && c >= 0
    ensures a * c <= b * c
  {
  }

  lemma OneStep(m: int, step: int)
    ensures (m + 1) * step == m * step + step
  {
  }

  lemma MulOrderStrict(a: int, b: int, c: int)
    requires a * c < b * c && c > 0
    ensures a < b
  {
    if b <= a {
      MulOrder(b, a, c);
    }
  }

  /** Moving by whole samples changes the index and not the fraction. */
  lemma ShiftDiv(base: int, q: int, out: int)
    requires out > 0
    ensures (base * out + q) / out == base + q / out && (base * out + q) % out == q % out
  {
    QuotientBounds(q, out, q / out);
    assert (base + q / out) * out == base * out + (q / out) * out;
    QuotientIs(base * out + q, out, base + q / out);
  }

  /** The rounded value is within one half of the exact one, and a half goes away from zero. */
  lemma RoundNearest(num: int, den: int)
    requires den > 0
    ensures var r := RoundDiv(num, den);
      && 2 * num - den <= 2 * (r * den) <= 2 * num + den
      && (num > 0 ==> 2 * (r * den) > 2 * num - den) && (num < 0 ==> 2 * (r * den) < 2 * num + den)
  {
    var m := if num >= 0 then num else -num;
    var q := (2 * m + den) / (2 * den);
    QuotientBounds(2 * m + den, 2 * den, q);
    assert q * (2 * den) == 2 * (q * den);
    assert (-q) * den == -(q * den);
  }

  /** A rounded value cannot leave an interval with whole ends. */
  lemma RoundBetween(num: int, den: int, lo: int, hi: int)
    requires den > 0 && lo * den <= num <= hi * den
    ensures lo <= RoundDiv(num, den) <= hi
  {
    var r := RoundDiv(num, den);
    RoundNearest(num, den);
    if r < lo {
      MulOrder(r + 1, lo, den);
      OneStep(r, den);
    } else if r > hi {
      MulOrder(hi + 1, r, den);
      OneStep(hi, den);
    }
  }

  // ---------------------------------------------------------------- interpolation

  /** Numerator over `out` of the line from `a` to `b` at the fraction `f / out`. */
  function Line(a: int, b: int, f: int, out: int): int {
    a * out + (b - a) * f
  }

  lemma LineBetween(a: int, b: int, f: int, out: int)
    requires 0 <= f < out
    ensures a <= b ==> a * out <= Line(a, b, f, out) <= b * out
    ensures b <= a ==> b * out <= Line(a, b, f, out) <= a * out
  {
    assert Line(a, b, f, out) == a * (out - f) + b * f;
    assert b * out == b * (out - f) + b * f && a * out == a * (out - f) + a * f;
    if a <= b {
      MulOrder(a, b, f);
      MulOrder(a, b, out - f);
    } else {
      MulOrder(b, a, f);
      MulOrder(b, a, out - f);
    }
  }

  /** The line runs evenly from `a` to `b`. */
  lemma LineIsWeighted(a: int, b: int, f: int, out: int)
    ensures Line(a, b, f, out) == (out - f) * a + f * b
  {
  }

  /** The clamp to 16 bits never acts. */
  lemma ClampIdle(a: Sample, b: Sample, f: int, out: int)
    requires 0 <= f < out
    ensures Clamp(RoundDiv(Line(a, b, f, out), out)) == RoundDiv(Line(a, b, f, out), out)
  {
    LineBetween(a, b, f, out);
    if a <= b {
      RoundBetween(Line(a, b, f, out), out, a, b);
    } else {
      RoundBetween(Line(a, b, f, out), out, b, a);
    }
  }

  /** The value at position `p` of a chunk; after the last sample it is held. */
  function ValueAt(input: seq<Sample>, p: int, out: nat): Sample
    requires out > 0 && 0 <= p / out < |input|
  {
    ValueOf(input, p / out, p % out, out)
  }

  function ValueOf(input: seq<Sample>, i: nat, f: nat, out: nat): Sample
    requires i < |input| && f < out
  {
    Clamp(RoundDiv(Line(input[i], if i + 1 < |input| then input[i + 1] else input[|input| - 1], f, out), out))
  }

  lemma InChunk(input: seq<Sample>, p: nat, out: nat)
    requires out > 0 && p < |input| * out
    ensures 0 <= p / out < |input|
  {
    QuotientBounds(p, out, p / out);
    MulOrderStrict(p / out, |input|, out);
  }

  /** What one chunk emits from position `p` on. */
  function Emitted(input: seq<Sample>, p: nat, inRate: nat, outRate: nat): seq<Sample>
    requires inRate > 0 && outRate > 0
    decreases |input| * outRate - p
  {
    if p >= |input| * outRate then []
    else
      InChunk(input, p, outRate);
      [ValueAt(input, p, outRate)] + Emitted(input, p + inRate, inRate, outRate)
  }

  /** The position in the next chunk. */
  function Carried(length: nat, p: nat, inRate: nat, outRate: nat): nat
    requires inRate > 0
    decreases length * outRate - p
  {
    if p >= length * outRate then p - length * outRate else Carried(length, p + inRate, inRate, outRate)
  }

  class LinearResampler {
    const inRate: nat
    const outRate: nat
    /** Read position in the next chunk, in units of 1/outRate of an input sample. */
    var pos: nat
    var prev: Sample
    var primed: bool

    ghost predicate Valid()
      reads this
    {
      inRate > 0 && outRate > 0 && (inRate == outRate ==> pos == 0)
    }

    constructor (inHz: nat, outHz: nat)
      requires inHz > 0 && outHz > 0
      ensures Valid() && inRate == inHz && outRate == outHz && pos == 0
    {
      inRate, outRate, pos, prev, primed := inHz, outHz, 0, 0, false;
    }

    method Push(input: seq<Sample>, queue: seq<Sample>) returns (out: seq<Sample>)
      requires Valid()
      modifies this
      ensures Valid()
      ensures St(pos, out) == Pushed(St(old(pos), queue), input, inRate, outRate)
    {
      out := queue;
      if input == [] {
        return;
      }
      if inRate == outRate {
        out := out + input;
        return;
      }
      if !primed {
        prev := input[0];
        primed := true;
      }
      ghost var all := queue + Emitted(input, pos, inRate, outRate);
      while pos < |input| * outRate
        invariant out + Emitted(input, pos, inRate, outRate) == all
        invariant Carried(|input|, pos, inRate, outRate) == Carried(|input|, old(pos), inRate, outRate)
        decreases |input| * outRate - pos
      {
        InChunk(input, pos, outRate);
        var i := pos / outRate;
        var a := if i < 0 then prev else input[i];
        var b := if i + 1 < |input| then input[i + 1] else input[|input| - 1];
        var s := RoundDiv(Line(a, b, pos % outRate, outRate), outRate);
        assert Clamp(s) == ValueAt(input, pos, outRate);
        out := out + [Clamp(s)];
        pos := pos + inRate;
      }
      pos := pos - |input| * outRate;
      prev := input[|input| - 1];
    }
  }

  // ---------------------------------------------------------------- whole streams

  /** Position, and everything emitted so far. */
  datatype St = St(pos: nat, out: seq<Sample>)

  function Pushed(s: St, input: seq<Sample>, inRate: nat, outRate: nat): St
    requires inRate > 0 && outRate > 0
  {
    if inRate == outRate then St(s.pos, s.out + input)
    else if input == [] then s
    else St(Carried(|input|, s.pos, inRate, outRate), s.out + Emitted(input, s.pos, inRate, outRate))
  }

  function Stream(chunks: seq<seq<Sample>>, inRate: nat, outRate: nat): St
    requires inRate > 0 && outRate > 0
  {
    if chunks == [] then St(0, [])
    else Pushed(Stream(chunks[..|chunks| - 1], inRate, outRate), chunks[|chunks| - 1], inRate, outRate)
  }

  function Flat<T>(chunks: seq<seq<T>>): seq<T> {
    if chunks == [] then [] else Flat(chunks[..|chunks| - 1]) + chunks[|chunks| - 1]
  }

  /** Sample `i` is the last of its chunk. */
  predicate EndsChunk(chunks: seq<seq<Sample>>, i: nat) {
    chunks != [] &&
    if i < |Flat(chunks[..|chunks| - 1])| then EndsChunk(chunks[..|chunks| - 1], i)
    else i == |Flat(chunks)| - 1
  }

  /** Output `k` lies at input position `k * inRate / outRate`, and is the rounded
      interpolation there, held where the sample to its left ends a chunk. */
  function Ideal(chunks: seq<seq<Sample>>, k: nat, inRate: nat, outRate: nat): int
    requires inRate > 0 && outRate > 0 && k * inRate / outRate < |Flat(chunks)|
  {
    IdealAt(chunks, k * inRate / outRate, k * inRate % outRate, outRate)
  }

  function IdealAt(chunks: seq<seq<Sample>>, i: nat, f: nat, out: nat): int
    requires i < |Flat(chunks)| && f < out
  {
    var x := Flat(chunks);
    RoundDiv(Line(x[i], if EndsChunk(chunks, i) || i + 1 >= |x| then x[i] else x[i + 1], f, out), out)
  }

  /** One chunk keeps account: the carried position is what the emitted samples overshoot. */
  lemma {:induction false} EmittedCount(input: seq<Sample>, p: nat, m: nat, base: int, inRate: nat, outRate: nat)
    requires inRate > 0 && outRate > 0 && p < |input| * outRate + inRate && p + base == m * inRate
    ensures var q, n := Carried(|input|, p, inRate, outRate), |Emitted(input, p, inRate, outRate)|;
      q < inRate && q + base + |input| * outRate == (m + n) * inRate
    decreases |input| * outRate - p
  {
    if p < |input| * outRate {
      OneStep(m, inRate);
      EmittedCount(input, p + inRate, m + 1, base, inRate, outRate);
    }
  }

  /** Emitted sample `k` is the value `k` steps further on. */
  lemma {:induction false} EmittedAt(input: seq<Sample>, p: nat, inRate: nat, outRate: nat, k: nat)
    requires inRate > 0 && outRate > 0 && k < |Emitted(input, p, inRate, outRate)|
    ensures p + k * inRate < |input| * outRate && 0 <= (p + k * inRate) / outRate < |input|
    ensures Emitted(input, p, inRate, outRate)[k] == ValueAt(input, p + k * inRate, outRate)
    decreases k
  {
    if k > 0 {
      OneStep(k - 1, inRate);
      EmittedAt(input, p + inRate, inRate, outRate, k - 1);
      assert p + inRate + (k - 1) * inRate == p + k * inRate;
    } else {
      InChunk(input, p, outRate);
    }
  }

  /** After any chunks: the position is non-negative and less than one output step, so the
      sample before the chunk is never read, and the count is exact. */
  lemma {:induction false} StreamCount(chunks: seq<seq<Sample>>, inRate: nat, outRate: nat)
    requires inRate > 0 && outRate > 0
    ensures var s, n := Stream(chunks, inRate, outRate), |Flat(chunks)|;
      && s.pos < inRate && (inRate == outRate ==> s.pos == 0)
      && s.pos + n * outRate == |s.out| * inRate
      && |s.out| == (n * outRate + inRate - 1) / inRate
  {
    var s, n := Stream(chunks, inRate, outRate), |Flat(chunks)|;
    if chunks != [] {
      var before, input := chunks[..|chunks| - 1], chunks[|chunks| - 1];
      StreamCount(before, inRate, outRate);
      var t, b := Stream(before, inRate, outRate), |Flat(before)|;
      Distribute(b, |input|, outRate);
      if inRate == outRate {
        Distribute(|t.out|, |input|, inRate);
      } else if input != [] {
        EmittedCount(input, t.pos, |t.out|, b * outRate, inRate, outRate);
      }
    }
    QuotientIs(n * outRate + inRate - 1, inRate, |s.out|);
  }

  lemma Distribute(a: int, b: int, c: int)
    ensures (a + b) * c == a * c + b * c
  {
  }

  lemma {:induction false} LastEnds(chunks: seq<seq<Sample>>)
    requires Flat(chunks) != []
    ensures EndsChunk(chunks, |Flat(chunks)| - 1)
  {
    if chunks[|chunks| - 1] == [] {
      LastEnds(chunks[..|chunks| - 1]);
    }
  }

  /** Every output sample of every stream, however it is cut into chunks. */
  lemma {:induction false} StreamOutput(chunks: seq<seq<Sample>>, inRate: nat, outRate: nat, k: nat)
    requires inRate > 0 && outRate > 0 && k < |Stream(chunks, inRate, outRate).out|
    ensures k * inRate / outRate < |Flat(chunks)|
    ensures Stream(chunks, inRate, outRate).out[k] == Ideal(chunks, k, inRate, outRate)
  {
    var before, input := chunks[..|chunks| - 1], chunks[|chunks| - 1];
    var t := Stream(before, inRate, outRate);
    StreamCount(before, inRate, outRate);
    if k < |t.out| {
      StreamOutput(before, inRate, outRate, k);
      EarlierOutput(chunks, inRate, outRate, k);
    } else if inRate == outRate {
      EqualRates(chunks, inRate, k);
    } else {
      NewOutput(chunks, inRate, outRate, k - |t.out|, k);
    }
  }

  /** A later chunk changes nothing about what was due before. */
  lemma EarlierOutput(chunks: seq<seq<Sample>>, inRate: nat, outRate: nat, k: nat)
    requires inRate > 0 && outRate > 0 && chunks != [] && k * inRate / outRate < |Flat(chunks[..|chunks| - 1])|
    ensures Ideal(chunks, k, inRate, outRate) == Ideal(chunks[..|chunks| - 1], k, inRate, outRate)
  {
    hide RoundDiv, Line;
    var before, i := chunks[..|chunks| - 1], k * inRate / outRate;
    LastEnds(before);
  }

  lemma EqualRates(chunks: seq<seq<Sample>>, rate: nat, k: nat)
    requires rate > 0 && chunks != [] && k < |Stream(chunks, rate, rate).out|
    requires k >= |Stream(chunks[..|chunks| - 1], rate, rate).out|
    ensures k * rate / rate < |Flat(chunks)|
    ensures Stream(chunks, rate, rate).out[k] == Ideal(chunks, k, rate, rate)
  {
    var before := chunks[..|chunks| - 1];
    StreamCount(before, rate, rate);
    SameFactor(|Stream(before, rate, rate).out|, |Flat(before)|, rate);
    QuotientIs(k * rate, rate, k);
    WholeValue(Flat(chunks)[k], rate);
  }

  lemma SameFactor(a: int, b: int, c: int)
    requires c > 0 && a * c == b * c
    ensures a == b
  {
    if a < b {
      MulOrder(a + 1, b, c);
    } else if b < a {
      MulOrder(b + 1, a, c);
    }
  }

  lemma WholeValue(a: int, out: int)
    requires out > 0
    ensures forall b: int :: RoundDiv(Line(a, b, 0, out), out) == a
  {
    forall b: int ensures RoundDiv(Line(a, b, 0, out), out) == a {
      assert Line(a, b, 0, out) == a * out;
      RoundBetween(a * out, out, a, a);
    }
  }

  /** Sample `j` of the last chunk's output is output `k` of the stream. */
  lemma NewOutput(chunks: seq<seq<Sample>>, inRate: nat, outRate: nat, j: nat, k: nat)
    requires inRate > 0 && outRate > 0 && chunks != [] && inRate != outRate
    requires k < |Stream(chunks, inRate, outRate).out|
    requires k == j + |Stream(chunks[..|chunks| - 1], inRate, outRate).out|
    ensures k * inRate / outRate < |Flat(chunks)|
    ensures Stream(chunks, inRate, outRate).out[k] == Ideal(chunks, k, inRate, outRate)
  {
    hide Emitted, ValueOf, IdealAt, EndsChunk;
    var before, input := chunks[..|chunks| - 1], chunks[|chunks| - 1];
    var t, base := Stream(before, inRate, outRate), |Flat(before)|;
    StreamCount(before, inRate, outRate);
    EmittedAt(input, t.pos, inRate, outRate, j);
    var q := t.pos + j * inRate;
    Positions(base, t.pos, |t.out|, j, k, q, inRate, outRate);
    LocalIdeal(chunks, q / outRate, q % outRate, outRate);
    hide Flat;
  }

  /** Positions in a chunk and in the stream differ by the samples before the chunk. */
  lemma Positions(base: nat, pos: nat, m: nat, j: nat, k: nat, q: nat, inRate: nat, outRate: nat)
    requires outRate > 0 && pos + base * outRate == m * inRate && k == j + m && q == pos + j * inRate
    ensures k * inRate / outRate == base + q / outRate && k * inRate % outRate == q % outRate
  {
    Distribute(m, j, inRate);
    ShiftDiv(base, q, outRate);
    assert k * inRate == base * outRate + q;
  }

  /** Within the last chunk of a stream the ideal value is the chunk's own. */
  lemma LocalIdeal(chunks: seq<seq<Sample>>, i: nat, f: nat, out: nat)
    requires chunks != [] && i < |chunks[|chunks| - 1]| && f < out
    ensures var base := |Flat(chunks[..|chunks| - 1])|;
      base + i < |Flat(chunks)| && IdealAt(chunks, base + i, f, out) == ValueOf(chunks[|chunks| - 1], i, f, out)
  {
    var input, base := chunks[|chunks| - 1], |Flat(chunks[..|chunks| - 1])|;
    var b := if i + 1 < |input| then input[i + 1] else input[|input| - 1];
    ClampIdle(input[i], b, f, out);
    hide RoundDiv, Line, Clamp;
    assert Flat(chunks)[base + i] == input[i];
    assert i + 1 < |input| ==> Flat(chunks)[base + i + 1] == input[i + 1];
  }

  /** How a stream is cut into chunks does not change the number of samples. */
  lemma CountIgnoresChunks(a: seq<seq<Sample>>, b: seq<seq<Sample>>, inRate: nat, outRate: nat)
    requires inRate > 0 && outRate > 0 && Flat(a) == Flat(b)
    ensures |Stream(a, inRate, outRate).out| == |Stream(b, inRate, outRate).out|
  {
    StreamCount(a, inRate, outRate);
    StreamCount(b, inRate, outRate);
  }

  /** It does change values: doubling two samples that come in one chunk interpolates
      between them, doubling two that come in two chunks holds the first. */
  lemma ValuesDependOnChunks(a: Sample, b: Sample)
    ensures Flat([[a, b]]) == Flat([[a], [b]])
    ensures |Stream([[a, b]], 1, 2).out| > 1 && Stream([[a, b]], 1, 2).out[1] == RoundDiv(a + b, 2)
    ensures |Stream([[a], [b]], 1, 2).out| > 1 && Stream([[a], [b]], 1, 2).out[1] == a
  {
    Doubled([[a, b]], a, b);
    Doubled([[a], [b]], a, b);
    assert Flat([[a], [b]][..1]) == [a];
    WholeValue(a, 2);
    assert Line(a, a, 1, 2) == Line(a, a, 0, 2);
  }

  lemma Doubled(chunks: seq<seq<Sample>>, a: Sample, b: Sample)
    requires chunks == [[a, b]] || chunks == [[a], [b]]
    ensures Flat(chunks) == [a, b] && |Stream(chunks, 1, 2).out| > 1
    ensures Stream(chunks, 1, 2).out[1] == RoundDiv(if EndsChunk(chunks, 0) then 2 * a else a + b, 2)
    ensures EndsChunk(chunks, 0) <==> chunks == [[a], [b]]
  {
    if chunks == [[a], [b]] {
      assert |chunks[..1][..0]| == 0 && chunks[..1] == [[a]];
      assert Flat(chunks[..1]) == [a] && Flat(chunks) == [a, b] && EndsChunk(chunks, 0);
    } else {
      assert |chunks[..0]| == 0 && Flat(chunks) == [a, b] && !EndsChunk(chunks, 0);
    }
    hide EndsChunk, Flat, Stream, RoundDiv;
    StreamCount(chunks, 1, 2);
    StreamOutput(chunks, 1, 2, 1);
    assert Ideal(chunks, 1, 1, 2) == IdealAt(chunks, 0, 1, 2);
  }

  /** `v` is within one half of the mean of `a` and `b` that weighs `b` by `f / out`. */
  predicate IsNearest(v: int, a: int, b: int, f: int, out: int) {
    var exact := (out - f) * a + f * b;
    2 * exact - out <= 2 * (v * out) <= 2 * exact + out
  }

  /** Output `k` is the whole number nearest to its two neighbours in the input weighted by
      how near they are, the left one alone where it ends a chunk. */
  lemma OutputIsNearest(chunks: seq<seq<Sample>>, inRate: nat, outRate: nat, k: nat, i: int, f: int)
    requires inRate > 0 && outRate > 0 && k < |Stream(chunks, inRate, outRate).out|
    requires i == k * inRate / outRate && f == k * inRate % outRate
    ensures 0 <= i < |Flat(chunks)|
    ensures var x := Flat(chunks);
      var b := if i + 1 < |x| && !EndsChunk(chunks, i) then x[i + 1] else x[i];
      IsNearest(Stream(chunks, inRate, outRate).out[k], x[i], b, f, outRate)
  {
    hide Stream, Flat, EndsChunk, IdealAt, IsNearest;
    StreamOutput(chunks, inRate, outRate, k);
    assert Stream(chunks, inRate, outRate).out[k] == IdealAt(chunks, i, f, outRate);
    IdealIsNearest(chunks, i, f, outRate);
  }

  lemma IdealIsNearest(chunks: seq<seq<Sample>>, i: nat, f: nat, out: nat)
    requires i < |Flat(chunks)| && f < out
    ensures var x := Flat(chunks);
      var b := if i + 1 < |x| && !EndsChunk(chunks, i) then x[i + 1] else x[i];
      IsNearest(IdealAt(chunks, i, f, out), x[i], b, f, out)
  {
    hide Flat, EndsChunk, RoundDiv, Line, IsNearest;
    var x := Flat(chunks);
    RoundedIsNearest(x[i], if i + 1 < |x| && !EndsChunk(chunks, i) then x[i + 1] else x[i], f, out);
  }

  lemma RoundedIsNearest(a: int, b: int, f: int, out: int)
    requires out > 0
    ensures IsNearest(RoundDiv(Line(a, b, f, out), out), a, b, f, out)
  {
    hide RoundDiv;
    LineIsWeighted(a, b, f, out);
    RoundNearest(Line(a, b, f, out), out);
  }

  /** Every output lies between its two neighbours in the input. */
  lemma OutputIsBetween(chunks: seq<seq<Sample>>, inRate: nat, outRate: nat, k: nat, i: int)
    requires inRate > 0 && outRate > 0 && k < |Stream(chunks, inRate, outRate).out| && i == k * inRate / outRate
    ensures 0 <= i < |Flat(chunks)|
    ensures var x := Flat(chunks);
      var b := if i + 1 < |x| then x[i + 1] else x[i];
      var v := Stream(chunks, inRate, outRate).out[k];
      x[i] <= v <= b || b <= v <= x[i]
  {
    hide Stream, IdealAt, Flat;
    StreamOutput(chunks, inRate, outRate, k);
    var f := k * inRate % outRate;
    assert Stream(chunks, inRate, outRate).out[k] == IdealAt(chunks, i, f, outRate);
    IdealBetween(chunks, i, f, outRate);
  }

  lemma IdealBetween(chunks: seq<seq<Sample>>, i: nat, f: nat, out: nat)
    requires i < |Flat(chunks)| && f < out
    ensures var x := Flat(chunks);
      var b := if i + 1 < |x| then x[i + 1] else x[i];
      var v := IdealAt(chunks, i, f, out);
      x[i] <= v <= b || b <= v <= x[i]
  {
    hide EndsChunk, RoundDiv, Line, Flat;
    var x := Flat(chunks);
    RoundedBetween(x[i], x[i], f, out);
    if i + 1 < |x| {
      RoundedBetween(x[i], x[i + 1], f, out);
    }
  }

  lemma RoundedBetween(a: int, b: int, f: int, out: int)
    requires 0 <= f < out
    ensures var v := RoundDiv(Line(a, b, f, out), out); a <= v <= b || b <= v <= a
  {
    LineBetween(a, b, f, out);
    if a <= b {
      RoundBetween(Line(a, b, f, out), out, a, b);
    } else {
      RoundBetween(Line(a, b, f, out), out, b, a);
    }
  }

  // ---------------------------------------------------------------- framing

  /** The encode thread's loop: what is left over is kept for the next frame. */
  class Framer {
    var pending: seq<Sample>
    var frames: seq<seq<Sample>>

    ghost predicate Valid()
      reads this
    {
      |pending| < FRAME_SAMPLES && forall i | 0 <= i < |frames| :: |frames[i]| == FRAME_SAMPLES
    }

    constructor ()
      ensures Valid() && pending == [] && frames == []
    {
      pending, frames := [], [];
    }

    /** No sample is lost, repeated or moved. */
    method Chunk(samples: seq<Sample>)
      requires Valid()
      modifies this
      ensures Valid() && old(frames) <= frames
      ensures Flat(frames) + pending == old(Flat(frames) + pending) + samples
    {
      pending := pending + samples;
      ghost var all := Flat(frames) + pending;
      while |pending| >= FRAME_SAMPLES
        invariant old(frames) <= frames && Flat(frames) + pending == all
        invariant forall i | 0 <= i < |frames| :: |frames[i]| == FRAME_SAMPLES
        decreases |pending|
      {
        var frame := pending[..FRAME_SAMPLES];
        assert (frames + [frame])[..|frames|] == frames;
        assert frame + pending[FRAME_SAMPLES..] == pending;
        assert Flat(frames) + pending == (Flat(frames) + frame) + pending[FRAME_SAMPLES..];
        pending := pending[FRAME_SAMPLES..];
        frames := frames + [frame];
      }
    }
  }

  lemma {:induction false} FlatLength(frames: seq<seq<Sample>>)
    requires forall i | 0 <= i < |frames| :: |frames[i]| == FRAME_SAMPLES
    ensures |Flat(frames)| == FRAME_SAMPLES * |frames|
  {
    if frames != [] {
      FlatLength(frames[..|frames| - 1]);
    }
  }

  /** The frames are determined by the samples: as many as fit, in order. */
  lemma {:induction false} FramesAreSlices(frames: seq<seq<Sample>>, pending: seq<Sample>, all: seq<Sample>)
    requires forall i | 0 <= i < |frames| :: |frames[i]| == FRAME_SAMPLES
    requires |pending| < FRAME_SAMPLES && Flat(frames) + pending == all
    ensures |frames| == |all| / FRAME_SAMPLES
    ensures forall i | 0 <= i < |frames| ::
      FRAME_SAMPLES * (i + 1) <= |all| && frames[i] == all[FRAME_SAMPLES * i..FRAME_SAMPLES * (i + 1)]
  {
    FlatLength(frames);
    forall i | 0 <= i < |frames|
      ensures FRAME_SAMPLES * (i + 1) <= |all| && frames[i] == all[FRAME_SAMPLES * i..FRAME_SAMPLES * (i + 1)]
    {
      FrameAt(frames, i);
      var lo, hi := FRAME_SAMPLES * i, FRAME_SAMPLES * (i + 1);
      assert hi <= |Flat(frames)|;
      assert all[lo..hi] == Flat(frames)[lo..hi];
    }
  }

  lemma {:induction false} FrameAt(frames: seq<seq<Sample>>, i: nat)
    requires i < |frames| && forall j | 0 <= j < |frames| :: |frames[j]| == FRAME_SAMPLES
    ensures FRAME_SAMPLES * (i + 1) <= |Flat(frames)|
    ensures Flat(frames)[FRAME_SAMPLES * i..FRAME_SAMPLES * (i + 1)] == frames[i]
  {
    FlatLength(frames);
    FlatLength(frames[..|frames| - 1]);
    if i < |frames| - 1 {
      FrameAt(frames[..|frames| - 1], i);
      var lo, hi, head := FRAME_SAMPLES * i, FRAME_SAMPLES * (i + 1), Flat(frames[..|frames| - 1]);
      assert Flat(frames)[lo..hi] == head[lo..hi];
    }
  }

  /** From `n` input samples, however delivered, the encoder gets exactly the whole frames
      that their resampled length holds. */
  lemma EncodedFrames(chunks: seq<seq<Sample>>, inRate: nat, frames: seq<seq<Sample>>, pending: seq<Sample>)
    requires inRate > 0
    requires forall i | 0 <= i < |frames| :: |frames[i]| == FRAME_SAMPLES
    requires |pending| < FRAME_SAMPLES && Flat(frames) + pending == Stream(chunks, inRate, 48000).out
    ensures |frames| == ((|Flat(chunks)| * 48000 + inRate - 1) / inRate) / 960
  {
    StreamCount(chunks, inRate, 48000);
    FramesAreSlices(frames, pending, Stream(chunks, inRate, 48000).out);
  }

  // ---------------------------------------------------------------- playback

  /** The last `n` samples, or all if there are fewer. */
  function LastOf(s: seq<Sample>, n: nat): seq<Sample> {
    if |s| <= n then s else s[|s| - n..]
  }

  lemma PushedAppends(p: nat, out: seq<Sample>, input: seq<Sample>, inRate: nat, outRate: nat)
    requires inRate > 0 && outRate > 0
    ensures var r := Pushed(St(p, []), input, inRate, outRate);
      Pushed(St(p, out), input, inRate, outRate) == St(r.pos, out + r.out)
  {
    hide Emitted, Carried;
  }

  lemma TrimKeepsSuffix(stream: seq<Sample>, buffer: seq<Sample>, more: seq<Sample>, cap: nat)
    requires |buffer| <= |stream| && buffer == stream[|stream| - |buffer|..]
    ensures var s, b := stream + more, LastOf(buffer + more, cap);
      |b| <= cap && |b| <= |s| && b == s[|s| - |b|..]
  {
  }

  /** The playback buffer. `heard` counts the real samples the device has taken. */
  class Playback {
    const outRate: nat
    const resampler: LinearResampler
    var buffer: seq<Sample>
    var heard: nat
    ghost var stream: seq<Sample>

    /** 400 ms worth of samples, in whole thousands of the rate. */
    function Cap(): nat {
      (outRate / 1000) * 400
    }

    /** The cap is 400 ms, short of that by less than one thousand samples' rounding. */
    lemma CapIsFourTenths()
      ensures 1000 * Cap() <= 400 * outRate < 1000 * Cap() + 400 * 1000
    {
    }

    /** What is buffered is the newest part of what was decoded, at most the cap. */
    ghost predicate Valid()
      reads this, resampler
    {
      && resampler.Valid() && resampler.inRate == 48000 && resampler.outRate == outRate
      && |buffer| <= Cap() && |buffer| <= |stream|
      && buffer == stream[|stream| - |buffer|..]
    }

    constructor (rate: nat)
      requires rate > 0
      ensures Valid() && fresh(resampler) && buffer == [] && stream == [] && outRate == rate
    {
      outRate, buffer, heard, stream := rate, [], 0, [];
      resampler := new LinearResampler(48000, rate);
    }

    /** `pop_front` until the buffer is no longer than the cap. */
    method Trim()
      modifies this`buffer
      ensures buffer == LastOf(old(buffer), Cap())
    {
      ghost var whole := buffer;
      while |buffer| > Cap()
        invariant |buffer| <= |whole| && buffer == whole[|whole| - |buffer|..]
        invariant |buffer| < |whole| ==> |buffer| >= Cap()
        decreases |buffer|
      {
        buffer := buffer[1..];
      }
    }

    method Enqueue(pcm: seq<Sample>)
      requires Valid()
      modifies this`buffer, this`stream, resampler
      ensures Valid()
      ensures St(resampler.pos, stream) == Pushed(St(old(resampler.pos), old(stream)), pcm, 48000, outRate)
      ensures var more := Pushed(St(old(resampler.pos), []), pcm, 48000, outRate).out;
        buffer == LastOf(old(buffer) + more, Cap())
    {
      hide Pushed, LastOf;
      PushedAppends(resampler.pos, stream, pcm, 48000, outRate);
      var out := resampler.Push(pcm, []);
      Append(out);
    }

    /** Newly resampled samples push out the oldest. */
    method Append(out: seq<Sample>)
      requires |buffer| <= |stream| && buffer == stream[|stream| - |buffer|..]
      modifies this`buffer, this`stream
      ensures stream == old(stream) + out && buffer == LastOf(old(buffer) + out, Cap())
      ensures |buffer| <= Cap() && |buffer| <= |stream| && buffer == stream[|stream| - |buffer|..]
    {
      TrimKeepsSuffix(stream, buffer, out, Cap());
      hide LastOf;
      stream := stream + out;
      buffer := buffer + out;
      Trim();
    }

    /** The device takes a sample; an empty buffer plays silence. */
    method Pull() returns (s: Sample)
      requires Valid()
      modifies this`buffer, this`heard
      ensures Valid()
      ensures old(buffer) == [] ==> s == 0 && buffer == [] && heard == old(heard)
      ensures old(buffer) != [] ==> [s] + buffer == old(buffer) && heard == old(heard) + 1
    {
      if buffer == [] {
        s := 0;
      } else {
        s := buffer[0];
        buffer := buffer[1..];
        heard := heard + 1;
      }
    }
  }

  /** Trimming chunk by chunk drops exactly what trimming once at the end would drop. */
  lemma TrimOnce(s: seq<Sample>, t: seq<Sample>, n: nat)
    ensures LastOf(LastOf(s, n) + t, n) == LastOf(s + t, n)
  {
  }
}
