/**
 Geometry of the swipe decoder over exact reals: arc-length resampling and
 normalisation. The distance function is a parameter `dist` known only to be
 non-negative with square equal to the squared Euclidean distance.
 */
module Polyline {
  datatype Point = Point(x: real, y: real)

  /** Points a path is resampled to. */
  const N: nat := 32
  const MIN_LENGTH: real := 0.000000001
  const MIN_SPAN: real := 0.000001

  type Metric = (Point, Point) -> real

  function Dist2(a: Point, b: Point): real {
    (a.x - b.x) * (a.x - b.x) + (a.y - b.y) * (a.y - b.y)
  }

  ghost predicate Euclid(dist: Metric) {
    forall a, b :: dist(a, b) >= 0.0 && dist(a, b) * dist(a, b) == Dist2(a, b)
  }

  function Lerp(p: Point, q: Point, t: real): Point {
    Point(p.x + t * (q.x - p.x), p.y + t * (q.y - p.y))
  }

  /** Length of a polyline. */
  function Length(dist: Metric, ps: seq<Point>): real {
    if |ps| < 2 then 0.0 else dist(ps[0], ps[1]) + Length(dist, ps[1..])
  }

  /** The point at arc length `s` from the start; the last point beyond the end. */
  function PointAt(dist: Metric, ps: seq<Point>, s: real): Point
    requires ps != [] && s >= 0.0
  {
    if |ps| == 1 then ps[0]
    else if s < dist(ps[0], ps[1]) then Lerp(ps[0], ps[1], s / dist(ps[0], ps[1]))
    else PointAt(dist, ps[1..], s - dist(ps[0], ps[1]))
  }

  /** `k` intervals, counted up. */
  function Mark(k: nat, interval: real): real {
    if k == 0 then 0.0 else Mark(k - 1, interval) + interval
  }

  /** The point `k` intervals along. */
  function Sample(dist: Metric, ps: seq<Point>, interval: real, k: nat): Point
    requires ps != [] && interval >= 0.0
  {
    MarkNonNeg(k, interval);
    PointAt(dist, ps, Mark(k, interval))
  }

  /** The specification of resampling: N points equally spaced by arc length. */
  function Resampled(dist: Metric, ps: seq<Point>): (r: seq<Point>)
    ensures |r| == N
  {
    if |ps| < 2 then seq(N, _ => if ps == [] then Point(0.0, 0.0) else ps[0])
    else if Length(dist, ps) <= MIN_LENGTH then seq(N, _ => ps[0])
    else seq(N, k requires 0 <= k => Sample(dist, ps, Length(dist, ps) / 31.0, k))
  }

  // ---------------------------------------------------------------- real arithmetic

  lemma {:induction false} MarkNonNeg(k: nat, interval: real)
    requires interval >= 0.0
    ensures Mark(k, interval) >= 0.0
  {
    if k > 0 {
      MarkNonNeg(k - 1, interval);
    }
  }

  lemma {:induction false} MarkIsMultiple(k: nat, interval: real)
    ensures Mark(k, interval) == k as real * interval
  {
    if k > 0 {
      MarkIsMultiple(k - 1, interval);
      assert k as real * interval == (k - 1) as real * interval + interval by {
        OneMore((k - 1) as real, interval);
      }
    }
  }

  lemma OneMore(k: real, v: real)
    ensures (k + 1.0) * v == k * v + v
  {
  }

  lemma {:induction false} MarkGrows(j: nat, k: nat, interval: real)
    requires j < k && interval > 0.0
    ensures Mark(j, interval) + interval <= Mark(k, interval)
  {
    if j + 1 < k {
      MarkGrows(j, k - 1, interval);
    }
  }

  lemma SameRoot(u: real, v: real)
    requires u >= 0.0 && v >= 0.0 && u * u == v * v
    ensures u == v
  {
    assert (u - v) * (u + v) == 0.0;
    ProductZero(u - v, u + v);
  }

  lemma ProductZero(u: real, v: real)
    requires u * v == 0.0
    ensures u == 0.0 || v == 0.0
  {
  }

  lemma MulNonNeg(k: real, v: real)
    requires k >= 0.0 && v >= 0.0
    ensures k * v >= 0.0
  {
  }

  lemma {:induction false} LengthNonNeg(dist: Metric, ps: seq<Point>)
    requires Euclid(dist)
    ensures Length(dist, ps) >= 0.0
  {
    if |ps| >= 2 {
      LengthNonNeg(dist, ps[1..]);
    }
  }

  lemma Dist2Scaled(k: real, ax: real, ay: real)
    ensures (k * ax) * (k * ax) + (k * ay) * (k * ay) == (k * k) * (ax * ax + ay * ay)
  {
  }

  /** Distance is homogeneous: a difference `k` times as large is `k` times as long. */
  lemma DistScaled(dist: Metric, a: Point, b: Point, c: Point, d: Point, k: real)
    requires Euclid(dist) && k >= 0.0
    requires c.x - d.x == k * (a.x - b.x) && c.y - d.y == k * (a.y - b.y)
    ensures dist(c, d) == k * dist(a, b)
  {
    var u, v := dist(c, d), dist(a, b);
    Dist2Scaled(k, a.x - b.x, a.y - b.y);
    assert u * u == (k * k) * (v * v);
    assert (k * v) * (k * v) == (k * k) * (v * v);
    MulNonNeg(k, v);
    SameRoot(u, k * v);
  }

  lemma DistSym(dist: Metric, a: Point, b: Point)
    requires Euclid(dist)
    ensures dist(a, b) == dist(b, a)
  {
    assert Dist2(a, b) == Dist2(b, a);
    SameRoot(dist(a, b), dist(b, a));
  }

  lemma DistZero(dist: Metric, a: Point, b: Point)
    requires Euclid(dist)
    ensures dist(a, b) == 0.0 <==> a == b
  {
    var dx, dy, r := a.x - b.x, a.y - b.y, dist(a, b);
    assert r * r == dx * dx + dy * dy;
    if r == 0.0 {
      SumOfSquares(dx, dy);
    } else if a == b {
      assert dx * dx == 0.0 && dy * dy == 0.0;
      ProductZero(r, r);
    }
  }

  lemma SumOfSquares(u: real, v: real)
    requires u * u + v * v == 0.0
    ensures u == 0.0 && v == 0.0
  {
    assert u * u >= 0.0 && v * v >= 0.0;
    assert u * u == 0.0;
    ProductZero(u, u);
    ProductZero(v, v);
  }

  /** What a distance is: along an axis the difference, and Pythagoras in between. */
  lemma DistanceIs(dist: Metric, a: Point, b: Point, d: real)
    requires Euclid(dist)
    ensures dist(a, Point(a.x + d, a.y)) == (if d >= 0.0 then d else -d)
    ensures dist(a, Point(a.x, a.y + d)) == (if d >= 0.0 then d else -d)
    ensures var c := Point(b.x, a.y); dist(a, b) * dist(a, b) == dist(a, c) * dist(a, c) + dist(c, b) * dist(c, b)
  {
    var size := if d >= 0.0 then d else -d;
    assert dist(a, Point(a.x + d, a.y)) * dist(a, Point(a.x + d, a.y)) == size * size;
    assert dist(a, Point(a.x, a.y + d)) * dist(a, Point(a.x, a.y + d)) == size * size;
    SameRoot(dist(a, Point(a.x + d, a.y)), size);
    SameRoot(dist(a, Point(a.x, a.y + d)), size);
  }

  // ---------------------------------------------------------------- walking a polyline

  lemma {:induction false} StartPoint(dist: Metric, ps: seq<Point>)
    requires Euclid(dist) && ps != []
    ensures PointAt(dist, ps, 0.0) == ps[0]
  {
    if |ps| > 1 && dist(ps[0], ps[1]) == 0.0 {
      DistZero(dist, ps[0], ps[1]);
      StartPoint(dist, ps[1..]);
    }
  }

  lemma {:induction false} EndPoint(dist: Metric, ps: seq<Point>)
    requires Euclid(dist) && ps != []
    ensures Length(dist, ps) >= 0.0 && PointAt(dist, ps, Length(dist, ps)) == ps[|ps| - 1]
  {
    LengthNonNeg(dist, ps);
    if |ps| > 1 {
      EndPoint(dist, ps[1..]);
    }
  }

  /** Splitting a segment at parameter `t`. */
  lemma Split(dist: Metric, p: Point, c: Point, t: real)
    requires Euclid(dist) && 0.0 <= t <= 1.0
    ensures dist(p, Lerp(p, c, t)) == t * dist(p, c)
    ensures dist(Lerp(p, c, t), c) == (1.0 - t) * dist(p, c)
  {
    var q := Lerp(p, c, t);
    DistSym(dist, p, q);
    DistSym(dist, p, c);
    DistScaled(dist, c, p, q, p, t);
    DistSym(dist, q, c);
    DistScaled(dist, c, p, c, q, 1.0 - t);
  }

  lemma DivTimes(a: real, b: real)
    requires b != 0.0
    ensures (a / b) * b == a
  {
  }

  /** The parameter in the whole segment of parameter `u` in its part after `t`. */
  lemma PartRatio(t: real, dd: real, s: real, u: real, w: real)
    requires dd > 0.0 && u * ((1.0 - t) * dd) == s && w * dd == t * dd + s
    ensures w == t + u * (1.0 - t)
  {
    var z := t + u * (1.0 - t) - w;
    assert z * dd == t * dd + u * ((1.0 - t) * dd) - w * dd;
    ProductZero(z, dd);
  }

  /** Interpolating from the split point on is interpolating in the whole segment. */
  lemma LerpFromSplit(p: Point, c: Point, q: Point, t: real, u: real, w: real)
    requires w == t + u * (1.0 - t) && q == Lerp(p, c, t)
    ensures Lerp(q, c, u) == Lerp(p, c, w)
  {
    LerpCoord(t, u, w, c.x - p.x, q.x - p.x, c.x - q.x);
    LerpCoord(t, u, w, c.y - p.y, q.y - p.y, c.y - q.y);
  }

  lemma LerpCoord(t: real, u: real, w: real, whole: real, before: real, after: real)
    requires w == t + u * (1.0 - t) && before == t * whole && after == whole - before
    ensures before + u * after == w * whole
  {
  }

  // ---------------------------------------------------------------- resampling

  /** What is left to walk, `rest`, continues the polyline `ps` from arc length `at`. */
  ghost predicate Continues(dist: Metric, ps: seq<Point>, rest: seq<Point>, at: real)
    requires ps != [] && rest != []
  {
    && at >= 0.0
    && at + Length(dist, rest) == Length(dist, ps)
    && forall s :: 0.0 <= s <= Length(dist, rest) ==> PointAt(dist, rest, s) == PointAt(dist, ps, at + s)
  }

  /** Passing a vertex. */
  lemma PassVertex(dist: Metric, ps: seq<Point>, rest: seq<Point>, at: real)
    requires Euclid(dist) && ps != [] && |rest| > 1 && Continues(dist, ps, rest, at)
    ensures Continues(dist, ps, rest[1..], at + dist(rest[0], rest[1]))
  {
    var dd := dist(rest[0], rest[1]);
    LengthNonNeg(dist, rest[1..]);
    forall s | 0.0 <= s <= Length(dist, rest[1..])
      ensures PointAt(dist, rest[1..], s) == PointAt(dist, ps, at + dd + s)
    {
      assert PointAt(dist, rest, s + dd) == PointAt(dist, rest[1..], s);
      assert at + (s + dd) == at + dd + s;
    }
  }

  /** Walking on from a point inserted in the first segment of what is left. */
  lemma WalkFromSplit(dist: Metric, rest: seq<Point>, cut: seq<Point>, t: real, before: real, after: real, s: real)
    requires |rest| > 1 && 0.0 <= t <= 1.0 && s >= 0.0
    requires cut == [Lerp(rest[0], rest[1], t)] + rest[1..]
    requires before == t * dist(rest[0], rest[1]) && after == (1.0 - t) * dist(rest[0], rest[1])
    requires before >= 0.0 && after >= 0.0 && dist(cut[0], rest[1]) == after
    ensures PointAt(dist, cut, s) == PointAt(dist, rest, before + s)
  {
    var dd := dist(rest[0], rest[1]);
    assert cut[1] == rest[1] && cut[1..] == rest[1..];
    assert before + after == dd;
    if s < after {
      var u, w := s / after, (before + s) / dd;
      DivTimes(s, after);
      DivTimes(before + s, dd);
      PartRatio(t, dd, s, u, w);
      LerpFromSplit(rest[0], rest[1], cut[0], t, u, w);
    } else {
      assert before + s - dd == s - after;
    }
  }

  /** Inserting a point `step` ahead, in the first segment of what is left. */
  lemma InsertPoint(dist: Metric, ps: seq<Point>, rest: seq<Point>, at: real, t: real, step: real)
    requires Euclid(dist) && ps != [] && |rest| > 1 && Continues(dist, ps, rest, at)
    requires 0.0 <= t <= 1.0 && step == t * dist(rest[0], rest[1])
    ensures step >= 0.0 && Continues(dist, ps, [Lerp(rest[0], rest[1], t)] + rest[1..], at + step)
  {
    var p, c, q := rest[0], rest[1], Lerp(rest[0], rest[1], t);
    var after := dist(q, c);
    Split(dist, p, c, t);
    MulNonNeg(t, dist(p, c));
    MulNonNeg(1.0 - t, dist(p, c));
    hide Lerp, Euclid;
    InsertKeepsWalk(dist, ps, rest, at, t, q, step, after);
  }

  lemma InsertKeepsWalk(dist: Metric, ps: seq<Point>, rest: seq<Point>, at: real, t: real, q: Point, step: real, after: real)
    requires ps != [] && |rest| > 1 && Continues(dist, ps, rest, at)
    requires 0.0 <= t <= 1.0 && step == t * dist(rest[0], rest[1]) && after == (1.0 - t) * dist(rest[0], rest[1])
    requires step >= 0.0 && after >= 0.0 && q == Lerp(rest[0], rest[1], t) && dist(q, rest[1]) == after
    ensures Continues(dist, ps, [q] + rest[1..], at + step)
  {
    hide Lerp;
    var cut := [q] + rest[1..];
    assert cut[1..] == rest[1..];
    assert step + after == dist(rest[0], rest[1]);
    assert Length(dist, cut) == Length(dist, rest) - step;
    forall s | 0.0 <= s <= Length(dist, cut)
      ensures PointAt(dist, cut, s) == PointAt(dist, ps, at + step + s)
    {
      WalkFromSplit(dist, rest, cut, t, step, after, s);
      assert at + (step + s) == at + step + s;
    }
  }

  /** A walk of 31 intervals that has emitted `k + 1` points and gone less than one
      interval further can only be at its end when `k` is 31. */
  lemma CountAtEnd(k: nat, interval: real, d: real)
    requires interval > 0.0 && 0.0 <= d < interval && Mark(31, interval) == Mark(k, interval) + d
    ensures k == 31
  {
    if k < 31 {
      MarkGrows(k, 31, interval);
    } else if k > 31 {
      MarkGrows(31, k, interval);
    }
  }

  lemma CountBound(k: nat, interval: real, left: real)
    requires interval > 0.0 && left >= 0.0 && Mark(31, interval) == Mark(k, interval) + left
    ensures k <= 31
  {
    if k > 31 {
      MarkGrows(31, k, interval);
    }
  }

  lemma UnitRatio(a: real, b: real)
    requires 0.0 < a <= b
    ensures 0.0 < a / b <= 1.0 && (a / b) * b == a
  {
  }

  /** Emitting output point number `m`: where it lies, and what is left to walk. */
  lemma NextPoint(dist: Metric, ps: seq<Point>, rest: seq<Point>, at: real, d: real, interval: real, m: nat, t: real)
    requires Euclid(dist) && ps != [] && |rest| > 1 && Continues(dist, ps, rest, at)
    requires Length(dist, ps) == Mark(31, interval)
    requires m > 0 && 0.0 <= d < interval && at == Mark(m - 1, interval) + d
    requires d + dist(rest[0], rest[1]) >= interval && t == (interval - d) / dist(rest[0], rest[1])
    ensures var q := Lerp(rest[0], rest[1], t);
            && Continues(dist, ps, [q] + rest[1..], Mark(m, interval))
            && q == Sample(dist, ps, interval, m)
            && m < N
  {
    var cut := [Lerp(rest[0], rest[1], t)] + rest[1..];
    UnitRatio(interval - d, dist(rest[0], rest[1]));
    InsertPoint(dist, ps, rest, at, t, interval - d);
    assert at + (interval - d) == Mark(m, interval);
    StartPoint(dist, cut);
    LengthNonNeg(dist, cut);
    assert PointAt(dist, cut, 0.0) == PointAt(dist, ps, Mark(m, interval) + 0.0);
    CountBound(m, interval, Length(dist, cut));
  }

  /** Point number `k` lies `k` intervals along the polyline. */
  ghost predicate Spaced(dist: Metric, ps: seq<Point>, interval: real, out: seq<Point>)
    requires ps != [] && interval > 0.0
  {
    forall k: nat :: k < |out| ==> out[k] == Sample(dist, ps, interval, k)
  }

  lemma SamplesOf(dist: Metric, ps: seq<Point>, r: seq<Point>)
    requires |ps| >= 2 && Length(dist, ps) > MIN_LENGTH && r == Resampled(dist, ps)
    ensures |r| == N && forall i: nat | i < N :: r[i] == Sample(dist, ps, Length(dist, ps) / 31.0, i)
  {
  }

  /** Sample `k` lies `k` thirty-firsts of the length along the polyline. */
  lemma ResampledAt(dist: Metric, ps: seq<Point>, k: nat, s: real)
    requires |ps| >= 2 && Length(dist, ps) > MIN_LENGTH && k < N && s == k as real * (Length(dist, ps) / 31.0)
    ensures s >= 0.0 && Resampled(dist, ps)[k] == PointAt(dist, ps, s)
  {
    hide PointAt, Length, Mark, Resampled;
    SamplesOf(dist, ps, Resampled(dist, ps));
    SampleAt(dist, ps, Length(dist, ps) / 31.0, k, s);
  }

  /** The samples run from the first input point to the last. */
  lemma ResampledEnds(dist: Metric, ps: seq<Point>)
    requires Euclid(dist) && |ps| >= 2 && Length(dist, ps) > MIN_LENGTH
    ensures Resampled(dist, ps)[0] == ps[0] && Resampled(dist, ps)[N - 1] == ps[|ps| - 1]
  {
    hide PointAt, Length, Euclid, Resampled;
    ResampledAt(dist, ps, 0, 0.0);
    ResampledAt(dist, ps, 31, Length(dist, ps));
    StartPoint(dist, ps);
    EndPoint(dist, ps);
  }

  /** A path with nothing to walk stays where it begins. */
  lemma ShortIsStart(dist: Metric, ps: seq<Point>)
    requires ps != [] && (|ps| == 1 || Length(dist, ps) <= 0.000000001)
    ensures forall k | 0 <= k < 32 :: Resampled(dist, ps)[k] == ps[0]
  {
  }

  lemma SampleAt(dist: Metric, ps: seq<Point>, interval: real, k: nat, s: real)
    requires ps != [] && interval >= 0.0 && s == k as real * interval
    ensures s >= 0.0 && Sample(dist, ps, interval, k) == PointAt(dist, ps, s)
  {
    hide PointAt;
    MarkIsMultiple(k, interval);
    MarkNonNeg(k, interval);
  }

  /** `resample`: the list that is walked grows while it is walked. */
  method Resample(dist: Metric, points: seq<Point>) returns (out: seq<Point>)
    requires Euclid(dist)
    ensures out == Resampled(dist, points)
  {
    if |points| < 2 {
      return seq(N, _ => if points == [] then Point(0.0, 0.0) else points[0]);
    }
    var total := Length(dist, points);
    if total <= MIN_LENGTH {
      return seq(N, _ => points[0]);
    }
    var interval := total / 31.0;
    MarkIsMultiple(31, interval);
    out := Walk(dist, points, interval);
  }

  /** The walk itself. */
  method Walk(dist: Metric, points: seq<Point>, interval: real) returns (out: seq<Point>)
    requires Euclid(dist) && points != [] && interval > 0.0 && Length(dist, points) == Mark(31, interval)
    ensures |out| == N && Spaced(dist, points, interval, out)
  {
    var pts := points;
    out := [pts[0]];
    var d := 0.0;
    var i := 1;
    ghost var at := 0.0;
    StartPoint(dist, points);
    while i < |pts|
      invariant 1 <= i <= |pts| && 1 <= |out| <= N
      invariant Continues(dist, points, pts[i - 1..], at)
      invariant 0.0 <= d < interval && at == Mark(|out| - 1, interval) + d
      invariant Spaced(dist, points, interval, out)
      decreases N - |out|, |pts| - i
    {
      var prev, cur := pts[i - 1], pts[i];
      var dd := dist(prev, cur);
      ghost var rest := pts[i - 1..];
      if d + dd >= interval {
        var t := (interval - d) / dd;
        var q := Lerp(prev, cur, t);
        NextPoint(dist, points, rest, at, d, interval, |out|, t);
        at := Mark(|out|, interval);
        out := out + [q];
        pts := pts[..i] + [q] + pts[i..];
        d := 0.0;
        assert pts[i..] == [q] + rest[1..];
      } else {
        PassVertex(dist, points, rest, at);
        assert rest[1..] == pts[i..];
        at := at + dd;
        d := d + dd;
      }
      i := i + 1;
    }
    CountAtEnd(|out| - 1, interval, d);
    // The program pads up to N points and truncates to N at this point: neither acts.
    assert |out| == N;
  }
}
