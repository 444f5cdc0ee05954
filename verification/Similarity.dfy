/**
 Normalisation of resampled paths, and its invariance: translating a path and
 scaling it uniformly commutes with resampling and disappears in normalisation.
 */
module Similarity {
  import opened Polyline

  // ---------------------------------------------------------------- normalisation

  function Xs(ps: seq<Point>): seq<real> { seq(|ps|, i requires 0 <= i < |ps| => ps[i].x) }
  function Ys(ps: seq<Point>): seq<real> { seq(|ps|, i requires 0 <= i < |ps| => ps[i].y) }

  function Sum(v: seq<real>): real {
    if v == [] then 0.0 else Sum(v[..|v| - 1]) + v[|v| - 1]
  }

  function Mean(v: seq<real>): real
    requires v != []
  {
    Sum(v) / |v| as real
  }

  function MaxReal(a: real, b: real): real { if a >= b then a else b }
  function MinReal(a: real, b: real): real { if a <= b then a else b }

  function Least(v: seq<real>): real
    requires v != []
  {
    if |v| == 1 then v[0] else MinReal(Least(v[..|v| - 1]), v[|v| - 1])
  }

  function Greatest(v: seq<real>): real
    requires v != []
  {
    if |v| == 1 then v[0] else MaxReal(Greatest(v[..|v| - 1]), v[|v| - 1])
  }

  lemma {:induction false} Extremes(v: seq<real>)
    requires v != []
    ensures Least(v) in v && Greatest(v) in v
    ensures forall x | x in v :: Least(v) <= x <= Greatest(v)
  {
    if |v| > 1 {
      Extremes(v[..|v| - 1]);
      assert v == v[..|v| - 1] + [v[|v| - 1]];
    }
  }

  function Range(v: seq<real>): real
    requires v != []
  {
    Greatest(v) - Least(v)
  }

  /** The longer side of the bounding box. */
  function Span(ps: seq<Point>): real
    requires ps != []
  {
    MaxReal(Range(Xs(ps)), Range(Ys(ps)))
  }

  function Centred(ps: seq<Point>, cx: real, cy: real, scale: real): seq<Point>
    requires scale != 0.0
  {
    seq(|ps|, i requires 0 <= i < |ps| => Point((ps[i].x - cx) / scale, (ps[i].y - cy) / scale))
  }

  /** Centroid to the origin, longer side of the bounding box to 1. */
  function Normalized(ps: seq<Point>): seq<Point>
    requires ps != []
  {
    Centred(ps, Mean(Xs(ps)), Mean(Ys(ps)), MaxReal(Span(ps), MIN_SPAN))
  }

  /** `normalize`: the box is taken over the centred coordinates. */
  method Normalize(pts: seq<Point>) returns (out: seq<Point>)
    requires pts != []
    ensures out == Normalized(pts)
  {
    hide Sum, Mean, Centred;
    var cx, cy := Mean(Xs(pts)), Mean(Ys(pts));
    var minx, maxx, miny, maxy := pts[0].x - cx, pts[0].x - cx, pts[0].y - cy, pts[0].y - cy;
    ghost var xs, ys := Xs(pts), Ys(pts);
    for i := 1 to |pts|
      invariant minx == Least(xs[..i]) - cx && maxx == Greatest(xs[..i]) - cx
      invariant miny == Least(ys[..i]) - cy && maxy == Greatest(ys[..i]) - cy
    {
      assert xs[..i + 1][..i] == xs[..i] && ys[..i + 1][..i] == ys[..i];
      var x, y := pts[i].x, pts[i].y;
      minx, maxx := MinReal(minx, x - cx), MaxReal(maxx, x - cx);
      miny, maxy := MinReal(miny, y - cy), MaxReal(maxy, y - cy);
    }
    assert xs[..|pts|] == xs && ys[..|pts|] == ys;
    var scale := MaxReal(MaxReal(maxx - minx, maxy - miny), MIN_SPAN);
    assert scale == MaxReal(Span(pts), MIN_SPAN);
    out := Centred(pts, cx, cy, scale);
  }

  // ---------------------------------------------------------------- similarity maps

  /** Uniform scaling by `k` followed by a translation. */
  datatype Map = Map(k: real, dx: real, dy: real) {
    function At(p: Point): Point {
      Point(k * p.x + dx, k * p.y + dy)
    }
    function All(ps: seq<Point>): seq<Point> {
      seq(|ps|, i requires 0 <= i < |ps| => At(ps[i]))
    }
  }

  lemma Factor(k: real, a: real, b: real, d: real)
    ensures (k * a + d) - (k * b + d) == k * (a - b)
  {
  }

  lemma DistMapped(dist: Metric, m: Map, a: Point, b: Point)
    requires Euclid(dist) && m.k > 0.0
    ensures dist(m.At(a), m.At(b)) == m.k * dist(a, b)
  {
    Factor(m.k, a.x, b.x, m.dx);
    Factor(m.k, a.y, b.y, m.dy);
    DistScaled(dist, a, b, m.At(a), m.At(b), m.k);
  }

  lemma Distribute(k: real, sum: real, a: real, b: real)
    requires sum == a + b
    ensures k * sum == k * a + k * b
  {
  }

  lemma Cancel(k: real, a: real, b: real)
    requires k > 0.0 && b > 0.0
    ensures k * b > 0.0 && (k * a) / (k * b) == a / b
  {
    assert (a / b) * (k * b) == k * a;
  }

  lemma OrderKept(k: real, a: real, b: real)
    requires k > 0.0
    ensures a < b <==> k * a < k * b
    ensures a <= b <==> k * a <= k * b
  {
    if a < b {
      assert k * (b - a) > 0.0;
    } else {
      MulNonNeg(k, a - b);
    }
  }

  lemma LerpMapped(m: Map, p: Point, q: Point, t: real)
    ensures Lerp(m.At(p), m.At(q), t) == m.At(Lerp(p, q, t))
  {
    LerpCoordMapped(m.k, m.dx, p.x, q.x, t, m.At(p).x, m.At(q).x, Lerp(p, q, t).x);
    LerpCoordMapped(m.k, m.dy, p.y, q.y, t, m.At(p).y, m.At(q).y, Lerp(p, q, t).y);
  }

  lemma LerpCoordMapped(k: real, d: real, p: real, q: real, t: real, p': real, q': real, r: real)
    requires p' == k * p + d && q' == k * q + d && r == p + t * (q - p)
    ensures p' + t * (q' - p') == k * r + d
  {
    assert t * (q' - p') == k * (t * (q - p)) by {
      Factor(k, q, p, d);
    }
    Distribute(k, r, p, t * (q - p));
  }

  /** In the first segment. */
  lemma FirstSegmentMapped(dist: Metric, m: Map, ps: seq<Point>, qs: seq<Point>, s: real, s': real)
    requires m.k > 0.0 && |ps| > 1 && |qs| > 1 && 0.0 <= s < dist(ps[0], ps[1]) && s' == m.k * s
    requires qs[0] == m.At(ps[0]) && qs[1] == m.At(ps[1]) && dist(qs[0], qs[1]) == m.k * dist(ps[0], ps[1])
    ensures 0.0 <= s' && PointAt(dist, qs, s') == m.At(PointAt(dist, ps, s))
  {
    var dd, dd' := dist(ps[0], ps[1]), dist(qs[0], qs[1]);
    MulNonNeg(m.k, s);
    OrderKept(m.k, s, dd);
    Cancel(m.k, s, dd);
    var t := s / dd;
    assert s' / dd' == t;
    LerpMapped(m, ps[0], ps[1], t);
  }

  /** `qs` is `ps` mapped, segment lengths included. */
  ghost predicate Mapped(dist: Metric, m: Map, ps: seq<Point>, qs: seq<Point>) {
    && |qs| == |ps|
    && (forall i | 0 <= i < |ps| :: qs[i] == m.At(ps[i]))
    && (forall i | 0 <= i < |ps| - 1 ::
          dist(ps[i], ps[i + 1]) >= 0.0 && dist(qs[i], qs[i + 1]) == m.k * dist(ps[i], ps[i + 1]))
  }

  lemma MappedTail(dist: Metric, m: Map, ps: seq<Point>, qs: seq<Point>)
    requires |ps| > 1 && Mapped(dist, m, ps, qs)
    ensures Mapped(dist, m, ps[1..], qs[1..])
  {
    hide Map.At;
    forall i | 0 <= i < |ps[1..]| - 1
      ensures dist(ps[1..][i], ps[1..][i + 1]) >= 0.0
      ensures dist(qs[1..][i], qs[1..][i + 1]) == m.k * dist(ps[1..][i], ps[1..][i + 1])
    {
      assert ps[1..][i] == ps[i + 1] && ps[1..][i + 1] == ps[i + 1 + 1];
      assert qs[1..][i] == qs[i + 1] && qs[1..][i + 1] == qs[i + 1 + 1];
    }
  }

  lemma {:induction false} LengthMapped(dist: Metric, m: Map, ps: seq<Point>, qs: seq<Point>)
    requires Mapped(dist, m, ps, qs) && m.k > 0.0
    ensures Length(dist, qs) == m.k * Length(dist, ps)
  {
    hide Map.At;
    if |ps| >= 2 {
      MappedTail(dist, m, ps, qs);
      LengthMapped(dist, m, ps[1..], qs[1..]);
      assert ps[0 + 1] == ps[1] && qs[0 + 1] == qs[1];
      Distribute(m.k, Length(dist, ps), dist(ps[0], ps[1]), Length(dist, ps[1..]));
    } else {
      TimesZero(m.k, Length(dist, ps));
    }
  }

  lemma {:induction false} PointAtMapped(dist: Metric, m: Map, ps: seq<Point>, qs: seq<Point>, s: real, s': real)
    requires Mapped(dist, m, ps, qs) && m.k > 0.0 && ps != [] && s >= 0.0 && s' == m.k * s
    ensures s' >= 0.0 && PointAt(dist, qs, s') == m.At(PointAt(dist, ps, s))
  {
    MulNonNeg(m.k, s);
    if |ps| > 1 {
      var dd, dd' := dist(ps[0], ps[1]), dist(qs[0], qs[1]);
      assert dd' == m.k * dd by {
        assert ps[0 + 1] == ps[1] && qs[0 + 1] == qs[1];
      }
      OrderKept(m.k, s, dd);
      if s < dd {
        FirstSegmentMapped(dist, m, ps, qs, s, s');
      } else {
        Distribute(m.k, s, dd, s - dd);
        MappedTail(dist, m, ps, qs);
        PointAtMapped(dist, m, ps[1..], qs[1..], s - dd, s' - dd');
      }
    }
  }

  lemma AllMapped(dist: Metric, m: Map, ps: seq<Point>)
    requires Euclid(dist) && m.k > 0.0
    ensures Mapped(dist, m, ps, m.All(ps))
  {
    forall i | 0 <= i < |ps| - 1
      ensures dist(m.All(ps)[i], m.All(ps)[i + 1]) == m.k * dist(ps[i], ps[i + 1])
    {
      DistMapped(dist, m, ps[i], ps[i + 1]);
    }
  }

  lemma TimesZero(k: real, z: real)
    requires z == 0.0
    ensures k * z == 0.0
  {
  }

  lemma {:induction false} MarkMapped(n: nat, k: real, interval: real, interval': real)
    requires interval' == k * interval
    ensures Mark(n, interval') == k * Mark(n, interval)
  {
    if n > 0 {
      MarkMapped(n - 1, k, interval, interval');
      Distribute(k, Mark(n, interval), Mark(n - 1, interval), interval);
    } else {
      TimesZero(k, Mark(0, interval));
    }
  }

  /** The path keeps its side of the length cut-off when mapped. */
  predicate LengthSafe(dist: Metric, m: Map, ps: seq<Point>) {
    var len := Length(dist, ps);
    len == 0.0 || (len > MIN_LENGTH && m.k * len > MIN_LENGTH)
  }

  /** Resampling commutes with the map. */
  lemma ResampledMapped(dist: Metric, m: Map, ps: seq<Point>)
    requires Euclid(dist) && m.k > 0.0 && ps != [] && LengthSafe(dist, m, ps)
    ensures Resampled(dist, m.All(ps)) == m.All(Resampled(dist, ps))
  {
    hide Map.At, Length;
    AllMapped(dist, m, ps);
    hide Euclid;
    LengthMapped(dist, m, ps, m.All(ps));
    if |ps| >= 2 && Length(dist, ps) > MIN_LENGTH {
      LongMapped(dist, m, ps, m.All(ps), Length(dist, ps), Length(dist, m.All(ps)));
    } else {
      ShortMapped(dist, m, ps, m.All(ps), Length(dist, ps), Length(dist, m.All(ps)));
    }
  }

  lemma ShortMapped(dist: Metric, m: Map, ps: seq<Point>, qs: seq<Point>, len: real, len': real)
    requires ps != [] && qs == m.All(ps) && len == Length(dist, ps) && len' == Length(dist, qs)
    requires |ps| < 2 || (len <= MIN_LENGTH && len' <= MIN_LENGTH)
    ensures Resampled(dist, qs) == m.All(Resampled(dist, ps))
  {
    hide Map.At, Length;
  }

  lemma LongMapped(dist: Metric, m: Map, ps: seq<Point>, qs: seq<Point>, len: real, len': real)
    requires Mapped(dist, m, ps, qs) && m.k > 0.0 && |ps| >= 2 && qs == m.All(ps)
    requires len == Length(dist, ps) && len' == Length(dist, qs) && len > MIN_LENGTH && len' > MIN_LENGTH && len' == m.k * len
    ensures Resampled(dist, qs) == m.All(Resampled(dist, ps))
  {
    hide Map.At, Mapped, Length, PointAt;
    PerInterval(m.k, len, len');
    SamplesOf(dist, ps, Resampled(dist, ps));
    SamplesOf(dist, qs, Resampled(dist, qs));
    SamplesMapped(dist, m, ps, qs, len / 31.0, len' / 31.0, Resampled(dist, ps), Resampled(dist, qs));
  }

  lemma SamplesMapped(dist: Metric, m: Map, ps: seq<Point>, qs: seq<Point>, interval: real, interval': real,
      r: seq<Point>, r': seq<Point>)
    requires Mapped(dist, m, ps, qs) && m.k > 0.0 && ps != []
    requires interval >= 0.0 && interval' >= 0.0 && interval' == m.k * interval
    requires |r| == |r'| == N
    requires forall i: nat | i < N :: r[i] == Sample(dist, ps, interval, i) && r'[i] == Sample(dist, qs, interval', i)
    ensures r' == m.All(r)
  {
    forall i: nat | i < N ensures r'[i] == m.At(r[i]) {
      SampleMapped(dist, m, ps, qs, interval, interval', i);
    }
  }

  lemma PerInterval(k: real, a: real, b: real)
    requires b == k * a
    ensures b / 31.0 == k * (a / 31.0)
  {
  }

  lemma SampleMapped(dist: Metric, m: Map, ps: seq<Point>, qs: seq<Point>, interval: real, interval': real, i: nat)
    requires Mapped(dist, m, ps, qs) && m.k > 0.0 && ps != []
    requires interval >= 0.0 && interval' >= 0.0 && interval' == m.k * interval
    ensures Sample(dist, qs, interval', i) == m.At(Sample(dist, ps, interval, i))
  {
    MarkNonNeg(i, interval);
    MarkMapped(i, m.k, interval, interval');
    PointAtMapped(dist, m, ps, qs, Mark(i, interval), Mark(i, interval'));
  }

  // ---------------------------------------------------------------- normalisation under a map

  /** Every coordinate mapped. */
  ghost predicate Affine(v: seq<real>, w: seq<real>, k: real, d: real) {
    |w| == |v| && forall i | 0 <= i < |v| :: w[i] == k * v[i] + d
  }

  lemma AffineInit(v: seq<real>, w: seq<real>, k: real, d: real)
    requires v != [] && Affine(v, w, k, d)
    ensures |w| == |v| && Affine(v[..|v| - 1], w[..|w| - 1], k, d) && w[|w| - 1] == k * v[|v| - 1] + d
  {
  }

  lemma {:induction false} SumMapped(v: seq<real>, w: seq<real>, k: real, d: real)
    requires Affine(v, w, k, d)
    ensures Sum(w) == k * Sum(v) + |v| as real * d
  {
    if v == [] {
      TimesZero(k, Sum(v));
      TimesZero(d, |v| as real);
    } else {
      var n := |v| - 1;
      AffineInit(v, w, k, d);
      SumMapped(v[..n], w[..n], k, d);
      Distribute(k, Sum(v), Sum(v[..n]), v[n]);
      Distribute(d, |v| as real, n as real, 1.0);
    }
  }

  lemma MeanMapped(v: seq<real>, w: seq<real>, k: real, d: real)
    requires v != [] && Affine(v, w, k, d)
    ensures Mean(w) == k * Mean(v) + d
  {
    SumMapped(v, w, k, d);
    SameMean(k, d, |v| as real, Sum(v), Sum(w), Mean(v), Mean(w));
  }

  lemma SameMean(k: real, d: real, n: real, s: real, s': real, c: real, c': real)
    requires n > 0.0 && s' == k * s + n * d && c == s / n && c' == s' / n
    ensures c' == k * c + d
  {
    DivTimes(s, n);
    DivTimes(s', n);
    assert (c' - (k * c + d)) * n == 0.0 by {
      assert k * (c * n) == k * s;
    }
    ProductZero(c' - (k * c + d), n);
  }

  lemma PairMapped(k: real, d: real, a: real, b: real, a': real, b': real)
    requires k > 0.0 && a' == k * a + d && b' == k * b + d
    ensures MinReal(a', b') == k * MinReal(a, b) + d && MaxReal(a', b') == k * MaxReal(a, b) + d
    ensures a' - b' == k * (a - b)
  {
    OrderKept(k, a, b);
  }

  lemma {:induction false} ExtremesMapped(v: seq<real>, w: seq<real>, k: real, d: real)
    requires v != [] && k > 0.0 && Affine(v, w, k, d)
    ensures |w| == |v| && Least(w) == k * Least(v) + d && Greatest(w) == k * Greatest(v) + d
  {
    hide Affine, MinReal, MaxReal;
    var n := |v| - 1;
    AffineInit(v, w, k, d);
    if n > 0 {
      ExtremesMapped(v[..n], w[..n], k, d);
      PairMapped(k, d, Least(v[..n]), v[n], Least(w[..n]), w[n]);
      PairMapped(k, d, Greatest(v[..n]), v[n], Greatest(w[..n]), w[n]);
    }
  }

  lemma RangeMapped(v: seq<real>, w: seq<real>, k: real, d: real)
    requires v != [] && k > 0.0 && Affine(v, w, k, d)
    ensures |w| == |v| && Range(w) == k * Range(v)
  {
    hide Affine, Least, Greatest;
    ExtremesMapped(v, w, k, d);
    PairMapped(k, d, Greatest(v), Least(v), Greatest(w), Least(w));
  }

  lemma CoordinatesMapped(m: Map, ps: seq<Point>)
    ensures Affine(Xs(ps), Xs(m.All(ps)), m.k, m.dx) && Affine(Ys(ps), Ys(m.All(ps)), m.k, m.dy)
  {
  }

  lemma SpanMapped(m: Map, ps: seq<Point>, qs: seq<Point>)
    requires ps != [] && m.k > 0.0 && qs == m.All(ps)
    ensures |qs| == |ps| && Span(qs) == m.k * Span(ps)
  {
    hide Affine, Range, MaxReal, MinReal, Map.At;
    CoordinatesMapped(m, ps);
    RangeMapped(Xs(ps), Xs(qs), m.k, m.dx);
    RangeMapped(Ys(ps), Ys(qs), m.k, m.dy);
    PairMapped(m.k, 0.0, Range(Xs(ps)), Range(Ys(ps)), Range(Xs(qs)), Range(Ys(qs)));
  }

  /** The path keeps its side of the size cut-off when mapped. */
  predicate SpanSafe(m: Map, ps: seq<Point>)
    requires ps != []
  {
    Span(ps) == 0.0 || (Span(ps) >= MIN_SPAN && m.k * Span(ps) >= MIN_SPAN)
  }

  /** Normalisation undoes the map. */
  lemma NormalizedMapped(m: Map, ps: seq<Point>)
    requires ps != [] && m.k > 0.0 && SpanSafe(m, ps)
    ensures Normalized(m.All(ps)) == Normalized(ps)
  {
    hide Affine, Centred, Mean, Span, Map.At;
    var qs := m.All(ps);
    SpanMapped(m, ps, qs);
    CoordinatesMapped(m, ps);
    MeanMapped(Xs(ps), Xs(qs), m.k, m.dx);
    MeanMapped(Ys(ps), Ys(qs), m.k, m.dy);
    if Span(ps) == 0.0 {
      TimesZero(m.k, Span(ps));
      ZeroSpan(ps);
      ZeroSpan(qs);
    } else {
      assert MaxReal(Span(ps), MIN_SPAN) == Span(ps) && MaxReal(Span(qs), MIN_SPAN) == Span(qs);
      CentredMapped(m, ps, qs, Mean(Xs(ps)), Mean(Ys(ps)), Span(ps), Mean(Xs(qs)), Mean(Ys(qs)), Span(qs));
    }
  }

  lemma CentredMapped(m: Map, ps: seq<Point>, qs: seq<Point>, cx: real, cy: real, scale: real, cx': real, cy': real, scale': real)
    requires m.k > 0.0 && scale > 0.0 && scale' > 0.0 && scale' == m.k * scale && qs == m.All(ps)
    requires cx' == m.k * cx + m.dx && cy' == m.k * cy + m.dy
    ensures Centred(qs, cx', cy', scale') == Centred(ps, cx, cy, scale)
  {
    hide Map.At;
    forall i | 0 <= i < |ps| ensures Centred(qs, cx', cy', scale')[i] == Centred(ps, cx, cy, scale)[i] {
      PointCentred(m, ps[i], qs[i], cx, cy, scale, cx', cy', scale');
    }
  }

  lemma PointCentred(m: Map, p: Point, q: Point, cx: real, cy: real, scale: real, cx': real, cy': real, scale': real)
    requires m.k > 0.0 && scale > 0.0 && scale' > 0.0 && scale' == m.k * scale && q == m.At(p)
    requires cx' == m.k * cx + m.dx && cy' == m.k * cy + m.dy
    ensures (q.x - cx') / scale' == (p.x - cx) / scale && (q.y - cy') / scale' == (p.y - cy) / scale
  {
    CoordCentred(m.k, m.dx, p.x, cx, scale, q.x, cx', scale');
    CoordCentred(m.k, m.dy, p.y, cy, scale, q.y, cy', scale');
  }

  lemma CoordCentred(k: real, d: real, x: real, c: real, scale: real, x': real, c': real, scale': real)
    requires k > 0.0 && scale > 0.0 && scale' == k * scale && x' == k * x + d && c' == k * c + d
    ensures scale' != 0.0 && (x' - c') / scale' == (x - c) / scale
  {
    PairMapped(k, d, x, c, x', c');
    Cancel(k, x - c, scale);
  }

  /** A path of no extent is a repeated point, at its own centroid. */
  lemma ZeroSpan(ps: seq<Point>)
    requires ps != [] && Span(ps) == 0.0
    ensures Normalized(ps) == seq(|ps|, _ => Point(0.0, 0.0))
  {
    Extremes(Xs(ps));
    Extremes(Ys(ps));
    forall i | 0 <= i < |ps| ensures ps[i].x == ps[0].x && ps[i].y == ps[0].y {
      assert Xs(ps)[i] in Xs(ps) && Xs(ps)[0] in Xs(ps) && Ys(ps)[i] in Ys(ps) && Ys(ps)[0] in Ys(ps);
    }
    MeanOfConstant(Xs(ps), ps[0].x);
    MeanOfConstant(Ys(ps), ps[0].y);
  }

  lemma {:induction false} SumOfConstant(v: seq<real>, c: real)
    requires forall i | 0 <= i < |v| :: v[i] == c
    ensures Sum(v) == |v| as real * c
  {
    if v != [] {
      SumOfConstant(v[..|v| - 1], c);
      Distribute(c, |v| as real, (|v| - 1) as real, 1.0);
    }
  }

  lemma MeanOfConstant(v: seq<real>, c: real)
    requires v != [] && forall i | 0 <= i < |v| :: v[i] == c
    ensures Mean(v) == c
  {
    SumOfConstant(v, c);
    TimesDiv(|v| as real, c);
  }

  lemma TimesDiv(n: real, c: real)
    requires n > 0.0
    ensures (n * c) / n == c
  {
  }

  /** What normalisation achieves: centroid at the origin, longer side exactly 1. */
  lemma NormalizedIsCanonical(ps: seq<Point>)
    requires ps != [] && Span(ps) >= MIN_SPAN
    ensures var r := Normalized(ps); |r| == |ps| && Mean(Xs(r)) == 0.0 && Mean(Ys(r)) == 0.0 && Span(r) == 1.0
  {
    hide Mean, Span, Map.At, Affine, Centred;
    var m := UnitMap(ps, Mean(Xs(ps)), Mean(Ys(ps)), Span(ps));
    CoordinatesMapped(m, ps);
    MeanToZero(Xs(ps), Xs(m.All(ps)), m.k, m.dx);
    MeanToZero(Ys(ps), Ys(m.All(ps)), m.k, m.dy);
    SpanMapped(m, ps, m.All(ps));
  }

  /** On every path, however small: normalising moves the centroid to the origin and scales
      both axes by one positive factor, the inverse of the longer side or of the cut-off. */
  lemma NormalizedIsSimilar(ps: seq<Point>) returns (m: Map)
    requires ps != []
    ensures m.k > 0.0 && Normalized(ps) == m.All(ps) && m.k * MaxReal(Span(ps), 0.000001) == 1.0
    ensures Mean(Xs(Normalized(ps))) == 0.0 && Mean(Ys(Normalized(ps))) == 0.0
  {
    hide Mean, Span, Map.At, Affine, Centred;
    m := UnitMap(ps, Mean(Xs(ps)), Mean(Ys(ps)), MaxReal(Span(ps), MIN_SPAN));
    CoordinatesMapped(m, ps);
    MeanToZero(Xs(ps), Xs(m.All(ps)), m.k, m.dx);
    MeanToZero(Ys(ps), Ys(m.All(ps)), m.k, m.dy);
  }

  lemma {:induction false} SumConcat(v: seq<real>, w: seq<real>)
    ensures Sum(v + w) == Sum(v) + Sum(w)
  {
    if w == [] {
      assert v + w == v;
    } else {
      assert (v + w)[..|v + w| - 1] == v + w[..|w| - 1];
      SumConcat(v, w[..|w| - 1]);
    }
  }

  lemma MeanTimes(v: seq<real>)
    requires v != []
    ensures Mean(v) * |v| as real == Sum(v)
  {
    hide Sum;
    DivTimes(Sum(v), |v| as real);
  }

  /** The mean of one number is that number, and the mean of two parts weighs each by its
      length. */
  lemma MeanIsMean(x: real, v: seq<real>, w: seq<real>)
    requires v != [] && w != []
    ensures Mean([x]) == x
    ensures Mean(v + w) * (|v| + |w|) as real == Mean(v) * |v| as real + Mean(w) * |w| as real
  {
    assert Sum([x]) == x by {
      assert [x][..0] == [];
    }
    MeanTimes([x]);
    SumConcat(v, w);
    MeanTimes(v + w);
    MeanTimes(v);
    MeanTimes(w);
    hide Sum, Mean;
    assert Mean([x]) * 1.0 == x;
  }

  lemma RangeIsExtent(v: seq<real>) returns (i: int, j: int)
    requires v != []
    ensures 0 <= i < |v| && 0 <= j < |v| && v[i] - v[j] == Range(v)
    ensures forall a, b | 0 <= a < |v| && 0 <= b < |v| :: v[a] - v[b] <= Range(v)
  {
    Extremes(v);
    hide Least, Greatest;
    i :| 0 <= i < |v| && v[i] == Greatest(v);
    j :| 0 <= j < |v| && v[j] == Least(v);
    forall a | 0 <= a < |v| ensures Least(v) <= v[a] <= Greatest(v) {
      assert v[a] in v;
    }
  }

  /** The longer side of the bounding box: no two points are further apart along an axis,
      and two of them are that far apart. */
  lemma SpanIsExtent(ps: seq<Point>) returns (i: int, j: int)
    requires ps != []
    ensures forall a, b | 0 <= a < |ps| && 0 <= b < |ps| :: ps[a].x - ps[b].x <= Span(ps) && ps[a].y - ps[b].y <= Span(ps)
    ensures 0 <= i < |ps| && 0 <= j < |ps| && (ps[i].x - ps[j].x == Span(ps) || ps[i].y - ps[j].y == Span(ps))
  {
    var i1, j1 := RangeIsExtent(Xs(ps));
    var i2, j2 := RangeIsExtent(Ys(ps));
    hide Range;
    i, j := if Range(Xs(ps)) >= Range(Ys(ps)) then i1 else i2, if Range(Xs(ps)) >= Range(Ys(ps)) then j1 else j2;
    forall a, b | 0 <= a < |ps| && 0 <= b < |ps| ensures ps[a].x - ps[b].x <= Span(ps) && ps[a].y - ps[b].y <= Span(ps) {
      assert Xs(ps)[a] - Xs(ps)[b] <= Range(Xs(ps)) && Ys(ps)[a] - Ys(ps)[b] <= Range(Ys(ps));
    }
  }

  lemma MeanToZero(v: seq<real>, w: seq<real>, k: real, d: real)
    requires v != [] && Affine(v, w, k, d) && k * Mean(v) + d == 0.0
    ensures w != [] && Mean(w) == 0.0
  {
    hide Mean;
    MeanMapped(v, w, k, d);
  }

  /** Centring and scaling is a similarity map. */
  lemma UnitMap(ps: seq<Point>, cx: real, cy: real, scale: real) returns (m: Map)
    requires scale > 0.0
    ensures m.k > 0.0 && m.All(ps) == Centred(ps, cx, cy, scale)
    ensures m.k * scale == 1.0 && m.k * cx + m.dx == 0.0 && m.k * cy + m.dy == 0.0
  {
    hide Map.At, Centred;
    m := Map(1.0 / scale, -cx / scale, -cy / scale);
    CentredIsMap(m, ps, cx, cy, scale);
    Reciprocal(scale, cx);
    Reciprocal(scale, cy);
  }

  lemma CentredIsMap(m: Map, ps: seq<Point>, cx: real, cy: real, scale: real)
    requires scale > 0.0 && m == Map(1.0 / scale, -cx / scale, -cy / scale)
    ensures m.All(ps) == Centred(ps, cx, cy, scale)
  {
    hide Map.At;
    forall i | 0 <= i < |ps| ensures m.All(ps)[i] == Centred(ps, cx, cy, scale)[i] {
      PointShifted(m, ps[i], cx, cy, scale);
    }
  }

  lemma PointShifted(m: Map, p: Point, cx: real, cy: real, scale: real)
    requires scale > 0.0 && m == Map(1.0 / scale, -cx / scale, -cy / scale)
    ensures m.At(p) == Point((p.x - cx) / scale, (p.y - cy) / scale)
  {
  }

  lemma Reciprocal(scale: real, c: real)
    requires scale > 0.0
    ensures (1.0 / scale) * scale == 1.0 && (1.0 / scale) * c + -c / scale == 0.0
  {
  }
}
