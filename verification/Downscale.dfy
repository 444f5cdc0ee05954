/**
 Downscaling captured frames: fitting into a box and area averaging.
 */
module Downscale {
  import opened Prelude

  // ---------------------------------------------------------------- bins of one axis

  /** Bin of position `n` when `s` positions are mapped to `d`. */
  function Bin(n: nat, s: nat, d: nat): nat
    requires s > 0
  {
    n * d / s
  }

  function CeilDiv(a: nat, b: nat): nat
    requires b > 0
  {
    (a + b - 1) / b
  }

  /** Where bin `k` begins. */
  function Lo(k: nat, s: nat, d: nat): nat
    requires d > 0
  {
    CeilDiv(k * s, d)
  }

  lemma Quotient(a: int, b: int, q: int)
    requires b > 0
    ensures a / b == q <==> q * b <= a < q * b + b
  {
    var r := a % b;
    assert a == (a / b) * b + r;
    if q < a / b {
      MulOrder(q + 1, a / b, b);
    } else if q > a / b {
      MulOrder(a / b + 1, q, b);
    }
  }

  lemma MulOrder(a: int, b: int, c: int)
    requires a <= b && c >= 0
    ensures a * c <= b * c
  {
  }

  lemma Next(a: int, c: int)
    ensures (a + 1) * c == a * c + c
  {
  }

  lemma CeilAtMost(a: nat, b: nat, n: int)
    requires b > 0
    ensures CeilDiv(a, b) <= n <==> a <= n * b
  {
    var q := CeilDiv(a, b);
    Quotient(a + b - 1, b, q);
    if q <= n {
      MulOrder(q, n, b);
    } else {
      MulOrder(n + 1, q, b);
      Next(n, b);
    }
  }

  /** Bins are intervals, one after the other. */
  lemma BinIsInterval(n: nat, s: nat, d: nat, k: nat)
    requires n < s && d > 0
    ensures Bin(n, s, d) == k <==> Lo(k, s, d) <= n < Lo(k + 1, s, d)
  {
    Quotient(n * d, s, k);
    CeilAtMost(k * s, d, n);
    CeilAtMost((k + 1) * s, d, n);
    Next(k, s);
  }

  /** They cover the axis, and none is empty when scaling down. */
  lemma BinsPartition(s: nat, d: nat, k: nat)
    requires 0 < d <= s && k < d
    ensures Lo(0, s, d) == 0 && Lo(d, s, d) == s
    ensures Lo(k, s, d) < Lo(k + 1, s, d) <= s
    ensures Lo(k + 1, s, d) - Lo(k, s, d) <= CeilDiv(s, d)
  {
    var lo, c := Lo(k, s, d), CeilDiv(s, d);
    CeilAtMost(0, d, 0);
    Quotient(d * s + d - 1, d, s);
    CeilAtMost((k + 1) * s, d, lo);
    Quotient(k * s + d - 1, d, lo);
    Next(k, s);
    CeilAtMost((k + 1) * s, d, s);
    MulOrder(k + 1, d, s);
    CeilAtMost(s, d, c);
    CeilAtMost((k + 1) * s, d, lo + c);
    CeilAtMost(k * s, d, lo);
    Distribute(lo, c, d);
  }

  lemma Distribute(a: int, b: int, c: int)
    ensures (a + b) * c == a * c + b * c
  {
  }

  /** A bin number in row-major order names one row and one column. */
  lemma CellParts(row: nat, col: nat, dy: nat, dx: nat, dw: nat)
    requires col < dw && dx < dw
    ensures row * dw + col == dy * dw + dx <==> row == dy && col == dx
  {
    if row < dy {
      MulOrder(row + 1, dy, dw);
      Next(row, dw);
    } else if dy < row {
      MulOrder(dy + 1, row, dw);
      Next(dy, dw);
    }
  }

  lemma BinBelow(n: nat, s: nat, d: nat)
    requires n < s && d > 0
    ensures Bin(n, s, d) < d
  {
    var q := n * d / s;
    Quotient(n * d, s, q);
    if q >= d {
      MulOrder(d, q, s);
      MulOrder(n + 1, s, d);
      Next(n, d);
    }
  }

  // ---------------------------------------------------------------- images

  const U32: nat := 0x1_0000_0000
  const CHANNELS: nat := 4

  /** A BGRA image with padded rows, and the size to scale it to. */
  datatype Image = Image(src: Bytes, w: nat, h: nat, stride: nat, dw: nat, dh: nat) {
    predicate Valid() {
      && 0 < dw <= w < 65536 && 0 < dh <= h < 65536
      && (h - 1) * stride + w * 4 <= |src|
    }
  }

  lemma PixelInSource(m: Image, x: nat, y: nat)
    requires m.Valid() && x < m.w && y < m.h
    ensures y * m.stride + x * 4 + 4 <= y * m.stride + m.w * 4 <= |m.src|
  {
    MulOrder(y, m.h - 1, m.stride);
  }

  /** Channel `ch` of a pixel; "channel" 4 counts pixels. */
  function Weight(m: Image, x: nat, y: nat, ch: nat): nat
    requires m.Valid() && x < m.w && y < m.h && ch <= CHANNELS
  {
    if ch == CHANNELS then 1
    else
      PixelInSource(m, x, y);
      m.src[y * m.stride + x * 4 + ch] as nat
  }

  /** Output pixel that a source pixel is added to. */
  function Cell(m: Image, x: nat, y: nat): nat
    requires m.Valid()
  {
    Bin(y, m.h, m.dh) * m.dw + Bin(x, m.w, m.dw)
  }

  lemma CellInRange(m: Image, x: nat, y: nat)
    requires m.Valid() && x < m.w && y < m.h
    ensures Cell(m, x, y) < m.dw * m.dh
  {
    BinBelow(x, m.w, m.dw);
    BinBelow(y, m.h, m.dh);
    MulOrder(Bin(y, m.h, m.dh) + 1, m.dh, m.dw);
    Next(Bin(y, m.h, m.dh), m.dw);
  }

  /** What the first `n` pixels of row `y` add to output pixel `i`. */
  function RowPart(m: Image, i: nat, ch: nat, y: nat, n: nat): nat
    requires m.Valid() && ch <= CHANNELS && y < m.h && n <= m.w
  {
    if n == 0 then 0
    else RowPart(m, i, ch, y, n - 1) + if Cell(m, n - 1, y) == i then Weight(m, n - 1, y, ch) else 0
  }

  /** What the first `n` rows add to output pixel `i`. */
  function Part(m: Image, i: nat, ch: nat, n: nat): nat
    requires m.Valid() && ch <= CHANNELS && n <= m.h
  {
    if n == 0 then 0 else Part(m, i, ch, n - 1) + RowPart(m, i, ch, n - 1, m.w)
  }

  /** The quotient cut to 8 bits; an empty bin counts as one pixel. */
  function Average(sum: nat, count: nat): Byte {
    ((sum / (if count > 1 then count else 1)) % 256) as Byte
  }

  /** One output byte: a 32-bit sum over the count. */
  function OutByte(m: Image, i: nat, ch: nat): Byte
    requires m.Valid() && ch < CHANNELS
  {
    Average(Part(m, i, ch, m.h) % U32, Part(m, i, CHANNELS, m.h))
  }

  lemma {:induction false} CountRow(m: Image, i: nat, y: nat, n: nat)
    requires m.Valid() && y < m.h && n <= m.w
    ensures RowPart(m, i, CHANNELS, y, n) <= n
  {
    if n > 0 {
      CountRow(m, i, y, n - 1);
    }
  }

  /** Counts stay below 2^32 for 16-bit dimensions. */
  lemma {:induction false} CountFits(m: Image, i: nat, n: nat)
    requires m.Valid() && n <= m.h
    ensures Part(m, i, CHANNELS, n) <= n * 65535
  {
    if n > 0 {
      CountFits(m, i, n - 1);
      CountRow(m, i, n - 1, m.w);
    }
  }

  ghost predicate RowsAdded(m: Image, acc: seq<nat>, cnt: seq<nat>, y: nat, n: nat)
    requires m.Valid() && y < m.h && n <= m.w
  {
    && |cnt| == m.dw * m.dh && |acc| == 4 * |cnt|
    && (forall a | 0 <= a < |acc| :: acc[a] == (Part(m, a / 4, a % 4, y) + RowPart(m, a / 4, a % 4, y, n)) % U32)
    && forall i | 0 <= i < |cnt| :: cnt[i] == Part(m, i, CHANNELS, y) + RowPart(m, i, CHANNELS, y, n)
  }

  lemma ModAdd(a: int, b: int)
    ensures (a % U32 + b) % U32 == (a + b) % U32
  {
  }

  /** Adds one pixel to its output pixel's sums and count. */
  method AddPixel(m: Image, acc: array<nat>, cnt: array<nat>, x: nat, y: nat)
    requires m.Valid() && x < m.w && y < m.h && acc != cnt
    requires RowsAdded(m, acc[..], cnt[..], y, x)
    modifies acc, cnt
    ensures RowsAdded(m, acc[..], cnt[..], y, x + 1)
  {
    hide Part, Bin, Image.Valid;
    var dy, dx := Bin(y, m.h, m.dh), Bin(x, m.w, m.dw);
    var di := dy * m.dw + dx;
    assert di == Cell(m, x, y);
    CellInRange(m, x, y);
    PixelInSource(m, x, y);
    var p, a := y * m.stride + x * 4, di * 4;
    ghost var acc0, cnt0 := acc[..], cnt[..];
    acc[a] := (acc[a] + m.src[p] as nat) % U32;
    acc[a + 1] := (acc[a + 1] + m.src[p + 1] as nat) % U32;
    acc[a + 2] := (acc[a + 2] + m.src[p + 2] as nat) % U32;
    acc[a + 3] := (acc[a + 3] + m.src[p + 3] as nat) % U32;
    cnt[di] := cnt[di] + 1;
    hide RowsAdded, RowPart, Cell;
    forall b | 0 <= b < acc.Length
      ensures acc[b] == if b / 4 == di then (acc0[b] + Weight(m, x, y, b % 4)) % U32 else acc0[b]
    {
    }
    PixelAdded(m, acc0, cnt0, acc[..], cnt[..], x, y);
  }

  lemma PixelAdded(m: Image, acc0: seq<nat>, cnt0: seq<nat>, acc: seq<nat>, cnt: seq<nat>, x: nat, y: nat)
    requires m.Valid() && x < m.w && y < m.h && RowsAdded(m, acc0, cnt0, y, x)
    requires |acc| == |acc0| && |cnt| == |cnt0|
    requires forall b | 0 <= b < |acc| ::
      acc[b] == if b / 4 == Cell(m, x, y) then (acc0[b] + Weight(m, x, y, b % 4)) % U32 else acc0[b]
    requires forall i | 0 <= i < |cnt| :: cnt[i] == cnt0[i] + if i == Cell(m, x, y) then 1 else 0
    ensures RowsAdded(m, acc, cnt, y, x + 1)
  {
    hide Part, Cell, Image.Valid;
    forall b | 0 <= b < |acc|
      ensures acc[b] == (Part(m, b / 4, b % 4, y) + RowPart(m, b / 4, b % 4, y, x + 1)) % U32
    {
      ModAdd(Part(m, b / 4, b % 4, y) + RowPart(m, b / 4, b % 4, y, x), Weight(m, x, y, b % 4));
    }
  }

  /** A finished row becomes part of the rows done. */
  lemma RowDone(m: Image, acc: seq<nat>, cnt: seq<nat>, y: nat)
    requires m.Valid() && y + 1 < m.h && RowsAdded(m, acc, cnt, y, m.w)
    ensures RowsAdded(m, acc, cnt, y + 1, 0)
  {
  }

  /** The nested loops over the source. */
  method SumAndCount(m: Image) returns (sums: seq<nat>, counts: seq<nat>)
    requires m.Valid()
    ensures |counts| == m.dw * m.dh && |sums| == 4 * |counts|
    ensures forall a | 0 <= a < |sums| :: sums[a] == Part(m, a / 4, a % 4, m.h) % U32
    ensures forall i | 0 <= i < |counts| :: counts[i] == Part(m, i, CHANNELS, m.h)
  {
    hide Part, RowPart, Image.Valid;
    var cells := m.dw * m.dh;
    CellsPositive(m);
    var acc, cnt := new nat[cells * 4](_ => 0), new nat[cells](_ => 0);
    NothingAdded(m, acc[..], cnt[..]);
    hide RowsAdded;
    for sy := 0 to m.h
      invariant sy < m.h ==> RowsAdded(m, acc[..], cnt[..], sy, 0)
      invariant sy == m.h ==> RowsAdded(m, acc[..], cnt[..], m.h - 1, m.w)
    {
      for sx := 0 to m.w
        invariant RowsAdded(m, acc[..], cnt[..], sy, sx)
      {
        AddPixel(m, acc, cnt, sx, sy);
      }
      if sy + 1 < m.h {
        RowDone(m, acc[..], cnt[..], sy);
      }
    }
    AllAdded(m, acc[..], cnt[..]);
    sums, counts := acc[..], cnt[..];
  }

  /** `downscale_bgra`. */
  method DownscaleBgra(m: Image) returns (out: Bytes)
    requires m.Valid()
    ensures |out| == 4 * (m.dw * m.dh)
    ensures forall a | 0 <= a < |out| :: out[a] == OutByte(m, a / 4, a % 4)
  {
    hide OutByte, Part, Image.Valid;
    var acc, cnt := SumAndCount(m);
    var res := new Byte[4 * |cnt|](_ => 0);
    for i := 0 to |cnt|
      invariant forall b | 0 <= b < 4 * i :: res[b] == OutByte(m, b / 4, b % 4)
    {
      WritePixel(m, acc, cnt, i, res);
    }
    out := res[..];
  }

  method WritePixel(m: Image, acc: seq<nat>, cnt: seq<nat>, i: nat, res: array<Byte>)
    requires m.Valid() && i < |cnt| && |acc| == 4 * |cnt| && res.Length == 4 * |cnt|
    requires cnt[i] == Part(m, i, CHANNELS, m.h)
    requires forall a | 0 <= a < |acc| :: acc[a] == Part(m, a / 4, a % 4, m.h) % U32
    modifies res
    ensures forall b | 0 <= b < 4 * i :: res[b] == old(res[b])
    ensures forall b | 4 * i <= b < 4 * (i + 1) :: res[b] == OutByte(m, b / 4, b % 4)
  {
    hide Part, Image.Valid, Average;
    var c, a := cnt[i], i * 4;
    res[a] := Average(acc[a], c);
    res[a + 1] := Average(acc[a + 1], c);
    res[a + 2] := Average(acc[a + 2], c);
    res[a + 3] := Average(acc[a + 3], c);
  }

  lemma CellsPositive(m: Image)
    requires m.Valid()
    ensures m.dw * m.dh > 0 && m.h > 0 && m.w > 0
  {
    MulOrder(1, m.dw, m.dh);
  }

  lemma NothingAdded(m: Image, acc: seq<nat>, cnt: seq<nat>)
    requires m.Valid() && |cnt| == m.dw * m.dh && |acc| == 4 * |cnt|
    requires (forall a | 0 <= a < |acc| :: acc[a] == 0) && forall i | 0 <= i < |cnt| :: cnt[i] == 0
    ensures RowsAdded(m, acc, cnt, 0, 0)
  {
  }

  lemma AllAdded(m: Image, acc: seq<nat>, cnt: seq<nat>)
    requires m.Valid() && RowsAdded(m, acc, cnt, m.h - 1, m.w)
    ensures |cnt| == m.dw * m.dh && |acc| == 4 * |cnt|
    ensures forall a | 0 <= a < |acc| :: acc[a] == Part(m, a / 4, a % 4, m.h) % U32
    ensures forall i | 0 <= i < |cnt| :: cnt[i] == Part(m, i, CHANNELS, m.h)
  {
  }

  // ---------------------------------------------------------------- each output pixel is a mean

  /** Sum over `x0 <= x < x1` of one row, and over a rectangle. */
  function RectRow(m: Image, y: nat, x0: nat, x1: nat, ch: nat): nat
    requires m.Valid() && ch <= CHANNELS && y < m.h && x1 <= m.w
  {
    if x1 <= x0 then 0 else RectRow(m, y, x0, x1 - 1, ch) + Weight(m, x1 - 1, y, ch)
  }

  function Rect(m: Image, x0: nat, x1: nat, y0: nat, y1: nat, ch: nat): nat
    requires m.Valid() && ch <= CHANNELS && y1 <= m.h && x1 <= m.w
    decreases y1
  {
    if y1 <= y0 then 0 else Rect(m, x0, x1, y0, y1 - 1, ch) + RectRow(m, y1 - 1, x0, x1, ch)
  }

  function Clip(n: nat, lo: nat, hi: nat): nat {
    if n < lo then lo else if n > hi then hi else n
  }

  /** The rectangle of source pixels of an output pixel. */
  datatype Box = Box(x0: nat, x1: nat, y0: nat, y1: nat) {
    function Area(): int { (x1 - x0) * (y1 - y0) }
  }

  /** Boxes are non-empty and inside the image. */
  function BoxOf(m: Image, dx: nat, dy: nat): (b: Box)
    requires m.Valid() && dx < m.dw && dy < m.dh
    ensures b.x0 < b.x1 <= m.w && b.y0 < b.y1 <= m.h
  {
    BinsPartition(m.w, m.dw, dx);
    BinsPartition(m.h, m.dh, dy);
    Box(Lo(dx, m.w, m.dw), Lo(dx + 1, m.w, m.dw), Lo(dy, m.h, m.dh), Lo(dy + 1, m.h, m.dh))
  }

  /** Sum of one channel over a box. */
  function BoxSum(m: Image, dx: nat, dy: nat, ch: nat): nat
    requires m.Valid() && dx < m.dw && dy < m.dh && ch <= CHANNELS
  {
    var b := BoxOf(m, dx, dy);
    Rect(m, b.x0, b.x1, b.y0, b.y1, ch)
  }

  /** Each source pixel lies in the box of exactly the output pixel it is added to. */
  lemma BoxesPartition(m: Image, dx: nat, dy: nat, x: nat, y: nat)
    requires m.Valid() && dx < m.dw && dy < m.dh && x < m.w && y < m.h
    ensures var b := BoxOf(m, dx, dy);
      Cell(m, x, y) == dy * m.dw + dx <==> b.x0 <= x < b.x1 && b.y0 <= y < b.y1
  {
    BinIsInterval(x, m.w, m.dw, dx);
    BinIsInterval(y, m.h, m.dh, dy);
    BinBelow(x, m.w, m.dw);
    CellParts(Bin(y, m.h, m.dh), Bin(x, m.w, m.dw), dy, dx, m.dw);
  }

  lemma {:induction false} RowPartIs(m: Image, dx: nat, dy: nat, ch: nat, y: nat, n: nat)
    requires m.Valid() && dx < m.dw && dy < m.dh && ch <= CHANNELS && y < m.h && n <= m.w
    ensures var b := BoxOf(m, dx, dy);
      RowPart(m, dy * m.dw + dx, ch, y, n) ==
           if b.y0 <= y < b.y1 then RectRow(m, y, b.x0, Clip(n, b.x0, b.x1), ch) else 0
  {
    hide Weight, Cell, BoxOf, Image.Valid;
    BoxesPartition(m, dx, dy, if n > 0 then n - 1 else 0, y) by { assert m.w > 0 by { CellsPositive(m); } }
    if n > 0 {
      RowPartIs(m, dx, dy, ch, y, n - 1);
    }
  }

  lemma {:induction false} PartIs(m: Image, dx: nat, dy: nat, ch: nat, n: nat)
    requires m.Valid() && dx < m.dw && dy < m.dh && ch <= CHANNELS && n <= m.h
    ensures var b := BoxOf(m, dx, dy);
      Part(m, dy * m.dw + dx, ch, n) == Rect(m, b.x0, b.x1, b.y0, Clip(n, b.y0, b.y1), ch)
  {
    hide RowPart, RectRow, BoxOf, Image.Valid;
    if n > 0 {
      PartIs(m, dx, dy, ch, n - 1);
      RowPartIs(m, dx, dy, ch, n - 1, m.w);
    }
  }

  /** Bounds on every byte of a box bound its sum. */
  ghost predicate Within(m: Image, b: Box, ch: nat, lo: nat, hi: nat)
    requires m.Valid() && ch <= CHANNELS && b.x1 <= m.w && b.y1 <= m.h
  {
    forall x: nat, y: nat | b.x0 <= x < b.x1 && b.y0 <= y < b.y1 :: lo <= Weight(m, x, y, ch) <= hi
  }

  lemma {:induction false} RowWithin(m: Image, b: Box, ch: nat, lo: nat, hi: nat, y: nat, n: nat)
    requires m.Valid() && ch <= CHANNELS && b.x0 <= n <= b.x1 <= m.w && b.y0 <= y < b.y1 <= m.h && Within(m, b, ch, lo, hi)
    ensures (n - b.x0) * lo <= RectRow(m, y, b.x0, n, ch) <= (n - b.x0) * hi
  {
    if n > b.x0 {
      hide Weight, Image.Valid;
      RowWithin(m, b, ch, lo, hi, y, n - 1);
      Next(n - 1 - b.x0, lo);
      Next(n - 1 - b.x0, hi);
      assert lo <= Weight(m, n - 1, y, ch) <= hi;
    }
  }

  lemma {:induction false} RectWithin(m: Image, b: Box, ch: nat, lo: nat, hi: nat, l: nat, h: nat, n: nat)
    requires m.Valid() && ch <= CHANNELS && b.x0 <= b.x1 <= m.w && b.y0 <= n <= b.y1 <= m.h && Within(m, b, ch, lo, hi)
    requires l == (b.x1 - b.x0) * lo && h == (b.x1 - b.x0) * hi
    ensures (n - b.y0) * l <= Rect(m, b.x0, b.x1, b.y0, n, ch) <= (n - b.y0) * h
  {
    if n > b.y0 {
      hide RectRow, Within, Image.Valid;
      RectWithin(m, b, ch, lo, hi, l, h, n - 1);
      RowWithin(m, b, ch, lo, hi, n - 1, b.x1);
      Next(n - 1 - b.y0, l);
      Next(n - 1 - b.y0, h);
    }
  }

  lemma BoxSums(m: Image, dx: nat, dy: nat, ch: nat)
    requires m.Valid() && dx < m.dw && dy < m.dh && ch < CHANNELS
    ensures var area, sum := BoxOf(m, dx, dy).Area(), BoxSum(m, dx, dy, ch);
      && Part(m, dy * m.dw + dx, ch, m.h) == sum && Part(m, dy * m.dw + dx, CHANNELS, m.h) == area
      && 0 < area < U32 && sum <= 255 * area
  {
    hide BoxOf, Rect, Part, Image.Valid, Weight;
    var b := BoxOf(m, dx, dy);
    PartIs(m, dx, dy, ch, m.h);
    PartIs(m, dx, dy, CHANNELS, m.h);
    CountFits(m, dy * m.dw + dx, m.h);
    AllWithin(m, b, ch);
    var wide := b.x1 - b.x0;
    RectWithin(m, b, CHANNELS, 1, 1, wide, wide, b.y1);
    RectWithin(m, b, ch, 0, 255, 0, wide * 255, b.y1);
    Associate(b.y1 - b.y0, wide, 255);
    MulOrder(1, b.x1 - b.x0, b.y1 - b.y0);
    assert m.h < 65536 by { Dimensions(m); }
  }

  lemma Dimensions(m: Image)
    requires m.Valid()
    ensures m.w < 65536 && m.h < 65536
  {
  }

  lemma AllWithin(m: Image, b: Box, ch: nat)
    requires m.Valid() && ch < CHANNELS && b.x1 <= m.w && b.y1 <= m.h
    ensures Within(m, b, ch, 0, 255) && Within(m, b, CHANNELS, 1, 1)
  {
    forall x: nat, y: nat | b.x0 <= x < b.x1 && b.y0 <= y < b.y1 ensures Weight(m, x, y, ch) <= 255 {
      ByteWeight(m, x, y, ch);
    }
    hide Image.Valid;
  }

  lemma ByteWeight(m: Image, x: nat, y: nat, ch: nat)
    requires m.Valid() && x < m.w && y < m.h && ch < CHANNELS
    ensures Weight(m, x, y, ch) <= 255
  {
    PixelInSource(m, x, y);
  }

  /** What is left of a sum after wrapping has a smaller quotient. */
  lemma WrappedQuotient(sum: nat, area: int)
    requires 0 < area < U32 && sum <= 255 * area
    ensures sum / area <= 255
    ensures (sum % U32) / area == sum / area <==> sum < U32
  {
    var q := sum / area;
    Quotient(sum, area, q);
    if q > 255 {
      MulOrder(256, q, area);
    }
    if sum >= U32 {
      var r := sum % U32;
      assert r <= sum - U32 < sum - area;
      Quotient(r, area, q);
    }
  }

  /** An output byte is the floored mean of its box exactly when the box's sum fits 32 bits. */
  lemma ByteIsMean(m: Image, dx: nat, dy: nat, ch: nat)
    requires m.Valid() && dx < m.dw && dy < m.dh && ch < CHANNELS
    ensures var area, sum := BoxOf(m, dx, dy).Area(), BoxSum(m, dx, dy, ch);
      area > 0 && (OutByte(m, dy * m.dw + dx, ch) as int == sum / area <==> sum < 4294967296)
  {
    hide BoxOf, BoxSum, Part, Image.Valid;
    BoxSums(m, dx, dy, ch);
    hide Box.Area;
    var area, sum := BoxOf(m, dx, dy).Area(), BoxSum(m, dx, dy, ch);
    WrappedQuotient(sum, area);
    QuotientBelow(sum, area);
  }

  lemma QuotientBelow(sum: nat, area: int)
    requires 0 < area && sum <= 255 * area
    ensures 0 <= (sum % U32) / area < 256
  {
    var r := sum % U32;
    Quotient(r, area, r / area);
    if r / area >= 256 {
      MulOrder(256, r / area, area);
    }
    if r / area < 0 {
      MulOrder(r / area + 1, 0, area);
      Next(r / area, area);
    }
  }

  /** The sum fits whenever bins are small enough for the worst case. */
  lemma SmallBinsFit(m: Image, dx: nat, dy: nat, ch: nat)
    requires m.Valid() && dx < m.dw && dy < m.dh && ch < CHANNELS
    requires 255 * (CeilDiv(m.w, m.dw) * CeilDiv(m.h, m.dh)) < U32
    ensures BoxSum(m, dx, dy, ch) < U32
  {
    BoxSums(m, dx, dy, ch);
    var b := BoxOf(m, dx, dy);
    assert b.x1 - b.x0 <= CeilDiv(m.w, m.dw) by {
      BinsPartition(m.w, m.dw, dx);
    }
    assert b.y1 - b.y0 <= CeilDiv(m.h, m.dh) by {
      BinsPartition(m.h, m.dh, dy);
    }
    hide Part, CeilDiv, BoxOf, BoxSum, Image.Valid;
    SideProduct(b.x1 - b.x0, b.y1 - b.y0, CeilDiv(m.w, m.dw), CeilDiv(m.h, m.dh));
  }

  lemma SideProduct(a: int, b: int, p: int, q: int)
    requires 0 <= a <= p && 0 <= b <= q
    ensures a * b <= p * q
  {
    MulOrder(a, p, b);
    MulOrder(b, q, p);
  }

  /** Then it lies between the least and the greatest byte of the box. */
  lemma ByteIsBetween(m: Image, dx: nat, dy: nat, ch: nat, lo: nat, hi: nat)
    requires m.Valid() && dx < m.dw && dy < m.dh && ch < CHANNELS
    requires Within(m, BoxOf(m, dx, dy), ch, lo, hi) && BoxSum(m, dx, dy, ch) < U32
    ensures lo <= OutByte(m, dy * m.dw + dx, ch) as int <= hi
  {
    hide OutByte, BoxOf, Within, Image.Valid;
    var b, sum := BoxOf(m, dx, dy), BoxSum(m, dx, dy, ch);
    ByteIsMean(m, dx, dy, ch);
    var wide := b.x1 - b.x0;
    RectWithin(m, b, ch, lo, hi, wide * lo, wide * hi, b.y1);
    hide Rect;
    Associate(b.y1 - b.y0, wide, lo);
    Associate(b.y1 - b.y0, wide, hi);
    MeanBetween(sum, b.Area(), lo, hi);
  }

  lemma Associate(a: int, b: int, c: int)
    ensures a * (b * c) == c * (b * a)
  {
  }

  lemma MeanBetween(sum: int, area: int, lo: int, hi: int)
    requires area > 0 && lo * area <= sum <= hi * area
    ensures lo <= sum / area <= hi
  {
    var q := sum / area;
    Quotient(sum, area, q);
    if q < lo {
      MulOrder(q + 1, lo, area);
      Next(q, area);
    } else if q > hi {
      MulOrder(hi + 1, q, area);
      Next(hi, area);
    }
  }

  lemma OneToOne(k: nat, s: nat)
    requires s > 0
    ensures Lo(k, s, s) == k
  {
    Quotient(k * s + s - 1, s, k);
  }

  /** An image that is not made smaller comes out as it is, channel by channel, without the
      padding of its rows. */
  lemma SameSizeIsCopy(m: Image, x: nat, y: nat, ch: nat, from: nat, to: nat)
    requires m.Valid() && m.dw == m.w && m.dh == m.h && x < m.w && y < m.h && ch < CHANNELS
    requires from == y * m.stride + x * 4 + ch && to == y * m.w + x
    ensures from < |m.src| && OutByte(m, to, ch) == m.src[from]
  {
    UnitBox(m, x, y);
    OnePixelSum(m, x, y, ch, from);
    hide OutByte, BoxOf, Image.Valid, Rect, Part;
    MeanOfOne(m, x, y, ch, m.src[from] as nat, to);
  }

  lemma MeanOfOne(m: Image, dx: nat, dy: nat, ch: nat, v: nat, cell: nat)
    requires m.Valid() && dx < m.dw && dy < m.dh && ch < CHANNELS && cell == dy * m.dw + dx
    requires BoxOf(m, dx, dy) == Box(dx, dx + 1, dy, dy + 1) && BoxSum(m, dx, dy, ch) == v < 256
    ensures OutByte(m, cell, ch) as int == v
  {
    hide OutByte, BoxOf, BoxSum, Image.Valid, Part;
    ByteIsMean(m, dx, dy, ch);
  }

  lemma UnitBox(m: Image, x: nat, y: nat)
    requires m.Valid() && m.dw == m.w && m.dh == m.h && x < m.w && y < m.h
    ensures BoxOf(m, x, y) == Box(x, x + 1, y, y + 1)
  {
    OneToOne(x, m.w);
    OneToOne(x + 1, m.w);
    OneToOne(y, m.h);
    OneToOne(y + 1, m.h);
    hide Lo;
  }

  lemma OnePixelSum(m: Image, x: nat, y: nat, ch: nat, from: nat)
    requires m.Valid() && x < m.w && y < m.h && ch < CHANNELS && from == y * m.stride + x * 4 + ch
    ensures from < |m.src| && Rect(m, x, x + 1, y, y + 1, ch) == m.src[from] as nat
  {
    PixelInSource(m, x, y);
    hide Image.Valid;
    assert RectRow(m, y, x, x, ch) == 0 && Rect(m, x, x + 1, y, y, ch) == 0;
  }

  // ---------------------------------------------------------------- fitting into a box

  function MinReal(a: real, b: real): real { if a <= b then a else b }

  /** Nearest integer, halves up (the argument is not negative). */
  function Round(x: real): int { (x + 0.5).Floor }

  function Ratio(cap: nat, src: nat): real
    requires src > 0
  {
    cap as real / src as real
  }

  function Factor(srcW: nat, srcH: nat, capW: nat, capH: nat): real
    requires srcW > 0 && srcH > 0
  {
    MinReal(MinReal(Ratio(capW, srcW), Ratio(capH, srcH)), 1.0)
  }

  function Scaled(src: nat, f: real): real { src as real * f }

  function AtLeastOne(n: int): int { if n > 1 then n else 1 }

  function FitWithin(srcW: nat, srcH: nat, capW: nat, capH: nat): (int, int) {
    if capW == 0 || capH == 0 || srcW == 0 || srcH == 0 then (srcW, srcH)
    else
      var f := Factor(srcW, srcH, capW, capH);
      (AtLeastOne(Round(Scaled(srcW, f))), AtLeastOne(Round(Scaled(srcH, f))))
  }

  lemma DivideBack(a: real, b: real)
    requires b > 0.0
    ensures b * (a / b) == a
  {
  }

  lemma MulOrderReal(a: real, b: real, c: real)
    requires a <= b && c >= 0.0
    ensures c * a <= c * b
  {
  }

  /** One axis: never more than the source or the cap, the cap exactly when it binds, and
      within half a pixel of the scaled size unless it is the least size of one. */
  lemma AxisFits(src: nat, cap: nat, f: real)
    requires src > 0 && cap > 0 && 0.0 < f <= 1.0 && f <= Ratio(cap, src)
    ensures var x := Scaled(src, f); var n := AtLeastOne(Round(x));
      && 1 <= n <= src && n <= cap
      && (f == 1.0 ==> n == src) && (f == Ratio(cap, src) ==> n == cap)
      && x - 0.5 <= n as real && (n > 1 ==> n as real <= x + 0.5)
  {
    hide Scaled, Ratio, AtLeastOne, Round;
    ScaledOrder(src, f, Ratio(cap, src));
    ScaledOrder(src, f, 1.0);
    ScaledEnds(src, cap);
    RoundedAxis(src, cap, Scaled(src, f));
  }

  lemma ScaledOrder(src: nat, f: real, g: real)
    requires f <= g
    ensures Scaled(src, f) <= Scaled(src, g)
  {
    MulOrderReal(f, g, src as real);
  }

  lemma ScaledEnds(src: nat, cap: nat)
    requires src > 0
    ensures Scaled(src, 1.0) == src as real && Scaled(src, Ratio(cap, src)) == cap as real
  {
    DivideBack(cap as real, src as real);
  }

  lemma RoundedAxis(src: nat, cap: nat, x: real)
    requires src > 0 && cap > 0 && x <= src as real && x <= cap as real
    ensures var n := AtLeastOne(Round(x));
      && 1 <= n <= src && n <= cap && (x == src as real ==> n == src) && (x == cap as real ==> n == cap)
      && x - 0.5 <= n as real && (n > 1 ==> n as real <= x + 0.5)
  {
  }

  lemma FactorPositive(srcW: nat, srcH: nat, capW: nat, capH: nat, f: real)
    requires srcW > 0 && srcH > 0 && capW > 0 && capH > 0 && f == Factor(srcW, srcH, capW, capH)
    ensures 0.0 < f <= 1.0 && f <= Ratio(capW, srcW) && f <= Ratio(capH, srcH)
    ensures f == 1.0 || f == Ratio(capW, srcW) || f == Ratio(capH, srcH)
  {
    QuotientPositive(capW as real, srcW as real);
    QuotientPositive(capH as real, srcH as real);
  }

  lemma QuotientPositive(a: real, b: real)
    requires a > 0.0 && b > 0.0
    ensures a / b > 0.0
  {
  }

  /** The fitted size never upscales, stays in the box, and cannot be enlarged: it is the
      source size or fills the box along one axis. Both axes are scaled by one factor, up
      to rounding. */
  lemma FitsTightly(srcW: nat, srcH: nat, capW: nat, capH: nat)
    requires srcW > 0 && srcH > 0 && capW > 0 && capH > 0
    ensures var (w, h) := FitWithin(srcW, srcH, capW, capH);
      && 1 <= w <= Min(srcW, capW) && 1 <= h <= Min(srcH, capH)
      && ((w == srcW && h == srcH) || w == capW || h == capH)
    ensures var (w, h) := FitWithin(srcW, srcH, capW, capH);
      var f := Factor(srcW, srcH, capW, capH);
      && 0.0 < f <= 1.0
      && Scaled(srcW, f) - 0.5 <= w as real && (w > 1 ==> w as real <= Scaled(srcW, f) + 0.5)
      && Scaled(srcH, f) - 0.5 <= h as real && (h > 1 ==> h as real <= Scaled(srcH, f) + 0.5)
  {
    var f := Factor(srcW, srcH, capW, capH);
    FactorPositive(srcW, srcH, capW, capH, f);
    hide Factor, Scaled, Ratio, Round, AtLeastOne;
    AxisFits(srcW, capW, f);
    AxisFits(srcH, capH, f);
  }

  /** With no cap, or nothing to scale, the size is the source's. */
  lemma NoCap(srcW: nat, srcH: nat, capW: nat, capH: nat)
    ensures capW == 0 || capH == 0 || srcW == 0 || srcH == 0 ==> FitWithin(srcW, srcH, capW, capH) == (srcW, srcH)
  {
  }

  /** A fitted size is one that the downscaler accepts. */
  lemma FittedIsValid(src: Bytes, w: nat, h: nat, stride: nat, capW: nat, capH: nat, dw: nat, dh: nat)
    requires 0 < w < 65536 && 0 < h < 65536 && (h - 1) * stride + w * 4 <= |src|
    requires FitWithin(w, h, capW, capH) == (dw, dh)
    ensures Image(src, w, h, stride, dw, dh).Valid()
  {
    hide FitWithin;
    if capW > 0 && capH > 0 {
      FitsTightly(w, h, capW, capH);
    } else {
      NoCap(w, h, capW, capH);
    }
  }

  // ---------------------------------------------------------------- an image that overflows

  /** A white image of 5000 by 5000 pixels, fitted into one pixel. */
  const WHITE: Image := Image(seq(100_000_000, _ => 255 as Byte), 5000, 5000, 20000, 1, 1)

  /** Its size is one that the fitting asks for, its sum does not fit 32 bits, and its one
      pixel does not come out white. */
  lemma WhiteOverflows(ch: nat)
    requires ch < CHANNELS
    ensures FitWithin(5000, 5000, 1, 1) == (1, 1)
    ensures WHITE.Valid() && BoxSum(WHITE, 0, 0, ch) == 255 * 25_000_000 >= U32
    ensures OutByte(WHITE, 0, ch) as int != 255
  {
    FitsTightly(5000, 5000, 1, 1);
    assert WHITE.Valid();
    WhiteBox();
    var b := BoxOf(WHITE, 0, 0);
    AllWhite(b, ch);
    hide BoxOf, Weight, Within, Part, OutByte;
    RectWithin(WHITE, b, ch, 255, 255, 5000 * 255, 5000 * 255, 5000);
    hide Rect;
    assert BoxSum(WHITE, 0, 0, ch) == 255 * 25_000_000;
    ByteIsMean(WHITE, 0, 0, ch);
  }

  lemma WhiteBox()
    ensures WHITE.Valid() && BoxOf(WHITE, 0, 0) == Box(0, 5000, 0, 5000)
  {
  }

  lemma AllWhite(b: Box, ch: nat)
    requires ch < CHANNELS && b == Box(0, 5000, 0, 5000) && WHITE.Valid()
    ensures Within(WHITE, b, ch, 255, 255)
  {
    forall x: nat, y: nat | x < 5000 && y < 5000 ensures Weight(WHITE, x, y, ch) == 255 {
      PixelInSource(WHITE, x, y);
    }
  }
}
