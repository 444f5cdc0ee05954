/**
 Keyframe detection in an H.264 byte stream (Annex B of ITU-T H.264): which start codes
 the skipping scan sees, and what it answers on streams that follow the syntax.
 */
module AnnexB {
  import opened Prelude

  const IDR: int := 5

  function UnitType(header: Byte): int {
    header as int % 32
  }

  /** The type of a unit is in the low five bits of its header. */
  lemma UnitTypeIs(high: nat, unitType: nat)
    requires high < 8 && unitType < 32
    ensures UnitType((32 * high + unitType) as Byte) == unitType
  {
  }

  /** A start code prefix begins at `p`, with a byte after it. */
  predicate IsStart(b: Bytes, p: int) {
    0 <= p && p + 3 < |b| && b[p] == 0 && b[p + 1] == 0 && b[p + 2] == 1
  }

  /** A start code is overlooked if it begins at the header of one that is not. */
  predicate Seen(b: Bytes, p: int)
    decreases p
  {
    IsStart(b, p) && !(p >= 3 && Seen(b, p - 3))
  }

  predicate IdrAt(b: Bytes, p: int) {
    IsStart(b, p) && UnitType(b[p + 3]) == IDR
  }

  /** The scan restarts at `i`: everything seen before was looked at, and the start code
      seen last ends no later than `i`. */
  ghost predicate Scanned(b: Bytes, i: int) {
    && 0 <= i
    && forall p | 0 <= p < i :: Seen(b, p) ==> !IdrAt(b, p) && p + 4 <= i
  }

  method ContainsIdr(b: Bytes) returns (r: bool)
    ensures r <==> exists p :: Seen(b, p) && IdrAt(b, p)
  {
    var i := 0;
    while i + 3 < |b|
      invariant Scanned(b, i)
      decreases |b| - i
    {
      var start, header := false, 0;
      if b[i] == 0 && b[i + 1] == 0 && b[i + 2] == 1 {
        start, header := true, i + 3;
      } else if i + 4 < |b| && b[i] == 0 && b[i + 1] == 0 && b[i + 2] == 0 && b[i + 3] == 1 {
        start, header := true, i + 4;
      }
      if start && header < |b| {
        SeenNow(b, i, header - 3);
        if UnitType(b[header]) == IDR {
          assert IdrAt(b, header - 3);
          return true;
        }
        i := header + 1;
      } else {
        i := i + 1;
      }
    }
    r := false;
  }

  /** The start code found is one that is seen, and the next that can be comes after it. */
  lemma SeenNow(b: Bytes, i: int, p: int)
    requires Scanned(b, i) && IsStart(b, p) && (p == i || (p == i + 1 && b[i] == 0))
    ensures Seen(b, p)
    ensures UnitType(b[p + 3]) != IDR ==> Scanned(b, p + 4)
  {
    assert p >= 3 ==> !Seen(b, p - 3);
    forall q | 0 <= q < p + 4 && Seen(b, q) ensures q <= p {
      if q == p + 3 {
        assert Seen(b, q - 3);
      }
    }
  }

  /** Every start code, whether the scan sees it or not. */
  ghost predicate HasIdr(b: Bytes) {
    exists p :: IdrAt(b, p)
  }

  /** What the scan overlooks begins with the header byte zero of another unit. */
  ghost predicate Overlooks(b: Bytes) {
    exists p :: IsStart(b, p) && IsStart(b, p + 3)
  }

  /** How many start codes stand back to back before `p`, each at the header of the last. */
  function Chain(b: Bytes, p: int): nat
    decreases p
  {
    if p >= 3 && IsStart(b, p - 3) then Chain(b, p - 3) + 1 else 0
  }

  /** Of back-to-back start codes the scan sees every other one. */
  lemma {:induction false} SeenByParity(b: Bytes, p: int)
    ensures Seen(b, p) <==> IsStart(b, p) && Chain(b, p) % 2 == 0
    decreases p
  {
    if p >= 3 {
      SeenByParity(b, p - 3);
    }
  }

  /** On every buffer: the scan is wrong if and only if there are keyframes, and each of
      them follows an odd number of start codes back to back. */
  lemma WrongExactly(b: Bytes)
    ensures !((exists p :: Seen(b, p) && IdrAt(b, p)) <==> HasIdr(b)) <==>
      HasIdr(b) && forall p | IdrAt(b, p) :: Chain(b, p) % 2 == 1
  {
    forall p ensures Seen(b, p) <==> IsStart(b, p) && Chain(b, p) % 2 == 0 {
      SeenByParity(b, p);
    }
  }

  /** Where no start code begins at a header, all are seen: the scan is a full search. */
  lemma NothingOverlooked(b: Bytes)
    requires !Overlooks(b)
    ensures (exists p :: Seen(b, p) && IdrAt(b, p)) <==> HasIdr(b)
  {
    forall p | IdrAt(b, p) ensures Chain(b, p) == 0 {
      assert IsStart(b, p - 3) ==> !IsStart(b, p - 3 + 3);
    }
    WrongExactly(b);
  }

  /** A keyframe that the scan does not find: it follows a unit whose header is zero. */
  lemma OverlookedKeyframe()
    ensures var b: Bytes := [0, 0, 1, 0, 0, 1, 5]; HasIdr(b) && Overlooks(b) && !exists p :: Seen(b, p) && IdrAt(b, p)
  {
    var b: Bytes := [0, 0, 1, 0, 0, 1, 5];
    assert IdrAt(b, 3) && IsStart(b, 0) && IsStart(b, 0 + 3);
    assert Chain(b, 3) == 1;
    WrongExactly(b);
  }

  // ---------------------------------------------------------------- streams that follow the syntax

  /** A NAL unit: its header, its payload as it stands in the stream, and the number of
      zero bytes between the unit before and its start code's final one. */
  datatype Unit = Unit(zeros: nat, header: Byte, payload: Bytes)

  function Zeros(n: nat): Bytes {
    seq(n, _ => 0 as Byte)
  }

  function Nal(u: Unit): Bytes {
    [u.header] + u.payload
  }

  /** Section 7.4.1: no 00 00 00, 00 00 01 or 00 00 02 in a unit, and no zero at its end. */
  predicate Protected(nal: Bytes) {
    && nal != [] && nal[|nal| - 1] != 0
    && forall i | 0 <= i < |nal| - 2 :: !(nal[i] == 0 && nal[i + 1] == 0 && nal[i + 2] <= 2)
  }

  /** Section B.1.1: a start code of three bytes or more, and a header that is not zero. */
  predicate WellFormed(u: Unit) {
    u.zeros >= 2 && u.header != 0 && Protected(Nal(u))
  }

  ghost predicate AllWellFormed(units: seq<Unit>) {
    forall u | u in units :: WellFormed(u)
  }

  /** The byte stream of some units, with zero bytes at its end. */
  function Stream(units: seq<Unit>, trailing: nat): Bytes {
    if units == [] then Zeros(trailing)
    else Zeros(units[0].zeros) + [1] + Nal(units[0]) + Stream(units[1..], trailing)
  }

  /** Neither the zeros before a unit nor the unit hold another start code. */
  lemma NoStartInside(u: Unit, rest: Bytes, p: int)
    requires WellFormed(u) && 0 <= p < u.zeros + 1 + |Nal(u)| && p != u.zeros - 2
    ensures !IsStart(Zeros(u.zeros) + [1] + Nal(u) + rest, p)
  {
    var z, nal := u.zeros, Nal(u);
    var b, n := Zeros(z) + [1] + nal + rest, z + 1 + |nal|;
    assert b[z] == 1 && b[n - 1] == nal[|nal| - 1];
    if p < z {
      assert b[p] == 0 && (p + 2 < z ==> b[p + 2] == 0);
    } else if p > z {
      var i := p - z - 1;
      assert b[p] == nal[i];
      assert i + 1 < |nal| ==> b[p + 1] == nal[i + 1];
      assert i + 2 < |nal| ==> b[p + 2] == nal[i + 2];
    }
  }

  /** Start codes of a stream are where its first unit begins, or in the rest. */
  lemma StartInStream(u: Unit, rest: Bytes, p: int)
    requires WellFormed(u) && IsStart(Zeros(u.zeros) + [1] + Nal(u) + rest, p)
    ensures p == u.zeros - 2 || IsStart(rest, p - (u.zeros + 1 + |Nal(u)|))
  {
    var n := u.zeros + 1 + |Nal(u)|;
    var b := Zeros(u.zeros) + [1] + Nal(u) + rest;
    if p < n {
      if p != u.zeros - 2 {
        NoStartInside(u, rest, p);
      }
    } else {
      assert forall i | 0 <= i < |rest| :: b[n + i] == rest[i];
      assert b[n + (p - n)] == rest[p - n] && b[n + (p - n + 1)] == rest[p - n + 1] && b[n + (p - n + 2)] == rest[p - n + 2];
    }
  }

  /** Every start code in a stream carries the header of one of its units. */
  lemma {:induction false} StartsAreUnits(units: seq<Unit>, trailing: nat, p: int)
    requires AllWellFormed(units) && IsStart(Stream(units, trailing), p)
    ensures exists k | 0 <= k < |units| :: units[k].header == Stream(units, trailing)[p + 3]
    decreases |units|
  {
    if units != [] {
      var u, rest := units[0], Stream(units[1..], trailing);
      StartInStream(u, rest, p);
      var n := u.zeros + 1 + |Nal(u)|;
      if p == u.zeros - 2 {
        assert units[0].header == Stream(units, trailing)[p + 3];
      } else {
        StartsAreUnits(units[1..], trailing, p - n);
        var k :| 0 <= k < |units[1..]| && units[1..][k].header == rest[p - n + 3];
        assert units[k + 1].header == Stream(units, trailing)[p + 3];
      }
    }
  }

  /** Every unit has its start code. */
  lemma {:induction false} UnitsAreStarts(units: seq<Unit>, trailing: nat, k: nat) returns (p: int)
    requires AllWellFormed(units) && k < |units|
    ensures IsStart(Stream(units, trailing), p) && Stream(units, trailing)[p + 3] == units[k].header
    decreases k
  {
    var u, rest := units[0], Stream(units[1..], trailing);
    var b, n := Stream(units, trailing), u.zeros + 1 + |Nal(u)|;
    assert WellFormed(u);
    if k == 0 {
      p := u.zeros - 2;
    } else {
      var q := UnitsAreStarts(units[1..], trailing, k - 1);
      p := q + n;
      assert b[n + q] == rest[q] && b[n + q + 1] == rest[q + 1] && b[n + q + 2] == rest[q + 2] && b[n + q + 3] == rest[q + 3];
    }
  }

  /** On every stream that follows the syntax the scan answers whether a unit is an IDR
      slice, in spite of what it skips. */
  lemma ScanIsExact(units: seq<Unit>, trailing: nat)
    requires AllWellFormed(units)
    ensures var b := Stream(units, trailing);
      (exists p :: Seen(b, p) && IdrAt(b, p)) <==> exists k | 0 <= k < |units| :: UnitType(units[k].header) == 5
  {
    var b := Stream(units, trailing);
    forall p | IsStart(b, p) ensures b[p + 3] != 0 {
      StartsAreUnits(units, trailing, p);
      var k :| 0 <= k < |units| && units[k].header == b[p + 3];
      assert units[k] in units;
    }
    hide Stream;
    NothingOverlooked(b);
    if HasIdr(b) {
      var p :| IdrAt(b, p);
      StartsAreUnits(units, trailing, p);
    }
    if k :| 0 <= k < |units| && UnitType(units[k].header) == IDR {
      var p := UnitsAreStarts(units, trailing, k);
      assert IdrAt(b, p);
    }
  }

  // ---------------------------------------------------------------- emulation prevention

  /** Zero bytes at the end, at most two. */
  function EndZeros(out: Bytes): nat {
    if out != [] && out[|out| - 1] == 0 then (if |out| > 1 && out[|out| - 2] == 0 then 2 else 1) else 0
  }

  /** Section 7.3.1: a payload byte up to 3 after two zeros is preceded by a 3. */
  function Escape(header: Byte, raw: Bytes): Bytes {
    if raw == [] then [header]
    else
      var before, x := Escape(header, raw[..|raw| - 1]), raw[|raw| - 1];
      if EndZeros(before) == 2 && x <= 3 then before + [3, x] else before + [x]
  }

  /** Escaping protects every payload that does not end in zero. */
  lemma {:induction false} EscapeProtects(header: Byte, raw: Bytes)
    requires header != 0
    ensures var nal := Escape(header, raw);
      && |nal| > |raw| && nal[0] == header
      && (forall i | 0 <= i < |nal| - 2 :: !(nal[i] == 0 && nal[i + 1] == 0 && nal[i + 2] <= 2))
      && (raw != [] ==> nal[|nal| - 1] == raw[|raw| - 1])
      && (raw == [] ==> nal == [header])
  {
    if raw != [] {
      EscapeProtects(header, raw[..|raw| - 1]);
    }
  }

  /** The unit that an encoder makes of a header and a raw payload is well formed. */
  lemma EncodedIsWellFormed(zeros: nat, header: Byte, raw: Bytes)
    requires zeros >= 2 && header != 0 && (raw == [] || raw[|raw| - 1] != 0)
    ensures WellFormed(Unit(zeros, header, Escape(header, raw)[1..]))
  {
    EscapeProtects(header, raw);
    var nal := Escape(header, raw);
    assert [header] + nal[1..] == nal;
  }
}
