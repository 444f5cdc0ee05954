/**
 Touch input of the web viewer: the gesture machine that turns finger events into
 mouse messages for the host, over exact reals.
 */
module Touch {
  datatype Pt = Pt(x: real, y: real)

  /** Where the video is on screen and how many quarter turns it is rotated. */
  datatype View = View(left: real, top: real, width: real, height: real, rot: nat)

  type Hypot = (real, real) -> real

  datatype Msg =
    | Button(button: int, pressed: bool, at: Pt)
    | Moved(at: Pt)
    | Scroll(dx: real, dy: real)

  const SCROLL_SENS: real := 3.0
  const TAP_MS: real := 300.0
  const DOUBLE_TAP_MS: real := 300.0
  const MAX_ZOOM: real := 8.0
  type Zoom = z: real | 1.0 <= z <= MAX_ZOOM witness 1.0
  const NEARLY_ONE: real := 1.0001
  const MOVE_THRESHOLD: real := 8.0

  // ---------------------------------------------------------------- geometry

  function MaxReal(a: real, b: real): real { if a >= b then a else b }

  function Clamp(v: real, lo: real, hi: real): real {
    if v < lo then lo else if v > hi then hi else v
  }

  function Unit(p: Pt): Pt { Pt(Clamp(p.x, 0.0, 1.0), Clamp(p.y, 0.0, 1.0)) }

  /** Client pixels to the box of the video and back. */
  function ToBox(v: View, c: Pt): Pt {
    Pt((c.x - v.left) / MaxReal(v.width, 1.0), (c.y - v.top) / MaxReal(v.height, 1.0))
  }

  function FromBox(v: View, b: Pt): Pt {
    Pt(v.left + b.x * MaxReal(v.width, 1.0), v.top + b.y * MaxReal(v.height, 1.0))
  }

  /** `norm`: client pixels to host coordinates. */
  function Norm(v: View, c: Pt): Pt {
    var b := ToBox(v, c);
    match v.rot
    case 1 => Pt(b.y, 1.0 - b.x)
    case 2 => Pt(1.0 - b.x, 1.0 - b.y)
    case 3 => Pt(1.0 - b.y, b.x)
    case _ => b
  }

  /** Where `place_cursor` puts the tip of the arrow for a host position. */
  function Placed(v: View, n: Pt): Pt {
    FromBox(v, InVideo(v.rot, n))
  }

  /** `rot_delta`: a displacement on screen in host orientation. */
  function RotDelta(v: View, d: Pt): Pt {
    match v.rot
    case 1 => Pt(d.y, -d.x)
    case 2 => Pt(-d.x, -d.y)
    case 3 => Pt(-d.y, d.x)
    case _ => d
  }

  lemma Divided(a: real, w: real)
    requires w > 0.0
    ensures (a / w) * w == a && (a * w) / w == a
  {
  }

  lemma BoxRoundTrip(v: View, p: Pt)
    ensures ToBox(v, FromBox(v, p)) == p && FromBox(v, ToBox(v, p)) == p
  {
    var w, h := MaxReal(v.width, 1.0), MaxReal(v.height, 1.0);
    Divided(p.x, w);
    Divided(p.y, h);
    Divided(p.x - v.left, w);
    Divided(p.y - v.top, h);
    assert FromBox(v, p).x - v.left == p.x * w && FromBox(v, p).y - v.top == p.y * h;
  }

  /** In every rotation the arrow is drawn where the host's pointer is: placing and
      reading back are inverse to each other. */
  lemma PlaceRoundTrip(v: View, p: Pt)
    ensures Norm(v, Placed(v, p)) == p && Placed(v, Norm(v, p)) == p
  {
    BoxRoundTrip(v, p);
    BoxRoundTrip(v, Pt(1.0 - p.y, p.x));
    BoxRoundTrip(v, Pt(1.0 - p.x, 1.0 - p.y));
    BoxRoundTrip(v, Pt(p.y, 1.0 - p.x));
    hide ToBox, FromBox;
  }

  /** A quarter turn clockwise of the unit box. */
  function Turned(b: Pt): Pt { Pt(1.0 - b.y, b.x) }

  /** Unrotated, the host's screen fills the video; each further rotation turns it a quarter
      clockwise. */
  lemma PlacedTurns(v: View, p: Pt)
    requires v.rot <= 3
    ensures v.rot == 0 && v.width >= 1.0 && v.height >= 1.0 ==> Placed(v, p) == Pt(v.left + p.x * v.width, v.top + p.y * v.height)
    ensures v.rot < 3 ==> var w := v.(rot := v.rot + 1); ToBox(w, Placed(w, p)) == Turned(ToBox(v, Placed(v, p)))
  {
    var w := v.(rot := v.rot + 1);
    OnVideo(v, p);
    BoxRoundTrip(v, InVideo(v.rot, p));
    BoxRoundTrip(w, InVideo(w.rot, p));
    hide ToBox, FromBox;
  }

  /** Where a host position is in the box of the video. */
  function InVideo(rot: nat, n: Pt): Pt {
    match rot
    case 1 => Pt(1.0 - n.y, n.x)
    case 2 => Pt(1.0 - n.x, 1.0 - n.y)
    case 3 => Pt(n.y, 1.0 - n.x)
    case _ => n
  }

  lemma OnVideo(v: View, p: Pt)
    ensures Placed(v, p) == FromBox(v, InVideo(v.rot, p))
    ensures v.width >= 1.0 && v.height >= 1.0 ==> FromBox(v, p) == Pt(v.left + p.x * v.width, v.top + p.y * v.height)
  {
  }

  lemma DividedDifference(a: real, b: real, o: real, w: real)
    requires w > 0.0
    ensures (a - o) / w - (b - o) / w == (a - b) / w
  {
  }

  /** Scroll and cursor deltas turn the same way: `rot_delta` is the linear part of `norm`. */
  lemma RotDeltaIsLinearPart(v: View, c: Pt, d: Pt)
    ensures Pt(Norm(v, c).x - Norm(v, d).x, Norm(v, c).y - Norm(v, d).y) ==
            RotDelta(v, Pt((c.x - d.x) / MaxReal(v.width, 1.0), (c.y - d.y) / MaxReal(v.height, 1.0)))
  {
    DividedDifference(c.x, d.x, v.left, MaxReal(v.width, 1.0));
    DividedDifference(c.y, d.y, v.top, MaxReal(v.height, 1.0));
  }

  // ---------------------------------------------------------------- the gesture machine

  /** One DOM event: the fingers on the screen after it, the fingers it is about, and the
      surroundings the handlers look up. */
  datatype Input = Input(fingers: seq<Pt>, changed: seq<Pt>, now: real, view: View, origin: Pt, doubletap: bool)

  datatype Event = Start(t: Input) | Move(t: Input) | End(t: Input) | Timer(view: View)

  datatype State = State(
    dragging: bool,
    moved: bool,
    start: Pt,
    startMs: real,
    prev: Pt,
    cursor: Pt,
    hasPos: bool,
    maxFingers: nat,
    fingerDown: bool,
    lastTapMs: real,
    timer: bool,
    scale: Zoom,
    pan: Pt,
    pinchDist: real,
    pinchCen: Pt,
    sent: seq<Msg>
  )

  const ORIGIN: Pt := Pt(0.0, 0.0)
  const INITIAL: State :=
    State(false, false, ORIGIN, 0.0, ORIGIN, Pt(0.5, 0.5), false, 0, false, 0.0, false, 1.0, ORIGIN, 0.0, ORIGIN, [])

  /** The host's mouse button for a button number on the wire. */
  datatype HostButton = Left | Right | Middle
  function OnHost(button: int): HostButton {
    match button
    case 2 => Right
    case 3 => Middle
    case _ => Left
  }

  const WIRE_LEFT: int := 1
  const WIRE_RIGHT: int := 2
  const WIRE_UNSPECIFIED: int := 0

  function Press(s: State): State {
    s.(sent := s.sent + [Button(WIRE_UNSPECIFIED, true, Unit(s.cursor))], dragging := true)
  }

  function Release(s: State): State {
    if s.dragging then s.(sent := s.sent + [Button(WIRE_UNSPECIFIED, false, Unit(s.cursor))], dragging := false) else s
  }

  function Middle2(a: Pt, b: Pt): Pt { Pt((a.x + b.x) / 2.0, (a.y + b.y) / 2.0) }

  function Apart(hypot: Hypot, a: Pt, b: Pt): real { MaxReal(hypot(a.x - b.x, a.y - b.y), 1.0) }

  function SecondFinger(hypot: Hypot, s: State, t: Input): State {
    if |t.fingers| < 2 then s
    else Release(s.(timer := false)).(pinchDist := Apart(hypot, t.fingers[0], t.fingers[1]),
                                      pinchCen := Middle2(t.fingers[0], t.fingers[1]))
  }

  function FirstFinger(s: State, t: Input): State {
    if t.fingers == [] then s
    else if |t.fingers| > 1 then s.(prev := t.fingers[0])
    else
      var u := s.(prev := t.fingers[0], start := t.fingers[0], startMs := t.now, moved := false);
      if !t.doubletap then u.(timer := true)
      else if t.now - s.lastTapMs < DOUBLE_TAP_MS && s.hasPos && !s.dragging then Press(u)
      else u
  }

  function OnStart(hypot: Hypot, s: State, t: Input): State {
    var u := s.(moved := s.moved && s.fingerDown,
                maxFingers := if |t.fingers| > s.maxFingers then |t.fingers| else s.maxFingers,
                fingerDown := true);
    FirstFinger(SecondFinger(hypot, u, t), t)
  }

  /** The zoom asked for by fingers that were `from` apart and are now `to` apart. */
  function Stretch(scale: real, from: real, to: real): real
    requires from > 0.0
  {
    scale * (to / from)
  }

  function Zoomed(scale: Zoom, from: real, to: real): Zoom
    requires from > 0.0
  {
    Clamp(Stretch(scale, from, to), 1.0, MAX_ZOOM)
  }

  /** The content coordinate shown at stage coordinate `at`. */
  function Content(at: real, pan: real, scale: Zoom): real {
    (at - pan) / scale
  }

  /** The pan that shows content coordinate `q` at stage coordinate `at`. */
  function PanFor(at: real, scale: Zoom, q: real): real {
    at - scale * q
  }

  /** One pinch step: the content under the old centroid goes under the new one. */
  function Pinch(s: State, dist: real, cen: Pt, origin: Pt): State
    requires s.pinchDist > 0.0
  {
    var scale := Zoomed(s.scale, s.pinchDist, dist);
    var qx := Content(s.pinchCen.x - origin.x, s.pan.x, s.scale);
    var qy := Content(s.pinchCen.y - origin.y, s.pan.y, s.scale);
    s.(moved := true, scale := scale,
       pan := Pt(PanFor(cen.x - origin.x, scale, qx), PanFor(cen.y - origin.y, scale, qy)),
       pinchDist := dist, pinchCen := cen)
  }

  function TwoFingers(hypot: Hypot, s: State, t: Input): State
    requires |t.fingers| == 2
  {
    var dist, cen := Apart(hypot, t.fingers[0], t.fingers[1]), Middle2(t.fingers[0], t.fingers[1]);
    if s.maxFingers >= 3 then s.(pinchDist := 0.0)
    else if s.pinchDist <= 0.0 then s.(pinchDist := dist, pinchCen := cen)
    else Pinch(s, dist, cen, t.origin)
  }

  function Crossed(hypot: Hypot, s: State, c: Pt): State {
    if hypot(c.x - s.start.x, c.y - s.start.y) > MOVE_THRESHOLD && !s.moved then s.(moved := true, timer := false) else s
  }

  function Wheel(v: View, from: Pt, to: Pt): Pt {
    RotDelta(v, Pt((to.x - from.x) * SCROLL_SENS, (to.y - from.y) * SCROLL_SENS))
  }

  function ScrollBy(s: State, v: View, from: Pt, to: Pt): State {
    var d := Wheel(v, from, to);
    if d.x != 0.0 || d.y != 0.0 then s.(sent := s.sent + [Scroll(d.x, d.y)]) else s
  }

  function CursorBy(s: State, v: View, from: Pt, to: Pt): State {
    var a, b := Norm(v, from), Norm(v, to);
    var p := Unit(Pt(s.cursor.x + (b.x - a.x), s.cursor.y + (b.y - a.y)));
    s.(cursor := p, hasPos := true, sent := s.sent + [Moved(p)])
  }

  function OnMove(hypot: Hypot, s: State, t: Input): State
  {
    if |t.fingers| == 2 then TwoFingers(hypot, s, t)
    else if t.fingers == [] then s
    else
      var c := t.fingers[0];
      var u := Crossed(hypot, s.(prev := c), c);
      if |t.fingers| >= 3 then ScrollBy(u, t.view, s.prev, c) else CursorBy(u, t.view, s.prev, c)
  }

  function Click(s: State, button: int): State {
    s.(sent := s.sent + [Button(button, true, Unit(s.cursor)), Button(button, false, Unit(s.cursor))])
  }

  /** A tap: with no cursor yet, at the finger. */
  function Tap(s: State, t: Input, fingers: nat, quick: bool): State {
    if !(fingers == 1 || (fingers == 2 && quick)) || (!s.hasPos && t.changed == []) then s
    else
      var u := if s.hasPos then s else s.(cursor := Norm(t.view, t.changed[0]), hasPos := true);
      Click(if fingers == 1 then u.(lastTapMs := t.now) else u, if fingers == 1 then WIRE_LEFT else WIRE_RIGHT)
  }

  function OnEnd(s: State, t: Input): State {
    if t.fingers != [] then s.(prev := t.fingers[0], pinchDist := 0.0)
    else if s.dragging then Release(Lifted(s))
    else if s.moved then Lifted(s)
    else Tap(Lifted(s), t, s.maxFingers, t.now - s.startMs < TAP_MS)
  }

  /** The gesture is over; a zoom of nearly 1 becomes exactly 1. */
  function Lifted(s: State): State {
    var out := s.scale <= NEARLY_ONE;
    s.(fingerDown := false, timer := false, maxFingers := 0, pinchDist := 0.0,
       scale := if out then 1.0 else s.scale, pan := if out then ORIGIN else s.pan)
  }

  function OnTimer(s: State, v: View): State {
    var u := s.(timer := false);
    if !(s.fingerDown && !s.moved && s.maxFingers == 1 && !s.dragging) then u
    else Press(if s.hasPos then u else u.(cursor := Norm(v, s.start), hasPos := true))
  }

  function Next(hypot: Hypot, s: State, e: Event): State
  {
    match e
    case Start(t) => OnStart(hypot, s, t)
    case Move(t) => OnMove(hypot, s, t)
    case End(t) => OnEnd(s, t)
    case Timer(v) => OnTimer(s, v)
  }

  // ---------------------------------------------------------------- the handlers

  /** The cells that the closures share, and the data channel to the host. */
  class TouchInput {
    const hypot: Hypot
    var dragging: bool
    var moved: bool
    var start: Pt
    var startMs: real
    var prev: Pt
    var cursor: Pt
    var hasPos: bool
    var maxFingers: nat
    var fingerDown: bool
    var lastTapMs: real
    var timer: bool
    var scale: Zoom
    var pan: Pt
    var pinchDist: real
    var pinchCen: Pt
    var sent: seq<Msg>

    ghost function Snapshot(): State
      reads this
    {
      State(dragging, moved, start, startMs, prev, cursor, hasPos, maxFingers, fingerDown, lastTapMs, timer,
            scale, pan, pinchDist, pinchCen, sent)
    }

    constructor (h: Hypot)
      ensures Snapshot() == INITIAL && hypot == h
    {
      hypot := h;
      dragging, moved, start, startMs, prev, cursor := false, false, ORIGIN, 0.0, ORIGIN, Pt(0.5, 0.5);
      hasPos, maxFingers, fingerDown, lastTapMs, timer := false, 0, false, 0.0, false;
      scale, pan, pinchDist, pinchCen, sent := 1.0, ORIGIN, 0.0, ORIGIN, [];
    }

    method MouseButton(button: int, pressed: bool, at: Pt)
      modifies this`sent
      ensures sent == old(sent) + [Button(button, pressed, Unit(at))]
    {
      sent := sent + [Button(button, pressed, Unit(at))];
    }

    method ReleaseDrag()
      modifies this`sent, this`dragging
      ensures Snapshot() == Release(old(Snapshot()))
    {
      if dragging {
        MouseButton(WIRE_UNSPECIFIED, false, cursor);
        dragging := false;
      }
    }

    method PressDrag()
      modifies this`sent, this`dragging
      ensures Snapshot() == Press(old(Snapshot()))
    {
      MouseButton(WIRE_UNSPECIFIED, true, cursor);
      dragging := true;
    }

    method TouchStart(t: Input)
      modifies this
      ensures Snapshot() == OnStart(hypot, old(Snapshot()), t)
    {
      hide SecondFinger, FirstFinger;
      if !fingerDown {
        moved := false;
      }
      if |t.fingers| > maxFingers {
        maxFingers := |t.fingers|;
      }
      fingerDown := true;
      BaselinePinch(t);
      Anchor(t);
    }

    /** A second finger means zoom: no drag, and a new baseline. */
    method BaselinePinch(t: Input)
      modifies this`timer, this`sent, this`dragging, this`pinchDist, this`pinchCen
      ensures Snapshot() == SecondFinger(hypot, old(Snapshot()), t)
    {
      if |t.fingers| >= 2 {
        timer := false;
        ReleaseDrag();
        hide Release, Apart, Middle2;
        pinchDist := Apart(hypot, t.fingers[0], t.fingers[1]);
        pinchCen := Middle2(t.fingers[0], t.fingers[1]);
      }
    }

    /** The first finger arms drag-select, one way or the other. */
    method Anchor(t: Input)
      modifies this`prev, this`start, this`startMs, this`moved, this`sent, this`dragging, this`timer
      ensures Snapshot() == FirstFinger(old(Snapshot()), t)
    {
      hide Press;
      if t.fingers != [] {
        prev := t.fingers[0];
        if |t.fingers| == 1 {
          start := t.fingers[0];
          startMs := t.now;
          moved := false;
          if t.doubletap {
            if t.now - lastTapMs < DOUBLE_TAP_MS && hasPos && !dragging {
              PressDrag();
            }
          } else {
            timer := true;
          }
        }
      }
    }

    method PinchMove(t: Input)
      requires |t.fingers| == 2
      modifies this`pinchDist, this`pinchCen, this`moved, this`scale, this`pan
      ensures Snapshot() == TwoFingers(hypot, old(Snapshot()), t)
    {
      hide Apart, Middle2, Content, Zoomed, PanFor;
      if maxFingers >= 3 {
        pinchDist := 0.0;
        return;
      }
      var dist := Apart(hypot, t.fingers[0], t.fingers[1]);
      var cen := Middle2(t.fingers[0], t.fingers[1]);
      var pd := pinchDist;
      if pd <= 0.0 {
        pinchDist := dist;
        pinchCen := cen;
        return;
      }
      moved := true;
      var s0 := scale;
      var s := Zoomed(s0, pd, dist);
      var qx := Content(pinchCen.x - t.origin.x, pan.x, s0);
      var qy := Content(pinchCen.y - t.origin.y, pan.y, s0);
      scale := s;
      pan := Pt(PanFor(cen.x - t.origin.x, s, qx), PanFor(cen.y - t.origin.y, s, qy));
      pinchDist := dist;
      pinchCen := cen;
    }

    method CheckThreshold(c: Pt)
      modifies this`moved, this`timer
      ensures Snapshot() == Crossed(hypot, old(Snapshot()), c)
    {
      if hypot(c.x - start.x, c.y - start.y) > MOVE_THRESHOLD && !moved {
        moved := true;
        timer := false;
      }
    }

    method ScrollWheel(v: View, p: Pt, c: Pt)
      modifies this`sent
      ensures Snapshot() == ScrollBy(old(Snapshot()), v, p, c)
    {
      hide Wheel;
      var d := Wheel(v, p, c);
      if d.x != 0.0 || d.y != 0.0 {
        sent := sent + [Scroll(d.x, d.y)];
      }
    }

    method MoveCursor(v: View, p: Pt, c: Pt)
      modifies this`cursor, this`hasPos, this`sent
      ensures Snapshot() == CursorBy(old(Snapshot()), v, p, c)
    {
      hide Norm, Unit;
      var a, b := Norm(v, p), Norm(v, c);
      cursor := Unit(Pt(cursor.x + (b.x - a.x), cursor.y + (b.y - a.y)));
      hasPos := true;
      sent := sent + [Moved(cursor)];
    }

    method TouchMove(t: Input)
      modifies this
      ensures Snapshot() == OnMove(hypot, old(Snapshot()), t)
    {
      hide Crossed, ScrollBy, CursorBy, TwoFingers;
      if |t.fingers| == 2 {
        PinchMove(t);
      } else if t.fingers != [] {
        var c, p := t.fingers[0], prev;
        prev := c;
        CheckThreshold(c);
        if |t.fingers| >= 3 {
          ScrollWheel(t.view, p, c);
        } else {
          MoveCursor(t.view, p, c);
        }
      }
    }

    method SendTap(t: Input, fingers: nat, quick: bool)
      modifies this`cursor, this`hasPos, this`lastTapMs, this`sent
      ensures Snapshot() == Tap(old(Snapshot()), t, fingers, quick)
    {
      hide Norm, Click;
      var button := WIRE_LEFT;
      if fingers == 2 && quick {
        button := WIRE_RIGHT;
      } else if fingers != 1 {
        return;
      }
      if !hasPos {
        if t.changed == [] {
          return;
        }
        cursor := Norm(t.view, t.changed[0]);
        hasPos := true;
      }
      if fingers == 1 {
        lastTapMs := t.now;
      }
      SendClick(button);
    }

    method SendClick(button: int)
      modifies this`sent
      ensures Snapshot() == Click(old(Snapshot()), button)
    {
      hide Unit;
      ClickTwice(Snapshot(), button);
      MouseButton(button, true, cursor);
      MouseButton(button, false, cursor);
    }

    method TouchEnd(t: Input)
      modifies this
      ensures Snapshot() == OnEnd(old(Snapshot()), t)
    {
      hide Tap, Release;
      if t.fingers != [] {
        prev := t.fingers[0];
        pinchDist := 0.0;
        return;
      }
      var fingers, dragged, quick := maxFingers, moved, t.now - startMs < TAP_MS;
      LastLift();
      hide Lifted;
      if dragging {
        ReleaseDrag();
      } else if !dragged {
        SendTap(t, fingers, quick);
      }
    }

    method LastLift()
      modifies this`fingerDown, this`timer, this`maxFingers, this`pinchDist, this`scale, this`pan
      ensures Snapshot() == Lifted(old(Snapshot()))
    {
      fingerDown := false;
      timer := false;
      maxFingers := 0;
      pinchDist := 0.0;
      if scale <= NEARLY_ONE {
        scale := 1.0;
        pan := ORIGIN;
      }
    }

    method LongPress(v: View)
      modifies this
      ensures Snapshot() == OnTimer(old(Snapshot()), v)
    {
      hide Norm, Press;
      timer := false;
      if !(fingerDown && !moved && maxFingers == 1 && !dragging) {
        return;
      }
      if !hasPos {
        cursor := Norm(v, start);
        hasPos := true;
      }
      PressDrag();
    }
  }

  lemma ClickTwice(s: State, button: int)
    ensures s.sent + [Button(button, true, Unit(s.cursor))] + [Button(button, false, Unit(s.cursor))] == Click(s, button).sent
  {
  }

  // ---------------------------------------------------------------- the buttons

  /** Whether the host holds a button after some messages, if its presses and releases
      strictly alternate, a press first. */
  function Held(sent: seq<Msg>, b: HostButton): (bool, bool) {
    if sent == [] then (true, false)
    else
      HeldNext(Held(sent[..|sent| - 1], b), sent[|sent| - 1], b)
  }

  function HeldNext(before: (bool, bool), m: Msg, b: HostButton): (bool, bool) {
    if m.Button? && OnHost(m.button) == b then (before.0 && before.1 != m.pressed, m.pressed) else before
  }

  /** Strictly alternating, and `down` now. */
  predicate Alternates(sent: seq<Msg>, b: HostButton, down: bool) {
    Held(sent, b) == (true, down)
  }

  predicate OnScreen(p: Pt) {
    0.0 <= p.x <= 1.0 && 0.0 <= p.y <= 1.0
  }

  predicate Sane(m: Msg) {
    m.Scroll? || OnScreen(m.at)
  }

  ghost predicate Buttons(s: State) {
    && Alternates(s.sent, Left, s.dragging) && Alternates(s.sent, Right, false) && Alternates(s.sent, Middle, false)
    && forall m | m in s.sent :: Sane(m)
  }

  ghost predicate Inv(s: State) {
    && Buttons(s)
    && (s.dragging ==> s.fingerDown)
    && (!s.fingerDown ==> s.maxFingers == 0)
  }

  lemma Append(sent: seq<Msg>, m: Msg)
    requires Sane(m) && forall x | x in sent :: Sane(x)
    ensures forall x | x in sent + [m] :: Sane(x)
    ensures forall b :: Held(sent + [m], b) == HeldNext(Held(sent, b), m, b)
  {
    assert (sent + [m])[..|sent|] == sent;
  }

  lemma PressKeepsButtons(s: State)
    requires Buttons(s) && !s.dragging
    ensures Buttons(Press(s))
  {
    Append(s.sent, Button(WIRE_UNSPECIFIED, true, Unit(s.cursor)));
  }

  lemma ReleaseKeepsButtons(s: State)
    requires Buttons(s)
    ensures Buttons(Release(s))
  {
    if s.dragging {
      Append(s.sent, Button(WIRE_UNSPECIFIED, false, Unit(s.cursor)));
    }
  }

  lemma ClickKeepsButtons(s: State, button: int)
    requires Buttons(s) && !s.dragging
    ensures Buttons(Click(s, button))
  {
    var a, b := Button(button, true, Unit(s.cursor)), Button(button, false, Unit(s.cursor));
    Append(s.sent, a);
    Append(s.sent + [a], b);
    assert s.sent + [a] + [b] == s.sent + [a, b];
  }

  lemma SamePress(s: State, u: State)
    requires u.sent == s.sent && u.dragging == s.dragging && Buttons(s)
    ensures Buttons(u)
  {
  }

  /** Nothing changed but what the buttons do not depend on, and the rest is carried over. */
  ghost predicate Kept(s: State, u: State) {
    Buttons(u) && u.fingerDown == s.fingerDown && u.maxFingers == s.maxFingers
  }

  lemma SecondFingerKeeps(hypot: Hypot, s: State, t: Input)
    requires Buttons(s)
    ensures Kept(s, SecondFinger(hypot, s, t))
  {
    hide Buttons, Apart, Middle2;
    if |t.fingers| >= 2 {
      var u := s.(timer := false);
      SamePress(s, u);
      ReleaseKeepsButtons(u);
      SamePress(Release(u), SecondFinger(hypot, s, t));
    }
  }

  lemma FirstFingerKeeps(s: State, t: Input)
    requires Buttons(s)
    ensures Kept(s, FirstFinger(s, t))
  {
    hide Buttons, Unit;
    if |t.fingers| == 1 {
      var u := s.(prev := t.fingers[0], start := t.fingers[0], startMs := t.now, moved := false);
      SamePress(s, u);
      SamePress(s, u.(timer := true));
      if !u.dragging {
        PressKeepsButtons(u);
      }
    } else {
      SamePress(s, FirstFinger(s, t));
    }
  }

  lemma StartKeepsInv(hypot: Hypot, s: State, t: Input)
    requires Inv(s)
    ensures Inv(OnStart(hypot, s, t))
  {
    hide Buttons, SecondFinger, FirstFinger;
    var u := s.(moved := s.moved && s.fingerDown,
                maxFingers := if |t.fingers| > s.maxFingers then |t.fingers| else s.maxFingers, fingerDown := true);
    SamePress(s, u);
    SecondFingerKeeps(hypot, u, t);
    FirstFingerKeeps(SecondFinger(hypot, u, t), t);
  }

  lemma SendKeepsButtons(s: State, m: Msg)
    requires Buttons(s) && Sane(m) && !m.Button?
    ensures Buttons(s.(sent := s.sent + [m]))
  {
    Append(s.sent, m);
  }

  lemma ScrollKeepsButtons(s: State, v: View, p: Pt, c: Pt)
    requires Buttons(s)
    ensures var u := ScrollBy(s, v, p, c); Buttons(u) && u == s.(sent := u.sent)
  {
    hide Wheel, Buttons;
    var d := Wheel(v, p, c);
    SendKeepsButtons(s, Scroll(d.x, d.y));
  }

  lemma CursorKeepsButtons(s: State, v: View, p: Pt, c: Pt)
    requires Buttons(s)
    ensures var u := CursorBy(s, v, p, c);
      Buttons(u) && OnScreen(u.cursor) && u == s.(sent := u.sent, cursor := u.cursor, hasPos := true)
  {
    hide Norm, Buttons;
    var p' := CursorBy(s, v, p, c).cursor;
    SendKeepsButtons(s, Moved(p'));
    SamePress(s.(sent := s.sent + [Moved(p')]), CursorBy(s, v, p, c));
  }

  lemma TwoFingersKeep(hypot: Hypot, s: State, t: Input)
    requires Buttons(s) && |t.fingers| == 2
    ensures var u := TwoFingers(hypot, s, t);
      Buttons(u) && u.dragging == s.dragging && u.fingerDown == s.fingerDown &&
      u.maxFingers == s.maxFingers
  {
    hide Buttons, Apart, Middle2, Content, PanFor;
    SamePress(s, TwoFingers(hypot, s, t));
  }

  lemma MoveKeepsInv(hypot: Hypot, s: State, t: Input)
    requires Inv(s)
    ensures Inv(OnMove(hypot, s, t))
  {
    if |t.fingers| == 2 {
      hide TwoFingers, Buttons;
      TwoFingersKeep(hypot, s, t);
    } else if t.fingers != [] {
      hide Buttons, ScrollBy, CursorBy;
      var u := Crossed(hypot, s.(prev := t.fingers[0]), t.fingers[0]);
      SamePress(s, u);
      if |t.fingers| >= 3 {
        ScrollKeepsButtons(u, t.view, s.prev, t.fingers[0]);
      } else {
        CursorKeepsButtons(u, t.view, s.prev, t.fingers[0]);
      }
    }
  }

  lemma EndKeepsInv(s: State, t: Input)
    requires Inv(s)
    ensures Inv(OnEnd(s, t))
  {
    hide Buttons, Unit, Norm;
    if t.fingers != [] {
      SamePress(s, OnEnd(s, t));
    } else {
      var u := Lifted(s);
      SamePress(s, u);
      if s.dragging {
        ReleaseKeepsButtons(u);
      } else if !s.moved {
        TapKeepsButtons(u, t, s.maxFingers, t.now - s.startMs < TAP_MS);
      }
    }
  }

  lemma TapKeepsButtons(s: State, t: Input, fingers: nat, quick: bool)
    requires Buttons(s) && !s.dragging
    ensures var u := Tap(s, t, fingers, quick);
      Buttons(u) && !u.dragging && u.fingerDown == s.fingerDown && u.maxFingers == s.maxFingers
  {
    hide Buttons, Unit, Norm;
    if t.changed != [] || s.hasPos {
      var u := if s.hasPos then s else s.(cursor := Norm(t.view, t.changed[0]), hasPos := true);
      SamePress(s, u);
      SamePress(s, u.(lastTapMs := t.now));
      ClickKeepsButtons(u, WIRE_RIGHT);
      ClickKeepsButtons(u.(lastTapMs := t.now), WIRE_LEFT);
    }
  }

  lemma TimerKeepsInv(s: State, v: View)
    requires Inv(s)
    ensures Inv(OnTimer(s, v))
  {
    hide Buttons, Unit, Norm;
    var u := s.(timer := false);
    SamePress(s, u);
    if !s.dragging {
      var w := if s.hasPos then u else u.(cursor := Norm(v, s.start), hasPos := true);
      SamePress(s, w);
      PressKeepsButtons(w);
    }
  }

  lemma StepKeepsInv(hypot: Hypot, s: State, e: Event)
    requires Inv(s)
    ensures Inv(Next(hypot, s, e))
  {
    match e {
      case Start(t) => StartKeepsInv(hypot, s, t);
      case Move(t) => MoveKeepsInv(hypot, s, t);
      case End(t) => EndKeepsInv(s, t);
      case Timer(v) => TimerKeepsInv(s, v);
    }
  }

  /** The state after any events, in any order. */
  function After(hypot: Hypot, events: seq<Event>): State {
    if events == [] then INITIAL else Next(hypot, After(hypot, events[..|events| - 1]), events[|events| - 1])
  }

  /** Whatever the events: the host sees the left button pressed and released strictly by
      turns, held exactly while dragging; the others are never left held; positions lie
      in the unit square and the zoom between 1 and 8. */
  lemma {:induction false} RunKeepsInv(hypot: Hypot, events: seq<Event>)
    ensures Inv(After(hypot, events))
  {
    if events != [] {
      hide Next;
      RunKeepsInv(hypot, events[..|events| - 1]);
      StepKeepsInv(hypot, After(hypot, events[..|events| - 1]), events[|events| - 1]);
    }
  }

  /** Once the last finger has lifted, no button is held. */
  lemma NothingHeldAfterLastLift(hypot: Hypot, events: seq<Event>, t: Input)
    requires t.fingers == []
    ensures var s := After(hypot, events + [End(t)]);
      forall b :: Alternates(s.sent, b, false)
  {
    var all := events + [End(t)];
    assert all[..|events|] == events;
    RunKeepsInv(hypot, events);
    RunKeepsInv(hypot, all);
    var s := After(hypot, all);
    assert !s.fingerDown by {
      LiftEnds(After(hypot, events), t);
    }
    hide After;
    forall b ensures Alternates(s.sent, b, false) {
      match b {
        case Left =>
        case Right =>
        case Middle =>
      }
    }
  }

  lemma LiftEnds(s: State, t: Input)
    requires t.fingers == []
    ensures !OnEnd(s, t).fingerDown
  {
  }

  // ---------------------------------------------------------------- what taps do

  /** The host saw exactly one click of button `b` at `at`. */
  ghost predicate Clicked(before: seq<Msg>, after: seq<Msg>, b: HostButton, at: Pt) {
    exists j, k :: after == before + [Button(j, true, at), Button(k, false, at)] && OnHost(j) == b && OnHost(k) == b
  }

  lemma ClickIs(before: seq<Msg>, after: seq<Msg>, j: int, k: int, b: HostButton, at: Pt)
    requires after == before + [Button(j, true, at), Button(k, false, at)] && OnHost(j) == b && OnHost(k) == b
    ensures Clicked(before, after, b, at)
  {
  }

  /** One finger down and up is a left click at the cursor, or at the finger while there is
      no cursor; also when the first half of it is the press of a double-tap drag. */
  lemma OneFingerTap(hypot: Hypot, s: State, down: Input, up: Input)
    requires Inv(s) && !s.fingerDown && |down.fingers| == 1 && up.fingers == []
    requires s.hasPos || up.changed != []
    ensures Clicked(s.sent, OnEnd(OnStart(hypot, s, down), up).sent, Left,
                    Unit(if s.hasPos then s.cursor else Norm(up.view, up.changed[0])))
  {
    hide Buttons, Unit, Norm;
    var u := OnStart(hypot, s, down);
    var at := Unit(if s.hasPos then s.cursor else Norm(up.view, up.changed[0]));
    if u.dragging {
      assert s.sent + [Button(0, true, at)] + [Button(0, false, at)] == s.sent + [Button(0, true, at), Button(0, false, at)];
      ClickIs(s.sent, OnEnd(u, up).sent, 0, 0, Left, at);
    } else {
      ClickIs(s.sent, OnEnd(u, up).sent, 1, 1, Left, at);
    }
  }

  /** Where a tap lands, if it lands at all. */
  function TapPoint(s: State, last: Input): Pt
    requires CanTap(s, last)
  {
    Unit(if s.hasPos then s.cursor else Norm(last.view, last.changed[0]))
  }

  predicate CanTap(s: State, last: Input) {
    s.hasPos || last.changed != []
  }

  /** In double-tap mode, soon after a tap, a finger that lands presses the button. */
  predicate Arms(s: State, t: Input) {
    t.doubletap && t.now - s.lastTapMs < DOUBLE_TAP_MS && s.hasPos
  }

  /** Two fingers that land one after the other and lift are a right click if the last
      lifts within 300 ms of the first landing, and otherwise nothing. Soon after a tap in
      double-tap mode there is a left click before that: the first finger presses and the
      second releases. */
  lemma TwoFingerTap(hypot: Hypot, s: State, first: Input, second: Input, up: Input, last: Input)
    requires Inv(s) && !s.fingerDown
    requires |first.fingers| == 1 && |second.fingers| == 2 && |up.fingers| == 1 && last.fingers == []
    ensures
      var landed := OnStart(hypot, OnStart(hypot, s, first), second);
      var u := OnEnd(OnEnd(landed, up), last);
      && (if Arms(s, first) then Clicked(s.sent, landed.sent, Left, Unit(s.cursor)) else landed.sent == s.sent)
      && (if last.now - first.now < 300.0 && CanTap(s, last) then Clicked(landed.sent, u.sent, Right, TapPoint(s, last))
          else u.sent == landed.sent)
  {
    TwoLand(hypot, s, first, second);
    var landed := OnStart(hypot, OnStart(hypot, s, first), second);
    hide OnStart, Buttons, TapPoint;
    TwoLift(landed, up, last);
    if CanTap(s, last) {
      assert TapPoint(landed, last) == TapPoint(s, last) by {
        SameTapPoint(landed, s, last);
      }
    }
  }

  lemma SameTapPoint(s: State, u: State, last: Input)
    requires s.hasPos == u.hasPos && s.cursor == u.cursor && CanTap(s, last)
    ensures TapPoint(s, last) == TapPoint(u, last)
  {
  }

  lemma TwoLand(hypot: Hypot, s: State, first: Input, second: Input)
    requires Inv(s) && !s.fingerDown && |first.fingers| == 1 && |second.fingers| == 2
    ensures var u := OnStart(hypot, OnStart(hypot, s, first), second);
      && u.maxFingers == 2 && !u.moved && !u.dragging && u.hasPos == s.hasPos && u.cursor == s.cursor && u.startMs == first.now
      && if Arms(s, first) then Clicked(s.sent, u.sent, Left, Unit(s.cursor)) else u.sent == s.sent
  {
    hide Buttons, Unit, Norm, Apart, Middle2;
    var at := Unit(s.cursor);
    if Arms(s, first) {
      assert s.sent + [Button(0, true, at)] + [Button(0, false, at)] == s.sent + [Button(0, true, at), Button(0, false, at)];
      ClickIs(s.sent, OnStart(hypot, OnStart(hypot, s, first), second).sent, 0, 0, Left, at);
    }
  }

  lemma TwoLift(s: State, up: Input, last: Input)
    requires s.maxFingers == 2 && !s.moved && !s.dragging && |up.fingers| == 1 && last.fingers == []
    ensures var u := OnEnd(OnEnd(s, up), last);
      if last.now - s.startMs < 300.0 && CanTap(s, last) then Clicked(s.sent, u.sent, Right, TapPoint(s, last))
      else u.sent == s.sent
  {
    hide Unit, Norm;
    if last.now - s.startMs < TAP_MS && CanTap(s, last) {
      ClickIs(s.sent, OnEnd(OnEnd(s, up), last).sent, 2, 2, Right, TapPoint(s, last));
    }
  }

  /** Two fingers that land in one event do not restart the clock: they are a right click
      if and only if they lift within 300 ms of the last gesture that began with one. */
  lemma SimultaneousTwoFingerTap(hypot: Hypot, s: State, both: Input, up: Input, last: Input)
    requires Inv(s) && !s.fingerDown
    requires |both.fingers| == 2 && |up.fingers| == 1 && last.fingers == []
    ensures var u := OnEnd(OnEnd(OnStart(hypot, s, both), up), last);
      if last.now - s.startMs < 300.0 && CanTap(s, last) then Clicked(s.sent, u.sent, Right, TapPoint(s, last))
      else u.sent == s.sent
  {
    hide Buttons, Unit, Norm, Apart, Middle2;
    var v := OnStart(hypot, s, both);
    assert v.maxFingers == 2 && !v.moved && !v.dragging && v.startMs == s.startMs && v.sent == s.sent;
    hide OnStart;
    TwoLift(v, up, last);
    if CanTap(s, last) {
      SameTapPoint(v, s, last);
    }
  }

  /** A tap arms the second one: in double-tap mode a finger that lands within 300 ms of it
      presses the button at once, and one that lands later does not. */
  lemma DoubleTapPresses(hypot: Hypot, s: State, down: Input, up: Input, next: Input)
    requires Inv(s) && !s.fingerDown && |down.fingers| == 1 && up.fingers == [] && CanTap(s, up) && !Arms(s, down)
    requires |next.fingers| == 1 && next.doubletap
    ensures
      var u := OnEnd(OnStart(hypot, s, down), up);
      var v := OnStart(hypot, u, next);
      if next.now - up.now < 300.0 then v.dragging && Presses(u.sent, v.sent, Left, Unit(u.cursor))
      else !v.dragging && v.sent == u.sent
  {
    hide Buttons, Unit, Norm;
    var u := OnEnd(OnStart(hypot, s, down), up);
    assert u.lastTapMs == up.now && u.hasPos && !u.fingerDown && !u.dragging;
    if next.now - up.now < 300.0 {
      PressIs(u.sent, OnStart(hypot, u, next).sent, 0, Left, Unit(u.cursor));
    }
  }

  /** The host saw exactly one press of button `b` at `at`. */
  ghost predicate Presses(before: seq<Msg>, after: seq<Msg>, b: HostButton, at: Pt) {
    exists j :: after == before + [Button(j, true, at)] && OnHost(j) == b
  }

  lemma PressIs(before: seq<Msg>, after: seq<Msg>, j: int, b: HostButton, at: Pt)
    requires after == before + [Button(j, true, at)] && OnHost(j) == b
    ensures Presses(before, after, b, at)
  {
  }

  // ---------------------------------------------------------------- holding and dragging

  /** Fingers moving without landing or lifting, any number of times. */
  function Tracked(hypot: Hypot, s: State, ts: seq<Input>): State {
    if ts == [] then s else OnMove(hypot, Tracked(hypot, s, ts[..|ts| - 1]), ts[|ts| - 1])
  }

  /** One finger that never went further than 8 px from where it landed. */
  ghost predicate Stayed(hypot: Hypot, start: Pt, ts: seq<Input>) {
    forall t | t in ts && t.fingers != [] :: hypot(t.fingers[0].x - start.x, t.fingers[0].y - start.y) <= 8.0
  }

  /** Nothing was sent but where the cursor is. */
  ghost predicate OnlyMoves(before: seq<Msg>, after: seq<Msg>) {
    before <= after && forall k | |before| <= k < |after| :: after[k].Moved?
  }

  ghost predicate OneFinger(ts: seq<Input>) {
    forall t | t in ts :: |t.fingers| == 1
  }

  lemma StayedStep(hypot: Hypot, start: Pt, ts: seq<Input>)
    requires ts != []
    ensures var before, t := ts[..|ts| - 1], ts[|ts| - 1];
      Stayed(hypot, start, ts) <==>
        Stayed(hypot, start, before) && (t.fingers != [] ==> hypot(t.fingers[0].x - start.x, t.fingers[0].y - start.y) <= 8.0)
    ensures OneFinger(ts) ==> OneFinger(ts[..|ts| - 1]) && |ts[|ts| - 1].fingers| == 1
  {
    assert ts == ts[..|ts| - 1] + [ts[|ts| - 1]];
  }

  /** What a finger that moves leaves as it is, and what it ends. */
  ghost predicate Carried(hypot: Hypot, u: State, v: State, ts: seq<Input>) {
    && (v.moved <==> u.moved || !Stayed(hypot, u.start, ts)) && (!u.moved ==> v.timer == (u.timer && !v.moved))
    && v.dragging == u.dragging && v.fingerDown == u.fingerDown && v.maxFingers == u.maxFingers
    && v.start == u.start && v.startMs == u.startMs && (ts != [] ==> v.hasPos) && (ts == [] ==> v == u)
    && OnlyMoves(u.sent, v.sent)
  }

  /** One move of one finger. */
  lemma OneMove(hypot: Hypot, s: State, t: Input)
    requires |t.fingers| == 1
    ensures var v := OnMove(hypot, s, t); var far := hypot(t.fingers[0].x - s.start.x, t.fingers[0].y - s.start.y) > 8.0;
      && (v.moved <==> s.moved || far) && (!s.moved ==> v.timer == (s.timer && !far)) && (s.moved ==> v.timer == s.timer)
      && v.dragging == s.dragging && v.fingerDown == s.fingerDown && v.maxFingers == s.maxFingers
      && v.start == s.start && v.startMs == s.startMs && v.hasPos
      && v.sent == s.sent + [Moved(v.cursor)]
  {
    hide Norm, Unit;
  }

  lemma MovesSnoc(a: seq<Msg>, b: seq<Msg>, at: Pt)
    requires OnlyMoves(a, b)
    ensures OnlyMoves(a, b + [Moved(at)])
  {
  }

  lemma {:induction false} HeldWhileMoving(hypot: Hypot, u: State, ts: seq<Input>)
    requires OneFinger(ts)
    ensures Carried(hypot, u, Tracked(hypot, u, ts), ts)
  {
    hide OnMove, OneFinger, Carried, Stayed;
    if ts == [] {
      NothingMoved(hypot, u);
    } else {
      var before, t := ts[..|ts| - 1], ts[|ts| - 1];
      StayedStep(hypot, u.start, ts);
      HeldWhileMoving(hypot, u, before);
      var v := Tracked(hypot, u, before);
      OneMove(hypot, v, t);
      assert Tracked(hypot, u, ts) == OnMove(hypot, v, t);
      hide Tracked;
      CarriedOn(hypot, u, v, OnMove(hypot, v, t), before, ts);
    }
  }

  lemma NothingMoved(hypot: Hypot, u: State)
    ensures Carried(hypot, u, u, [])
  {
  }

  lemma CarriedOn(hypot: Hypot, u: State, v: State, w: State, before: seq<Input>, ts: seq<Input>)
    requires Carried(hypot, u, v, before) && ts != [] && before == ts[..|ts| - 1] && |ts[|ts| - 1].fingers| == 1
    requires var c := ts[|ts| - 1].fingers[0]; var far := hypot(c.x - v.start.x, c.y - v.start.y) > 8.0;
      && (w.moved <==> v.moved || far) && (!v.moved ==> w.timer == (v.timer && !far)) && (v.moved ==> w.timer == v.timer)
    requires w.dragging == v.dragging && w.fingerDown == v.fingerDown && w.maxFingers == v.maxFingers
    requires w.start == v.start && w.startMs == v.startMs && w.hasPos && w.sent == v.sent + [Moved(w.cursor)]
    ensures Carried(hypot, u, w, ts)
  {
    StayedStep(hypot, u.start, ts);
    MovesSnoc(u.sent, v.sent, w.cursor);
    hide Stayed, OnlyMoves;
  }

  /** A finger that lands while no other is down, without pressing anything. */
  ghost predicate Lands(hypot: Hypot, s: State, down: Input) {
    Inv(s) && !s.fingerDown && |down.fingers| == 1 && !Arms(s, down)
  }

  lemma LandedHeld(hypot: Hypot, s: State, down: Input, ts: seq<Input>)
    requires Lands(hypot, s, down) && OneFinger(ts)
    ensures var u := OnStart(hypot, s, down); var v := Tracked(hypot, u, ts);
      && u.sent == s.sent && u.hasPos == s.hasPos && u.cursor == s.cursor && OnlyMoves(u.sent, v.sent)
      && (v.moved <==> !Stayed(hypot, down.fingers[0], ts)) && !v.dragging && v.fingerDown && v.maxFingers == 1
      && v.start == down.fingers[0] && (ts != [] ==> v.hasPos) && (ts == [] ==> v == u)
      && (!down.doubletap ==> (v.timer <==> Stayed(hypot, down.fingers[0], ts)))
  {
    var u := OnStart(hypot, s, down);
    assert !u.moved && u.start == down.fingers[0] && (!down.doubletap ==> u.timer);
    hide OnStart, Tracked, Buttons, Stayed, OnlyMoves;
    HeldWhileMoving(hypot, u, ts);
  }

  /** A drag is not a tap: one finger that lands, moves and lifts is a left click if and only
      if it stayed within 8 px of where it landed. All else that is sent is where the cursor
      is. */
  lemma TapUnlessDragged(hypot: Hypot, s: State, down: Input, ts: seq<Input>, up: Input)
    requires Lands(hypot, s, down) && OneFinger(ts) && up.fingers == []
    ensures
      var v := Tracked(hypot, OnStart(hypot, s, down), ts);
      var w := OnEnd(v, up);
      && OnlyMoves(s.sent, v.sent) && (ts != [] ==> CanTap(v, up))
      && (if Stayed(hypot, down.fingers[0], ts) && CanTap(v, up) then Clicked(v.sent, w.sent, Left, TapPoint(v, up))
          else w.sent == v.sent)
  {
    hide OnStart, Buttons, Unit, Norm, Stayed, Tracked, OnlyMoves;
    LandedHeld(hypot, s, down, ts);
    var v := Tracked(hypot, OnStart(hypot, s, down), ts);
    if Stayed(hypot, down.fingers[0], ts) && CanTap(v, up) {
      ClickIs(v.sent, OnEnd(v, up).sent, 1, 1, Left, TapPoint(v, up));
    }
  }

  /** A long press is not a drag either: when the timer fires the button is pressed if and
      only if the finger has stayed within 8 px, and only then is the timer still armed. */
  lemma LongPressUnlessDragged(hypot: Hypot, s: State, down: Input, ts: seq<Input>, view: View)
    requires Lands(hypot, s, down) && OneFinger(ts)
    ensures
      var v := Tracked(hypot, OnStart(hypot, s, down), ts);
      var w := OnTimer(v, view);
      && (!down.doubletap ==> (v.timer <==> Stayed(hypot, down.fingers[0], ts))) && !w.timer
      && if Stayed(hypot, down.fingers[0], ts) then
           w.dragging && Presses(v.sent, w.sent, Left, Unit(if v.hasPos then v.cursor else Norm(view, down.fingers[0])))
         else !w.dragging && w.sent == v.sent
  {
    hide OnStart, Buttons, Unit, Norm, Stayed, Tracked, OnlyMoves;
    LandedHeld(hypot, s, down, ts);
    var v := Tracked(hypot, OnStart(hypot, s, down), ts);
    if Stayed(hypot, down.fingers[0], ts) {
      PressIs(v.sent, OnTimer(v, view).sent, 0, Left, Unit(if v.hasPos then v.cursor else Norm(view, down.fingers[0])));
    }
  }

  /** Once the button is held, moving and lifting only moves the cursor and then releases it. */
  lemma DragReleases(hypot: Hypot, s: State, ts: seq<Input>, up: Input)
    requires s.dragging && OneFinger(ts) && up.fingers == []
    ensures
      var v := Tracked(hypot, s, ts);
      var w := OnEnd(v, up);
      && OnlyMoves(s.sent, v.sent) && !w.dragging
      && exists k :: w.sent == v.sent + [Button(k, false, Unit(v.cursor))] && OnHost(k) == Left
  {
    hide Unit, Norm, Stayed, Tracked, OnlyMoves;
    HeldWhileMoving(hypot, s, ts);
    var v := Tracked(hypot, s, ts);
    assert OnEnd(v, up).sent == v.sent + [Button(0, false, Unit(v.cursor))] && OnHost(0) == Left;
  }

  /** When fingers land or lift, the cursor follows the primary finger from where it is then:
      a finger that does not move moves nothing. */
  lemma NoFling(hypot: Hypot, s: State, t: Input, still: Input)
    requires t.fingers != [] && |still.fingers| == 1 && still.fingers[0] == t.fingers[0] && OnScreen(s.cursor)
    ensures OnMove(hypot, OnStart(hypot, s, t), still).cursor == s.cursor
    ensures OnMove(hypot, OnEnd(s, t), still).cursor == s.cursor
  {
    StartAnchors(hypot, s, t);
    assert OnEnd(s, t).prev == t.fingers[0] && OnEnd(s, t).cursor == s.cursor;
    hide OnStart, OnEnd;
    StillFinger(hypot, OnStart(hypot, s, t), still);
    StillFinger(hypot, OnEnd(s, t), still);
    hide OnMove;
  }

  lemma StartAnchors(hypot: Hypot, s: State, t: Input)
    requires t.fingers != []
    ensures OnStart(hypot, s, t).prev == t.fingers[0] && OnStart(hypot, s, t).cursor == s.cursor
  {
    hide Apart, Middle2, Unit;
  }

  lemma StillFinger(hypot: Hypot, s: State, t: Input)
    requires |t.fingers| == 1 && t.fingers[0] == s.prev && OnScreen(s.cursor)
    ensures OnMove(hypot, s, t).cursor == s.cursor
  {
    hide Norm;
  }

  // ---------------------------------------------------------------- more than one finger

  /** A second finger starts a pinch at once: it is measured from where the two are, and
      neither a long press nor the zoom so far is touched by that. */
  lemma PinchFromLanding(hypot: Hypot, s: State, t: Input)
    requires |t.fingers| == 2 && s.maxFingers <= 2
    ensures var u, f := OnStart(hypot, s, t), t.fingers;
      && Pinching(u) && u.pinchDist == MaxReal(hypot(f[0].x - f[1].x, f[0].y - f[1].y), 1.0) && IsCentroid(u.pinchCen, f)
      && !u.timer && !u.dragging && u.scale == s.scale && u.pan == s.pan
  {
    hide Unit;
  }

  /** The long-press timer is never armed without a finger on the screen. */
  lemma {:induction false} TimerNeedsFinger(hypot: Hypot, events: seq<Event>)
    ensures After(hypot, events).timer ==> After(hypot, events).fingerDown
  {
    if events != [] {
      TimerNeedsFinger(hypot, events[..|events| - 1]);
      TimerStep(hypot, After(hypot, events[..|events| - 1]), events[|events| - 1]);
      hide Next;
    }
  }

  lemma TimerStep(hypot: Hypot, s: State, e: Event)
    requires s.timer ==> s.fingerDown
    ensures Next(hypot, s, e).timer ==> Next(hypot, s, e).fingerDown
  {
    match e {
      case Start(t) => StartPutsFinger(hypot, s, t);
      case Move(t) => MoveKeepsTimer(hypot, s, t);
      case End(t) => EndKeepsTimer(s, t);
      case Timer(v) =>
        hide Unit, Norm;
    }
  }

  lemma StartPutsFinger(hypot: Hypot, s: State, t: Input)
    ensures OnStart(hypot, s, t).fingerDown
  {
    hide Apart, Middle2, Unit;
  }

  lemma MoveKeepsTimer(hypot: Hypot, s: State, t: Input)
    ensures OnMove(hypot, s, t).fingerDown == s.fingerDown && (OnMove(hypot, s, t).timer ==> s.timer)
  {
    if |t.fingers| == 2 {
      hide OnMove, Apart, Middle2, Zoomed, Content, PanFor;
      assert OnMove(hypot, s, t) == TwoFingers(hypot, s, t) by {
        PinchIsMove(hypot, s, t);
      }
    } else {
      hide TwoFingers, Unit, Norm, Wheel;
    }
  }

  lemma PinchIsMove(hypot: Hypot, s: State, t: Input)
    requires |t.fingers| == 2
    ensures OnMove(hypot, s, t) == TwoFingers(hypot, s, t)
  {
    hide TwoFingers;
  }

  lemma EndKeepsTimer(s: State, t: Input)
    ensures OnEnd(s, t).timer ==> s.timer && OnEnd(s, t).fingerDown == s.fingerDown
  {
    hide Unit, Norm;
  }

  /** A pinch is never a click. */
  lemma PinchIsNoTap(hypot: Hypot, s: State, ts: seq<Input>, origin: Pt, up: Input, last: Input)
    requires Pinching(s) && !s.dragging && ts != [] && (forall t | t in ts :: |t.fingers| == 2 && t.origin == origin)
    requires |up.fingers| == 1 && last.fingers == []
    ensures OnEnd(OnEnd(Tracked(hypot, s, ts), up), last).sent == s.sent
  {
    PinchSendsNothing(hypot, s, ts);
    hide Tracked;
  }

  lemma {:induction false} PinchSendsNothing(hypot: Hypot, s: State, ts: seq<Input>)
    requires Pinching(s) && forall t | t in ts :: |t.fingers| == 2
    ensures var u := Tracked(hypot, s, ts);
      Pinching(u) && u.sent == s.sent && u.dragging == s.dragging && (ts != [] ==> u.moved)
  {
    hide Apart, Middle2, Zoomed, Content, PanFor;
    if ts != [] {
      PinchSendsNothing(hypot, s, ts[..|ts| - 1]);
      ApartPositive(hypot, ts[|ts| - 1]);
    }
  }

  lemma ApartPositive(hypot: Hypot, t: Input)
    requires |t.fingers| == 2
    ensures Apart(hypot, t.fingers[0], t.fingers[1]) >= 1.0
  {
  }

  /** Three fingers are never a click, and while two of them are left they do not zoom. */
  lemma ThreeFingersOnlyScroll(hypot: Hypot, s: State, two: Input, last: Input)
    requires s.maxFingers >= 3 && |two.fingers| == 2 && last.fingers == []
    ensures var u := OnMove(hypot, s, two); u.scale == s.scale && u.pan == s.pan && u.sent == s.sent
    ensures !s.dragging ==> OnEnd(s, last).sent == s.sent
  {
    hide Apart, Middle2;
  }

  /** After a finger has lifted, the next pinch starts afresh. */
  lemma NoLurch(hypot: Hypot, s: State, up: Input, two: Input)
    requires up.fingers != [] && |two.fingers| == 2
    ensures var u := OnMove(hypot, OnEnd(s, up), two); u.scale == s.scale && u.pan == s.pan
  {
    hide Apart, Middle2;
  }

  /** A zoom of nearly 1 is taken back to exactly 1 with the last lift; any other stays. */
  lemma ZoomSnaps(s: State, last: Input)
    requires last.fingers == []
    ensures var u := OnEnd(s, last);
      if s.scale <= 1.0001 then u.scale == 1.0 && u.pan == Pt(0.0, 0.0) else u.scale == s.scale && u.pan == s.pan
  {
    hide Norm, Unit;
  }

  /** The zoom is the one in [1, 8] that is nearest to what the fingers ask for. */
  lemma ZoomIsNearest(scale: Zoom, from: real, to: real, z: real)
    requires from > 0.0 && 1.0 <= z <= 8.0
    ensures var want, got := scale * (to / from), Zoomed(scale, from, to);
      1.0 <= got <= 8.0 && MaxReal(got - want, want - got) <= MaxReal(z - want, want - z)
  {
  }

  // ---------------------------------------------------------------- pinching

  /** The content under the centroid of the fingers. */
  function Grabbed(s: State, origin: Pt): Pt {
    Pt(Content(s.pinchCen.x - origin.x, s.pan.x, s.scale), Content(s.pinchCen.y - origin.y, s.pan.y, s.scale))
  }

  predicate Pinching(s: State) {
    s.maxFingers < 3 && s.pinchDist > 0.0
  }

  lemma ContentBack(at: real, scale: Zoom, q: real)
    ensures Content(at, PanFor(at, scale, q), scale) == q
  {
    Divided(q, scale);
    assert at - (at - scale * q) == q * scale;
  }

  lemma PinchStep(hypot: Hypot, s: State, t: Input)
    requires Pinching(s) && |t.fingers| == 2
    ensures var u := OnMove(hypot, s, t);
      && Pinching(u) && Grabbed(u, t.origin) == Grabbed(s, t.origin)
      && u.pinchDist == Apart(hypot, t.fingers[0], t.fingers[1]) && u.pinchDist >= 1.0
      && IsCentroid(u.pinchCen, t.fingers)
      && u.scale == Zoomed(s.scale, s.pinchDist, u.pinchDist)
  {
    var q := Grabbed(s, t.origin);
    var cen := Middle2(t.fingers[0], t.fingers[1]);
    var scale := Zoomed(s.scale, s.pinchDist, Apart(hypot, t.fingers[0], t.fingers[1]));
    assert IsCentroid(cen, t.fingers);
    hide Content, Zoomed, Middle2, PanFor, IsCentroid;
    ContentBack(cen.x - t.origin.x, scale, q.x);
    ContentBack(cen.y - t.origin.y, scale, q.y);
  }

  /** However the fingers move, the content first grabbed stays under their centroid. */
  lemma {:induction false} PinchKeepsGrab(hypot: Hypot, s: State, ts: seq<Input>, origin: Pt)
    requires Pinching(s) && forall t | t in ts :: |t.fingers| == 2 && t.origin == origin
    ensures var u := Tracked(hypot, s, ts);
      && Pinching(u) && Grabbed(u, origin) == Grabbed(s, origin)
      && (ts != [] ==> IsCentroid(u.pinchCen, ts[|ts| - 1].fingers))
  {
    if ts != [] {
      hide Grabbed, OnMove;
      PinchKeepsGrab(hypot, s, ts[..|ts| - 1], origin);
      PinchStep(hypot, Tracked(hypot, s, ts[..|ts| - 1]), ts[|ts| - 1]);
    }
  }

  /** Half way between two fingers. */
  predicate IsCentroid(c: Pt, fingers: seq<Pt>)
    requires |fingers| == 2
  {
    c.x - fingers[0].x == fingers[1].x - c.x && c.y - fingers[0].y == fingers[1].y - c.y
  }

  lemma Telescopes(scale: real, first: real, before: real, now: real)
    requires first > 0.0 && before > 0.0
    ensures Stretch(Stretch(scale, first, before), before, now) == Stretch(scale, first, now)
  {
    var r, q := before / first, now / before;
    Divided(before, first);
    Divided(now, before);
    assert (r * q) * first == now by {
      assert r * first == before && q * before == now;
    }
    Divided(r * q, first);
  }

  /** While no step asks for a zoom outside [1, 8], the zoom is the first one times how far
      apart the fingers are now over how far apart they were. */
  lemma {:induction false} PinchScales(hypot: Hypot, s: State, ts: seq<Input>, origin: Pt)
    requires Pinching(s) && forall t | t in ts :: |t.fingers| == 2 && t.origin == origin
    requires forall t | t in ts :: 1.0 <= Stretch(s.scale, s.pinchDist, Apart(hypot, t.fingers[0], t.fingers[1])) <= MAX_ZOOM
    ensures Tracked(hypot, s, ts).pinchDist > 0.0
    ensures Tracked(hypot, s, ts).scale == Stretch(s.scale, s.pinchDist, Tracked(hypot, s, ts).pinchDist)
    ensures ts != [] ==>
      var f := ts[|ts| - 1].fingers;
      Tracked(hypot, s, ts).pinchDist == MaxReal(hypot(f[0].x - f[1].x, f[0].y - f[1].y), 1.0)
  {
    if ts != [] {
      hide OnMove, Grabbed, Apart, Stretch;
      var before, t := ts[..|ts| - 1], ts[|ts| - 1];
      PinchScales(hypot, s, before, origin);
      PinchKeepsGrab(hypot, s, before, origin);
      var u := Tracked(hypot, s, before);
      PinchStep(hypot, u, t);
      Telescopes(s.scale, s.pinchDist, u.pinchDist, Apart(hypot, t.fingers[0], t.fingers[1]));
    } else {
      SameRatio(s.scale, s.pinchDist);
    }
  }

  lemma SameRatio(scale: real, dist: real)
    requires dist > 0.0
    ensures Stretch(scale, dist, dist) == scale
  {
  }

  // ---------------------------------------------------------------- swiping

  /** All scrolling that was sent. */
  function Scrolled(sent: seq<Msg>): Pt {
    if sent == [] then ORIGIN
    else
      var before, m := Scrolled(sent[..|sent| - 1]), sent[|sent| - 1];
      if m.Scroll? then Pt(before.x + m.dx, before.y + m.dy) else before
  }

  lemma ScrollStep(hypot: Hypot, s: State, t: Input)
    requires |t.fingers| >= 3
    ensures var u, d := OnMove(hypot, s, t), Wheel(t.view, s.prev, t.fingers[0]);
      u.prev == t.fingers[0] && Scrolled(u.sent) == Pt(Scrolled(s.sent).x + d.x, Scrolled(s.sent).y + d.y)
  {
    hide Wheel;
    var d := Wheel(t.view, s.prev, t.fingers[0]);
    assert (s.sent + [Scroll(d.x, d.y)])[..|s.sent|] == s.sent;
  }

  lemma WheelIs(v: View, a: Pt, b: Pt)
    ensures Wheel(v, a, b) == RotDelta(v, Pt(3.0 * (b.x - a.x), 3.0 * (b.y - a.y)))
  {
  }

  lemma WheelAdds(v: View, a: Pt, b: Pt, c: Pt)
    ensures Pt(Wheel(v, a, b).x + Wheel(v, b, c).x, Wheel(v, a, b).y + Wheel(v, b, c).y) == Wheel(v, a, c)
    ensures Wheel(v, a, a) == ORIGIN
  {
  }

  /** A three-finger swipe scrolls by what the primary finger moved in all, turned into the
      host's orientation: no step of it is lost or counted twice. */
  lemma {:induction false} SwipeScrolls(hypot: Hypot, s: State, ts: seq<Input>, v: View)
    requires forall t | t in ts :: |t.fingers| >= 3 && t.view == v
    ensures var u := Tracked(hypot, s, ts);
      var d := RotDelta(v, Pt(3.0 * (u.prev.x - s.prev.x), 3.0 * (u.prev.y - s.prev.y)));
      Scrolled(u.sent) == Pt(Scrolled(s.sent).x + d.x, Scrolled(s.sent).y + d.y)
    ensures Tracked(hypot, s, ts).prev == if ts == [] then s.prev else ts[|ts| - 1].fingers[0]
  {
    WheelIs(v, s.prev, Tracked(hypot, s, ts).prev);
    hide OnMove, Wheel, Scrolled, RotDelta;
    WheelAdds(v, s.prev, s.prev, s.prev);
    if ts != [] {
      WheelIs(v, s.prev, Tracked(hypot, s, ts[..|ts| - 1]).prev);
      var before, t := ts[..|ts| - 1], ts[|ts| - 1];
      SwipeScrolls(hypot, s, before, v);
      ScrollStep(hypot, Tracked(hypot, s, before), t);
      WheelAdds(v, s.prev, Tracked(hypot, s, before).prev, t.fingers[0]);
    }
  }

  /** Where the cursor would be if the finger had gone straight to `to`. */
  function Dragged(s: State, v: View, to: Pt): Pt {
    Pt(s.cursor.x + (Norm(v, to).x - Norm(v, s.prev).x), s.cursor.y + (Norm(v, to).y - Norm(v, s.prev).y))
  }

  /** A one-finger drag moves the cursor by what the finger moved in all, as long as it
      stays on the screen, and tells the host where it is. */
  lemma {:induction false} DragMovesCursor(hypot: Hypot, s: State, ts: seq<Input>, v: View)
    requires forall t | t in ts :: |t.fingers| == 1 && t.view == v
    requires forall t | t in ts :: OnScreen(Dragged(s, v, t.fingers[0]))
    ensures var u := Tracked(hypot, s, ts);
      && u.prev == (if ts == [] then s.prev else ts[|ts| - 1].fingers[0])
      && u.cursor == Dragged(s, v, u.prev)
      && (ts != [] ==> u.sent != [] && u.sent[|u.sent| - 1] == Moved(u.cursor))
  {
    hide Norm;
    if ts != [] {
      DragMovesCursor(hypot, s, ts[..|ts| - 1], v);
    }
  }
}
