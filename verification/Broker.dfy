/**
 The broker: capture agents come and go while one viewer watches; the newest agent
 to introduce itself is the provider. Every arm of the event loop is one atomic step.
 */
module Broker {
  import opened Prelude

  /** Value of the shared `active_id` when there is no provider. */
  const NO_AGENT: nat := 0xFFFF_FFFF_FFFF_FFFF
  const GENERATIONS: nat := 0x1_0000_0000_0000_0000

  datatype Display = Display(id: nat, width: nat, height: nat, name: string, primary: bool)
  datatype Rect = Rect(ox: int, oy: int, mw: int, mh: int, dw: int, dh: int)
  datatype Frame = Frame(annexb: Bytes, keyframe: bool, ts: nat)

  /** Broker to agent. */
  datatype BrokerMsg =
    | Capturing(on: bool)
    | Bitrate(bps: nat)
    | ForceKeyframe
    | SelectDisplay(display: nat)
    | ShowCursor(show: bool)

  /** What the event loop wakes up for, and a frame read by an agent's connection. */
  datatype Event =
    | Accept(permitted: bool)
    | Hello(id: nat, rect: Option<Rect>, displays: seq<Display>)
    | Displays(id: nat, displays: seq<Display>)
    | Closed(id: nat)
    | Video(id: nat, frame: Frame)
    | SetCapturing(on: bool)
    | Select(display: nat)
    | SetShowCursor(show: bool)
    | Keyframe
    | Tick(bps: nat)

  datatype Forwarded = Forwarded(id: nat, frame: Frame)

  /** `sent` is everything ever queued to each agent, `video` everything handed to the
      transport, `providers` the agents that became the provider, oldest first. */
  datatype State = State(
    active: Option<nat>,
    activeId: nat,
    pending: set<nat>,
    capturing: bool,
    nextId: nat,
    displays: seq<Display>,
    rect: Option<Rect>,
    generation: nat,
    sent: map<nat, seq<BrokerMsg>>,
    video: seq<Forwarded>,
    providers: seq<nat>
  )

  const INITIAL: State := State(None, NO_AGENT, {}, false, 0, [], None, 0, map[], [], [])

  /** A counter of 64 bits. */
  function Wrapped(n: nat): nat { n % GENERATIONS }

  function Bump(generation: nat): nat { Wrapped(generation + 1) }

  /** Queues messages to the provider, if there is one. */
  function ToActive(s: State, msgs: seq<BrokerMsg>): State {
    if s.active.Some? && s.active.value in s.sent
    then s.(sent := s.sent[s.active.value := s.sent[s.active.value] + msgs])
    else s
  }

  function OnAccept(s: State, permitted: bool): State {
    if permitted then s.(pending := s.pending + {s.nextId}, sent := s.sent[s.nextId := []], nextId := s.nextId + 1) else s
  }

  function Promoted(s: State, id: nat, rect: Option<Rect>, displays: seq<Display>): State {
    s.(pending := s.pending - {id}, displays := displays, rect := rect, generation := Bump(s.generation),
       activeId := id, active := Some(id), providers := s.providers + [id])
  }

  /** The last to introduce itself wins; it starts capturing at once if a viewer watches. */
  function OnHello(s: State, id: nat, rect: Option<Rect>, displays: seq<Display>): State {
    if id !in s.pending then s
    else if s.capturing then ToActive(Promoted(s, id, rect, displays), [Capturing(true), ForceKeyframe])
    else Promoted(s, id, rect, displays)
  }

  function OnDisplays(s: State, id: nat, displays: seq<Display>): State {
    if s.activeId == id then s.(displays := displays) else s
  }

  function OnClosed(s: State, id: nat): State {
    var t := s.(pending := s.pending - {id});
    if s.active == Some(id)
    then t.(active := None, activeId := NO_AGENT, displays := [], generation := Bump(s.generation))
    else t
  }

  function OnVideo(s: State, id: nat, frame: Frame): State {
    if s.activeId == id then s.(video := s.video + [Forwarded(id, frame)]) else s
  }

  function Next(s: State, e: Event): State {
    match e
    case Accept(permitted) => OnAccept(s, permitted)
    case Hello(id, rect, displays) => OnHello(s, id, rect, displays)
    case Displays(id, displays) => OnDisplays(s, id, displays)
    case Closed(id) => OnClosed(s, id)
    case Video(id, frame) => OnVideo(s, id, frame)
    case SetCapturing(on) => ToActive(s.(capturing := on), [Capturing(on)])
    case Select(display) => ToActive(s, [SelectDisplay(display)])
    case SetShowCursor(show) => ToActive(s, [ShowCursor(show)])
    case Keyframe => ToActive(s, [ForceKeyframe])
    case Tick(bps) => if s.capturing then ToActive(s, [Bitrate(bps)]) else s
  }

  lemma ToActiveTwice(s: State, a: BrokerMsg, b: BrokerMsg)
    ensures ToActive(ToActive(s, [a]), [b]) == ToActive(s, [a, b])
  {
    if s.active.Some? && s.active.value in s.sent {
      var q := s.sent[s.active.value];
      assert q + [a] + [b] == q + [a, b];
      assert ToActive(ToActive(s, [a]), [b]).sent == ToActive(s, [a, b]).sent;
    }
  }

  // ---------------------------------------------------------------- the event loop

  class EventLoop {
    var active: Option<nat>
    var activeId: nat
    var pending: map<nat, seq<BrokerMsg>>
    var capturing: bool
    var nextId: nat
    var displays: seq<Display>
    var rect: Option<Rect>
    var generation: nat
    var queue: map<nat, seq<BrokerMsg>>
    var video: seq<Forwarded>
    ghost var providers: seq<nat>

    ghost function Snapshot(): State
      reads this
    {
      State(active, activeId, pending.Keys, capturing, nextId, displays, rect, generation, queue, video, providers)
    }

    constructor ()
      ensures Snapshot() == INITIAL
    {
      active, activeId, pending, capturing, nextId := None, NO_AGENT, map[], false, 0;
      displays, rect, generation, queue, video, providers := [], None, 0, map[], [], [];
    }

    method Send(msg: BrokerMsg)
      modifies this`queue
      ensures Snapshot() == ToActive(old(Snapshot()), [msg])
    {
      if active.Some? && active.value in queue {
        queue := queue[active.value := queue[active.value] + [msg]];
      }
    }

    method OnAcceptEvent(permitted: bool)
      modifies this
      ensures Snapshot() == OnAccept(old(Snapshot()), permitted)
    {
      if permitted {
        var id := nextId;
        nextId := nextId + 1;
        queue := queue[id := []];
        pending := pending[id := []];
      }
    }

    method Promote(id: nat, r: Option<Rect>, ds: seq<Display>)
      modifies this
      ensures Snapshot() == Promoted(old(Snapshot()), id, r, ds) && capturing == old(capturing)
    {
      pending := pending - {id};
      displays, rect := ds, r;
      generation := (generation + 1) % GENERATIONS;
      activeId := id;
      active := Some(id);
      providers := providers + [id];
    }

    method OnHelloEvent(id: nat, r: Option<Rect>, ds: seq<Display>)
      modifies this
      ensures Snapshot() == OnHello(old(Snapshot()), id, r, ds)
    {
      if id !in pending {
        return;
      }
      Promote(id, r, ds);
      hide Promoted;
      if capturing {
        ToActiveTwice(Snapshot(), Capturing(true), ForceKeyframe);
        Send(Capturing(true));
        Send(ForceKeyframe);
      }
    }

    method OnDisplaysEvent(id: nat, ds: seq<Display>)
      modifies this
      ensures Snapshot() == OnDisplays(old(Snapshot()), id, ds)
    {
      if activeId == id {
        displays := ds;
      }
    }

    method OnClosedEvent(id: nat)
      modifies this
      ensures Snapshot() == OnClosed(old(Snapshot()), id)
    {
      pending := pending - {id};
      if active == Some(id) {
        active := None;
        activeId := NO_AGENT;
        displays := [];
        generation := (generation + 1) % GENERATIONS;
      }
    }

    method OnVideoFrame(id: nat, frame: Frame)
      modifies this
      ensures Snapshot() == OnVideo(old(Snapshot()), id, frame)
    {
      if activeId == id {
        video := video + [Forwarded(id, frame)];
      }
    }

    /** One turn of the loop. */
    method Turn(e: Event)
      modifies this
      ensures Snapshot() == Next(old(Snapshot()), e)
    {
      match e {
        case Accept(permitted) => OnAcceptEvent(permitted);
        case Hello(id, r, ds) => OnHelloEvent(id, r, ds);
        case Displays(id, ds) => OnDisplaysEvent(id, ds);
        case Closed(id) => OnClosedEvent(id);
        case Video(id, frame) => OnVideoFrame(id, frame);
        case SetCapturing(on) => {
          capturing := on;
          Send(Capturing(on));
        }
        case Select(display) => Send(SelectDisplay(display));
        case SetShowCursor(show) => Send(ShowCursor(show));
        case Keyframe => Send(ForceKeyframe);
        case Tick(bps) =>
          if capturing {
            Send(Bitrate(bps));
          }
      }
    }
  }

  // ---------------------------------------------------------------- runs

  /** Agents are numbered as they are accepted, and fewer than NO_AGENT of them ever are. */
  predicate Enabled(s: State, e: Event) {
    match e
    case Accept(_) => s.nextId < NO_AGENT
    case Hello(id, _, _) => id < s.nextId
    case Displays(id, _) => id < s.nextId
    case Closed(id) => id < s.nextId
    case Video(id, _) => id < s.nextId
    case _ => true
  }

  /** The state after a list of events. */
  function After(events: seq<Event>): State {
    if events == [] then INITIAL else Next(After(events[..|events| - 1]), events[|events| - 1])
  }

  ghost predicate IsRun(events: seq<Event>) {
    events == [] || (IsRun(events[..|events| - 1]) && Enabled(After(events[..|events| - 1]), events[|events| - 1]))
  }

  lemma {:induction false} PrefixIsRun(events: seq<Event>, n: nat)
    requires IsRun(events) && n <= |events|
    ensures IsRun(events[..n])
  {
    if n < |events| {
      var shorter := events[..|events| - 1];
      PrefixIsRun(shorter, n);
      assert shorter[..n] == events[..n];
    } else {
      assert events[..n] == events;
    }
  }

  lemma NextAfter(events: seq<Event>, n: nat)
    requires n < |events|
    ensures After(events[..n + 1]) == Next(After(events[..n]), events[n])
  {
    assert events[..n + 1][..n] == events[..n];
  }

  /** What the messages queued to an agent leave it doing. */
  function Fold(msgs: seq<BrokerMsg>): bool {
    if msgs == [] then false
    else if msgs[|msgs| - 1].Capturing? then msgs[|msgs| - 1].on
    else Fold(msgs[..|msgs| - 1])
  }

  /** Agents are served in the order in which they became the provider. */
  ghost predicate InBlocks(video: seq<Forwarded>, providers: seq<nat>) {
    && (forall i | 0 <= i < |video| :: video[i].id in providers)
    && forall i, j, p, q | 0 <= i < j < |video| && 0 <= p < |providers| && 0 <= q < |providers| ::
         video[i].id == providers[p] && video[j].id == providers[q] ==> p <= q
  }

  predicate Distinct(ids: seq<nat>) {
    forall i, j | 0 <= i < j < |ids| :: ids[i] != ids[j]
  }

  ghost predicate Numbering(s: State) {
    && s.nextId <= NO_AGENT
    && (forall id: nat :: id in s.sent <==> id < s.nextId)
    && (forall id | id in s.pending :: id < s.nextId && id !in s.providers)
    && (forall i | 0 <= i < |s.providers| :: s.providers[i] < s.nextId)
    && Distinct(s.providers)
  }

  ghost predicate Agreement(s: State) {
    && (s.active.None? ==> s.activeId == NO_AGENT && s.displays == [])
    && (s.active.Some? ==> s.activeId == s.active.value && s.providers != [] &&
                           s.providers[|s.providers| - 1] == s.active.value)
  }

  ghost predicate Control(s: State) {
    && (forall id | id in s.pending && id in s.sent :: s.sent[id] == [])
    && (s.active.Some? && s.active.value in s.sent ==> Fold(s.sent[s.active.value]) == s.capturing)
  }

  ghost predicate Inv(s: State) {
    Numbering(s) && Agreement(s) && Control(s) && InBlocks(s.video, s.providers)
  }

  lemma FoldAppend(msgs: seq<BrokerMsg>, m: BrokerMsg)
    ensures Fold(msgs + [m]) == if m.Capturing? then m.on else Fold(msgs)
  {
    assert (msgs + [m])[..|msgs|] == msgs;
  }

  lemma FoldStart()
    ensures Fold([] + [Capturing(true), ForceKeyframe])
  {
    FoldAppend([Capturing(true)], ForceKeyframe);
    FoldAppend([], Capturing(true));
    assert [] + [Capturing(true), ForceKeyframe] == [Capturing(true)] + [ForceKeyframe];
    assert [] + [Capturing(true)] == [Capturing(true)];
  }

  /** Queueing one message. */
  lemma ToActiveKeepsInv(s: State, m: BrokerMsg)
    requires Numbering(s) && Agreement(s) && InBlocks(s.video, s.providers)
    requires forall id | id in s.pending && id in s.sent :: s.sent[id] == []
    requires s.active.Some? && s.active.value in s.sent ==>
               s.capturing == if m.Capturing? then m.on else Fold(s.sent[s.active.value])
    ensures Inv(ToActive(s, [m]))
  {
    if s.active.Some? && s.active.value in s.sent {
      FoldAppend(s.sent[s.active.value], m);
      assert s.active.value in s.providers;
    }
  }

  lemma HelloKeepsInv(s: State, id: nat, rect: Option<Rect>, displays: seq<Display>)
    requires Inv(s) && id in s.pending
    ensures Inv(OnHello(s, id, rect, displays))
  {
    var t := OnHello(s, id, rect, displays);
    assert s.sent[id] == [];
    FoldStart();
    assert t.providers == s.providers + [id];
    assert forall x :: x in t.providers <==> x in s.providers || x == id;
    assert t.sent[id] == if s.capturing then [] + [Capturing(true), ForceKeyframe] else [];
    assert InBlocks(t.video, t.providers) by {
      forall i, j, p, q | 0 <= i < j < |t.video| && 0 <= p < |t.providers| && 0 <= q < |t.providers|
        && t.video[i].id == t.providers[p] && t.video[j].id == t.providers[q]
        ensures p <= q
      {
        assert s.video[i].id in s.providers && s.video[j].id in s.providers;
        assert id !in s.providers;
      }
    }
  }

  lemma VideoKeepsInv(s: State, id: nat, frame: Frame)
    requires Inv(s) && id < s.nextId
    ensures Inv(OnVideo(s, id, frame))
  {
    if s.activeId == id {
      assert s.active == Some(id);
    }
  }

  lemma StepKeepsInv(s: State, e: Event)
    requires Inv(s) && Enabled(s, e)
    ensures Inv(Next(s, e))
  {
    match e {
      case Accept(permitted) =>
        assert forall i | 0 <= i < |s.providers| :: s.providers[i] != s.nextId;
        assert s.nextId !in s.providers;
      case Hello(id, rect, displays) =>
        if id in s.pending {
          HelloKeepsInv(s, id, rect, displays);
        }
      case Displays(id, displays) =>
      case Closed(id) =>
      case Video(id, frame) =>
        VideoKeepsInv(s, id, frame);
      case SetCapturing(on) =>
        ToActiveKeepsInv(s.(capturing := on), Capturing(on));
      case Select(display) =>
        ToActiveKeepsInv(s, SelectDisplay(display));
      case SetShowCursor(show) =>
        ToActiveKeepsInv(s, ShowCursor(show));
      case Keyframe =>
        ToActiveKeepsInv(s, ForceKeyframe);
      case Tick(bps) =>
        if s.capturing {
          ToActiveKeepsInv(s, Bitrate(bps));
        }
    }
  }

  /** In every run `active` and `active_id` agree, the messages queued to the provider
      fold to the capturing flag, and video is forwarded in Hello order. */
  lemma {:induction false} RunKeepsInv(events: seq<Event>)
    requires IsRun(events)
    ensures Inv(After(events))
  {
    hide Inv, Next, Enabled;
    if events == [] {
      InitialInv();
    } else {
      RunKeepsInv(events[..|events| - 1]);
      StepKeepsInv(After(events[..|events| - 1]), events[|events| - 1]);
    }
  }

  lemma InitialInv()
    ensures Inv(INITIAL)
  {
  }

  /** The provider's queue always says what the viewer wants, and an agent that waits has
      been told nothing. */
  lemma ControlFollowsViewer(events: seq<Event>, id: nat)
    requires IsRun(events)
    ensures var s := After(events);
      && (s.active == Some(id) ==> id in s.sent && Fold(s.sent[id]) == s.capturing && s.activeId == id)
      && (s.active.None? ==> s.activeId == NO_AGENT)
      && (id in s.pending ==> id in s.sent && s.sent[id] == [])
  {
    hide After;
    RunKeepsInv(events);
    assert After(events).active == Some(id) ==> id in After(events).providers;
  }

  /** Video reaches the viewer in the order in which the agents became the provider, one
      uninterrupted block for each. */
  lemma VideoInHelloOrder(events: seq<Event>, i: nat, j: nat, p: nat, q: nat)
    requires IsRun(events) && i < j < |After(events).video| && p < |After(events).providers| && q < |After(events).providers|
    requires After(events).video[i].id == After(events).providers[p] && After(events).video[j].id == After(events).providers[q]
    ensures p <= q && Distinct(After(events).providers)
  {
    hide After, Distinct;
    RunKeepsInv(events);
  }

  /** What the viewer last asked for. */
  function Wanted(events: seq<Event>): bool {
    if events == [] then false
    else if events[|events| - 1].SetCapturing? then events[|events| - 1].on
    else Wanted(events[..|events| - 1])
  }

  /** The flag is the viewer's last word, whichever agents come and go. */
  lemma {:induction false} CapturingIsViewers(events: seq<Event>)
    ensures After(events).capturing == Wanted(events)
  {
    if events != [] {
      CapturingIsViewers(events[..|events| - 1]);
    }
  }

  // ---------------------------------------------------------------- handover

  /** The agent has been the provider, or has gone, and is not the provider any more. */
  ghost predicate Past(s: State, a: nat) {
    a < s.nextId && a !in s.pending && s.active != Some(a)
  }

  lemma StepKeepsPast(s: State, e: Event, a: nat)
    requires Past(s, a)
    ensures Past(Next(s, e), a)
    ensures a in s.sent ==> a in Next(s, e).sent && Next(s, e).sent[a] == s.sent[a]
    ensures s.activeId != a && a != NO_AGENT && Next(s, e).video != s.video ==> Next(s, e).video[|Next(s, e).video| - 1].id != a
  {
  }

  lemma {:induction false} PastForever(events: seq<Event>, a: nat, i: nat, k: nat)
    requires IsRun(events) && i <= k <= |events| && Past(After(events[..i]), a)
    ensures Past(After(events[..k]), a)
    ensures a in After(events[..i]).sent && a in After(events[..k]).sent
    ensures After(events[..k]).sent[a] == After(events[..i]).sent[a]
    decreases k - i
  {
    PrefixIsRun(events, i);
    RunKeepsInv(events[..i]);
    hide Next, After;
    if i < k {
      NextAfter(events, i);
      StepKeepsPast(After(events[..i]), events[i], a);
      PastForever(events, a, i + 1, k);
    }
  }

  /** An agent is the provider during one interval of the run at most: once it has been
      and is not, it never is again, and nothing more is queued to it. */
  lemma OneInterval(events: seq<Event>, a: nat, i: nat, j: nat, k: nat)
    requires IsRun(events) && i <= j <= k <= |events|
    requires After(events[..i]).active == Some(a) && After(events[..j]).active != Some(a)
    ensures After(events[..k]).active != Some(a)
    ensures a in After(events[..j]).sent && a in After(events[..k]).sent
    ensures After(events[..k]).sent[a] == After(events[..j]).sent[a]
  {
    hide Next, After;
    ActiveThenPast(events, a, i, j);
    PastForever(events, a, j, k);
  }

  /** An agent whose connection has closed never becomes the provider afterwards, whether
      it was waiting or had been, and nothing more is queued to it. */
  lemma GoneForGood(events: seq<Event>, a: nat, i: nat, k: nat)
    requires IsRun(events) && i < k <= |events| && events[i] == Closed(a)
    ensures After(events[..k]).active != Some(a) && a !in After(events[..k]).pending
    ensures a in After(events[..i + 1]).sent && a in After(events[..k]).sent
    ensures After(events[..k]).sent[a] == After(events[..i + 1]).sent[a]
  {
    hide Next, After, IsRun, Enabled;
    ClosingIsPast(events, a, i);
    PastForever(events, a, i + 1, k);
  }

  lemma ClosingIsPast(events: seq<Event>, a: nat, i: nat)
    requires IsRun(events) && i < |events| && events[i] == Closed(a)
    ensures Past(After(events[..i + 1]), a)
  {
    PrefixIsRun(events, i + 1);
    NextAfter(events, i);
    assert events[..i + 1][..i] == events[..i];
    hide After;
  }

  lemma {:induction false} ActiveThenPast(events: seq<Event>, a: nat, i: nat, j: nat)
    requires IsRun(events) && i <= j <= |events|
    requires After(events[..i]).active == Some(a) && After(events[..j]).active != Some(a)
    ensures Past(After(events[..j]), a)
    decreases j - i
  {
    hide After;
    PrefixIsRun(events, i);
    RunKeepsInv(events[..i]);
    if i < j {
      NextAfter(events, i);
      var s, t := After(events[..i]), After(events[..i + 1]);
      assert a in s.providers;
      if t.active == Some(a) {
        ActiveThenPast(events, a, i + 1, j);
      } else {
        LeavingIsPast(s, events[i], a);
        PastForever(events, a, i + 1, j);
      }
    }
  }

  lemma LeavingIsPast(s: State, e: Event, a: nat)
    requires Inv(s) && s.active == Some(a) && Next(s, e).active != Some(a)
    ensures Past(Next(s, e), a)
  {
    assert a in s.providers;
  }

  lemma UnsentStep(s: State, e: Event, a: nat)
    requires Inv(s) && Enabled(s, e) && a < s.nextId && Next(s, e).active != Some(a)
    ensures a < Next(s, e).nextId && Next(s, e).sent[a] == s.sent[a]
  {
  }

  /** Only the provider is ever sent anything: over any stretch of any run during which an
      agent is not the provider, its queue stays as it is. */
  lemma {:induction false} OnlyProviderIsSent(events: seq<Event>, a: nat, i: nat)
    requires IsRun(events) && i <= |events| && a < After(events[..i]).nextId
    requires forall j | i < j <= |events| :: After(events[..j]).active != Some(a)
    ensures a in After(events[..i]).sent && a in After(events).sent
    ensures After(events).sent[a] == After(events[..i]).sent[a] && a < After(events).nextId
  {
    hide After, Next, Enabled, Fold, InBlocks, Distinct;
    RunKeepsInv(events);
    PrefixIsRun(events, i);
    RunKeepsInv(events[..i]);
    assert events[..|events|] == events;
    if i < |events| {
      var shorter := events[..|events| - 1];
      assert forall j | 0 <= j <= |shorter| :: shorter[..j] == events[..j];
      OnlyProviderIsSent(shorter, a, i);
      RunKeepsInv(shorter);
      NextAfter(events, |events| - 1);
      UnsentStep(After(shorter), events[|events| - 1], a);
    }
  }

  /** What a command of the viewer, or a bitrate tick, tells the provider. */
  function Order(s: State, e: Event): seq<BrokerMsg> {
    match e
    case SetCapturing(on) => [Capturing(on)]
    case Select(display) => [SelectDisplay(display)]
    case SetShowCursor(show) => [ShowCursor(show)]
    case Keyframe => [ForceKeyframe]
    case Tick(bps) => if s.capturing then [Bitrate(bps)] else []
    case _ => []
  }

  /** The orders given from event `from` on. */
  function Orders(events: seq<Event>, from: nat): seq<BrokerMsg> {
    if |events| <= from then []
    else Orders(events[..|events| - 1], from) + Order(After(events[..|events| - 1]), events[|events| - 1])
  }

  lemma OrderStep(s: State, e: Event, a: nat)
    requires Inv(s) && Enabled(s, e) && s.active == Some(a) && Next(s, e).active == Some(a)
    ensures a in s.sent && a in Next(s, e).sent && Next(s, e).sent[a] == s.sent[a] + Order(s, e)
  {
    hide InBlocks, Distinct, Fold;
    assert a in s.providers;
    assert s.sent[a] + [] == s.sent[a];
  }

  /** The agent has been the provider since event `from`. */
  ghost predicate ProviderSince(events: seq<Event>, a: nat, from: nat) {
    After(events).active == Some(a) && (|events| > from ==> ProviderSince(events[..|events| - 1], a, from))
  }

  /** While an agent is the provider its queue grows by exactly the viewer's orders, all of
      them and in order. */
  lemma {:induction false} QueueIsOrders(events: seq<Event>, a: nat, from: nat)
    requires IsRun(events) && from <= |events| && ProviderSince(events, a, from)
    ensures a in After(events[..from]).sent && a in After(events).sent
    ensures After(events).sent[a] == After(events[..from]).sent[a] + Orders(events, from)
  {
    RunKeepsInv(events);
    ProviderIsSent(After(events), a);
    hide Inv, Next, Order, Enabled;
    if from < |events| {
      var shorter, e := events[..|events| - 1], events[|events| - 1];
      assert shorter[..from] == events[..from];
      QueueIsOrders(shorter, a, from);
      RunKeepsInv(shorter);
      var s := After(shorter);
      assert After(events) == Next(s, e) && s.active == Some(a) && Enabled(s, e);
      OrderStep(s, e, a);
      OrdersStep(events, from);
      hide After, IsRun, ProviderSince, Orders;
      Regroup(After(events[..from]).sent[a], Orders(shorter, from), Order(s, e));
    } else {
      assert events[..from] == events && Orders(events, from) == [];
      hide After, Orders;
    }
  }

  /** Everything a provider is ever told: when it takes over, the capturing flag with a
      request for a keyframe, or nothing; then the orders given since. Neither the display
      selected before nor the cursor setting is sent again. */
  lemma HelloReplays(events: seq<Event>, i: nat)
    requires IsRun(events) && i < |events| && events[i].Hello? && events[i].id in After(events[..i]).pending
    requires ProviderSince(events, events[i].id, i + 1)
    ensures var s, id := After(events[..i]), events[i].id;
      && id in After(events).sent
      && After(events).sent[id] == (if s.capturing then [Capturing(true), ForceKeyframe] else []) + Orders(events, i + 1)
  {
    var s, e := After(events[..i]), events[i];
    PrefixIsRun(events, i);
    RunKeepsInv(events[..i]);
    NextAfter(events, i);
    HelloIsTold(s, e.id, e.rect, e.displays);
    QueueIsOrders(events, e.id, i + 1);
  }

  lemma HelloIsTold(s: State, id: nat, rect: Option<Rect>, displays: seq<Display>)
    requires Inv(s) && id in s.pending
    ensures var t := OnHello(s, id, rect, displays);
      id in t.sent && t.sent[id] == if s.capturing then [Capturing(true), ForceKeyframe] else []
  {
    assert [] + [Capturing(true), ForceKeyframe] == [Capturing(true), ForceKeyframe];
  }

  lemma OrdersStep(events: seq<Event>, from: nat)
    requires from < |events|
    ensures var shorter := events[..|events| - 1];
      Orders(events, from) == Orders(shorter, from) + Order(After(shorter), events[|events| - 1])
  {
    hide After, Order;
  }

  lemma Regroup<T>(a: seq<T>, b: seq<T>, c: seq<T>)
    ensures a + b + c == a + (b + c)
  {
  }

  lemma ProviderIsSent(s: State, a: nat)
    requires Inv(s) && s.active == Some(a)
    ensures a in s.sent
  {
    assert a in s.providers;
  }

  // ---------------------------------------------------------------- frames

  /** Frames read from one agent, and those of them forwarded to the viewer. */
  function FramesFrom(events: seq<Event>, a: nat): seq<Frame> {
    if events == [] then []
    else
      var e := events[|events| - 1];
      FramesFrom(events[..|events| - 1], a) + if e.Video? && e.id == a then [e.frame] else []
  }

  function FramesOf(video: seq<Forwarded>, a: nat): seq<Frame> {
    if video == [] then []
    else
      var f := video[|video| - 1];
      FramesOf(video[..|video| - 1], a) + if f.id == a then [f.frame] else []
  }

  /** `part` is a contiguous stretch of `all`; while the agent is the provider it
      reaches to the end, before that it is empty. */
  ghost predicate Stretch(active: bool, known: bool, part: seq<Frame>, all: seq<Frame>) {
    exists lo: nat, hi: nat ::
      lo <= hi <= |all| && part == all[lo..hi] && (active ==> hi == |all|) && (!known ==> lo == hi)
  }

  lemma StretchFrom(active: bool, known: bool, part: seq<Frame>, all: seq<Frame>, lo: nat, hi: nat)
    requires lo <= hi <= |all| && part == all[lo..hi] && (active ==> hi == |all|) && (!known ==> lo == hi)
    ensures Stretch(active, known, part, all)
  {
  }

  /** A forwarded frame extends the provider's stretch. */
  lemma StretchGrows(part: seq<Frame>, all: seq<Frame>, frame: Frame)
    requires Stretch(true, true, part, all)
    ensures Stretch(true, true, part + [frame], all + [frame])
  {
    var lo: nat, hi: nat :| lo <= hi <= |all| && part == all[lo..hi] && (true ==> hi == |all|) && (!true ==> lo == hi);
    hide Stretch;
    StretchGrowsFrom(part, all, frame, lo);
  }

  lemma StretchGrowsFrom(part: seq<Frame>, all: seq<Frame>, frame: Frame, lo: nat)
    requires lo <= |all| && part == all[lo..|all|]
    ensures Stretch(true, true, part + [frame], all + [frame])
  {
    hide Stretch;
    SliceGrows(all, lo, frame);
    StretchFrom(true, true, part + [frame], all + [frame], lo, |all| + 1);
  }

  lemma SliceGrows(all: seq<Frame>, lo: nat, frame: Frame)
    requires lo <= |all|
    ensures (all + [frame])[lo..|all| + 1] == all[lo..|all|] + [frame]
  {
  }

  /** A frame that is not forwarded ends a stretch, or comes before it; a new provider's
      starts empty. */
  lemma StretchStays(active: bool, known: bool, active': bool, known': bool, part: seq<Frame>, all: seq<Frame>, more: seq<Frame>)
    requires Stretch(active, known, part, all) && (known ==> known')
    requires active' ==> (if active then more == [] else !known)
    ensures Stretch(active', known', part, all + more)
  {
    var lo: nat, hi: nat :| lo <= hi <= |all| && part == all[lo..hi] && (active ==> hi == |all|) && (!known ==> lo == hi);
    var all' := all + more;
    assert all'[lo..hi] == all[lo..hi];
    if active' && !active {
      assert all'[|all'|..|all'|] == part;
      StretchFrom(active', known', part, all', |all'|, |all'|);
    } else {
      StretchFrom(active', known', part, all', lo, hi);
    }
  }

  ghost predicate Served(s: State, a: nat, all: seq<Frame>) {
    Stretch(s.active == Some(a), a in s.providers, FramesOf(s.video, a), all)
  }

  lemma FramesStep(s: State, e: Event, a: nat, all: seq<Frame>)
    requires Inv(s) && Enabled(s, e) && a < NO_AGENT && Served(s, a, all)
    ensures Served(Next(s, e), a, all + if e.Video? && e.id == a then [e.frame] else [])
  {
    hide Inv, Stretch;
    if e.Video? && s.activeId == e.id {
      ProviderOf(s, e.id);
      hide Enabled;
      FramesSnoc(s.video, Forwarded(e.id, e.frame), a);
      hide FramesOf;
      if e.id == a {
        StretchGrows(FramesOf(s.video, a), all, e.frame);
      } else {
        assert all + [] == all;
      }
    } else {
      Unforwarded(s, e, a);
      hide Next, Enabled;
      var t := Next(s, e);
      StretchStays(s.active == Some(a), a in s.providers, t.active == Some(a), a in t.providers, FramesOf(s.video, a), all,
                   if e.Video? && e.id == a then [e.frame] else []);
    }
  }

  lemma ProviderOf(s: State, id: nat)
    requires Inv(s) && id < s.nextId && s.activeId == id
    ensures s.active == Some(id) && id in s.providers
  {
    hide InBlocks, Distinct, Fold;
  }

  lemma FramesSnoc(video: seq<Forwarded>, f: Forwarded, a: nat)
    ensures FramesOf(video + [f], a) == if f.id == a then FramesOf(video, a) + [f.frame] else FramesOf(video, a)
  {
    assert (video + [f])[..|video|] == video;
  }

  lemma Unforwarded(s: State, e: Event, a: nat)
    requires Inv(s) && Enabled(s, e) && a < NO_AGENT && !(e.Video? && s.activeId == e.id)
    ensures Next(s, e).active == Some(a) && s.active != Some(a) ==> a !in s.providers && !e.Video?
    ensures Next(s, e).active == Some(a) && s.active == Some(a) ==> !(e.Video? && e.id == a)
    ensures a !in Next(s, e).providers ==> a !in s.providers
    ensures Next(s, e).video == s.video
  {
    hide InBlocks, Distinct, Fold;
  }

  /** What the viewer gets from an agent is one uninterrupted stretch of what the agent sent. */
  lemma {:induction false} ContiguousFrames(events: seq<Event>, a: nat)
    requires IsRun(events) && a < NO_AGENT
    ensures Served(After(events), a, FramesFrom(events, a))
  {
    if events == [] {
      StretchFrom(false, false, [], [], 0, 0);
    } else {
      hide Served, Next, Enabled, Inv;
      var shorter := events[..|events| - 1];
      ContiguousFrames(shorter, a);
      RunKeepsInv(shorter);
      FramesStep(After(shorter), events[|events| - 1], a, FramesFrom(shorter, a));
    }
  }

  lemma FrameStep(s: State, e: Event, a: nat)
    requires Inv(s) && Enabled(s, e) && a < NO_AGENT
    ensures FramesOf(Next(s, e).video, a) ==
      FramesOf(s.video, a) + if e.Video? && e.id == a && s.active == Some(a) then [e.frame] else []
  {
    if e.Video? && s.activeId == e.id {
      ProviderOf(s, e.id);
      FramesSnoc(s.video, Forwarded(e.id, e.frame), a);
    }
    hide Inv, FramesOf;
    assert FramesOf(s.video, a) + [] == FramesOf(s.video, a);
  }

  lemma FramesFromSnoc(events: seq<Event>, e: Event, a: nat)
    ensures FramesFrom(events + [e], a) == FramesFrom(events, a) + if e.Video? && e.id == a then [e.frame] else []
  {
    assert (events + [e])[..|events|] == events;
  }

  /** While an agent is the provider every frame it sends is forwarded, in order. */
  lemma {:induction false} EveryFrame(events: seq<Event>, a: nat, from: nat)
    requires IsRun(events) && a < NO_AGENT && from <= |events| && ProviderSince(events, a, from)
    ensures FramesOf(After(events).video, a) == FramesOf(After(events[..from]).video, a) + FramesFrom(events[from..], a)
  {
    hide Inv, Next, Enabled, FramesOf, After, IsRun, FramesFrom, ProviderSince;
    if from < |events| {
      var shorter, e := events[..|events| - 1], events[|events| - 1];
      assert shorter[..from] == events[..from] && events[from..] == shorter[from..] + [e];
      LastEvent(events);
      StillProvider(events, a, from);
      EveryFrame(shorter, a, from);
      RunKeepsInv(shorter);
      FrameStep(After(shorter), e, a);
      FramesFromSnoc(shorter[from..], e, a);
      Regroup(FramesOf(After(events[..from]).video, a), FramesFrom(shorter[from..], a),
              if e.Video? && e.id == a then [e.frame] else []);
    } else {
      assert events[..from] == events && events[from..] == [];
      NoFrames(a);
    }
  }

  lemma NoFrames(a: nat)
    ensures FramesFrom([], a) == []
  {
  }

  lemma StillProvider(events: seq<Event>, a: nat, from: nat)
    requires from < |events| && IsRun(events) && ProviderSince(events, a, from)
    ensures ProviderSince(events[..|events| - 1], a, from) && After(events[..|events| - 1]).active == Some(a)
    ensures Enabled(After(events[..|events| - 1]), events[|events| - 1])
  {
    hide After, Enabled;
  }

  /** And while it is not, none is. */
  lemma {:induction false} NoFrame(events: seq<Event>, a: nat, from: nat)
    requires IsRun(events) && a < NO_AGENT && from <= |events|
    requires forall j | from <= j < |events| :: After(events[..j]).active != Some(a)
    ensures FramesOf(After(events).video, a) == FramesOf(After(events[..from]).video, a)
  {
    hide Inv, Next, Enabled, FramesOf, After;
    assert events[..|events|] == events;
    if from < |events| {
      var n := |events| - 1;
      var shorter := events[..n];
      assert forall j | 0 <= j <= n :: shorter[..j] == events[..j];
      NoFrame(shorter, a, from);
      RunKeepsInv(shorter);
      NextAfter(events, n);
      FrameStep(After(shorter), events[n], a);
    }
  }

  // ---------------------------------------------------------------- displays

  /** The list an agent last announced: its first introduction or a later update. */
  function Announced(events: seq<Event>, a: nat): Option<seq<Display>> {
    if events == [] then None else Announce(Announced(events[..|events| - 1], a), events[|events| - 1], a)
  }

  function Announce(before: Option<seq<Display>>, e: Event, a: nat): Option<seq<Display>> {
    match e
    case Hello(id, _, displays) => if id == a && before.None? then Some(displays) else before
    case Displays(id, displays) => if id == a && before.Some? then Some(displays) else before
    case _ => before
  }

  /** If `a` is the provider, what the viewer is shown is its latest list. */
  predicate ShowsLatest(s: State, a: nat, announced: Option<seq<Display>>) {
    && (s.active == Some(a) ==> announced == Some(s.displays))
    && (a in s.pending || a >= s.nextId ==> announced.None?)
  }

  lemma {:induction false} DisplaysAreLatest(events: seq<Event>, a: nat)
    requires IsRun(events)
    ensures ShowsLatest(After(events), a, Announced(events, a))
    ensures After(events).active.None? ==> After(events).displays == []
  {
    RunKeepsInv(events);
    if events != [] {
      hide Next, Announce, ShowsLatest;
      var shorter := events[..|events| - 1];
      DisplaysAreLatest(shorter, a);
      RunKeepsInv(shorter);
      DisplaysStep(After(shorter), events[|events| - 1], a, Announced(shorter, a));
    }
  }

  lemma DisplaysStep(s: State, e: Event, a: nat, before: Option<seq<Display>>)
    requires Inv(s) && Enabled(s, e) && ShowsLatest(s, a, before)
    ensures ShowsLatest(Next(s, e), a, Announce(before, e, a))
  {
    hide InBlocks, Distinct, Fold;
  }

  // ---------------------------------------------------------------- geometry

  /** How often the provider changed. */
  function Changes(events: seq<Event>): nat {
    if events == [] then 0
    else
      var s, e := After(events[..|events| - 1]), events[|events| - 1];
      Changes(events[..|events| - 1]) +
        if (e.Hello? && e.id in s.pending) || (e.Closed? && s.active == Some(e.id)) then 1 else 0
  }

  lemma {:induction false} GenerationCounts(events: seq<Event>)
    ensures After(events).generation == Wrapped(Changes(events))
  {
    if events != [] {
      GenerationCounts(events[..|events| - 1]);
      GenerationStep(After(events[..|events| - 1]), events[|events| - 1]);
      BumpCounts(Changes(events[..|events| - 1]));
      hide Next, Bump, Wrapped;
    }
  }

  lemma BumpCounts(n: nat)
    ensures Bump(Wrapped(n)) == Wrapped(n + 1)
  {
  }

  lemma GenerationStep(s: State, e: Event)
    ensures Next(s, e).generation ==
      if (e.Hello? && e.id in s.pending) || (e.Closed? && s.active == Some(e.id)) then Bump(s.generation) else s.generation
  {
    hide Bump;
  }

  /** Where nothing counted, the provider and its geometry are the same. */
  lemma {:induction false} UncountedIsUnchanged(events: seq<Event>, i: nat)
    requires i <= |events|
    ensures Changes(events[..i]) <= Changes(events)
    ensures Changes(events[..i]) == Changes(events) ==>
      After(events).active == After(events[..i]).active && After(events).rect == After(events[..i]).rect
  {
    if i < |events| {
      var shorter := events[..|events| - 1];
      assert shorter[..i] == events[..i];
      UncountedIsUnchanged(shorter, i);
      var s, e := After(shorter), events[|events| - 1];
      if !(e.Hello? && e.id in s.pending) && !(e.Closed? && s.active == Some(e.id)) {
        UncountedStep(s, e);
      }
      hide Next;
    } else {
      assert events[..i] == events;
    }
  }

  lemma UncountedStep(s: State, e: Event)
    requires !(e.Hello? && e.id in s.pending) && !(e.Closed? && s.active == Some(e.id))
    ensures Next(s, e).active == s.active && Next(s, e).rect == s.rect
  {
  }

  /** The plane's side of the shared state. */
  class VideoPlane {
    var lastGeneration: nat

    constructor ()
      ensures lastGeneration == 0
    {
      lastGeneration := 0;
    }

    /** The geometry, if the provider changed since the last poll. */
    method PollGeometryChanged(s: State) returns (r: Option<Option<Rect>>)
      modifies this
      ensures lastGeneration == s.generation
      ensures r == if s.generation != old(lastGeneration) then Some(s.rect) else None
    {
      if s.generation != lastGeneration {
        lastGeneration := s.generation;
        r := Some(s.rect);
      } else {
        r := None;
      }
    }
  }

  /** A poll answers exactly when the provider has changed since the poll before, as
      long as it changed fewer than 2^64 times in between. */
  lemma PollSeesChanges(events: seq<Event>, i: nat)
    requires i <= |events| && Changes(events) < Changes(events[..i]) + GENERATIONS
    ensures After(events).generation != After(events[..i]).generation <==> Changes(events) > Changes(events[..i])
    ensures After(events).active != After(events[..i]).active ==>
      After(events).generation != After(events[..i]).generation
  {
    GenerationCounts(events);
    GenerationCounts(events[..i]);
    UncountedIsUnchanged(events, i);
    SameRemainder(Changes(events[..i]), Changes(events));
    hide Wrapped, Changes, After;
  }

  /** The geometries an agent has introduced itself with, though only the first counts. */
  function Hellos(events: seq<Event>, a: nat): seq<Option<Rect>> {
    if events == [] then []
    else
      var e := events[|events| - 1];
      Hellos(events[..|events| - 1], a) + if e.Hello? && e.id == a then [e.rect] else []
  }

  lemma {:induction false} NotYetIntroduced(events: seq<Event>, a: nat)
    requires IsRun(events) && (a in After(events).pending || a >= After(events).nextId)
    ensures Hellos(events, a) == []
  {
    if events != [] {
      WasNotIntroduced(After(events[..|events| - 1]), events[|events| - 1], a);
      hide Next, Enabled;
      NotYetIntroduced(events[..|events| - 1], a);
    }
  }

  lemma WasNotIntroduced(s: State, e: Event, a: nat)
    requires Enabled(s, e) && (a in Next(s, e).pending || a >= Next(s, e).nextId)
    ensures (a in s.pending || a >= s.nextId) && !(e.Hello? && e.id == a)
  {
  }

  predicate HasClosed(events: seq<Event>, a: nat) {
    exists i :: 0 <= i < |events| && events[i] == Closed(a)
  }

  lemma ClosedSnoc(events: seq<Event>, a: nat)
    requires events != []
    ensures HasClosed(events, a) <==> HasClosed(events[..|events| - 1], a) || events[|events| - 1] == Closed(a)
  {
    var before, n := events[..|events| - 1], |events| - 1;
    if HasClosed(before, a) {
      var i :| 0 <= i < |before| && before[i] == Closed(a);
      assert events[i] == Closed(a);
    }
    if events[n] == Closed(a) {
      assert HasClosed(events, a);
    }
  }

  /** An agent waits from its acceptance to its first introduction or its end. */
  lemma {:induction false} PendingIs(events: seq<Event>, a: nat)
    requires IsRun(events)
    ensures a in After(events).pending <==> a < After(events).nextId && Hellos(events, a) == [] && !HasClosed(events, a)
    ensures a >= After(events).nextId ==> Hellos(events, a) == [] && !HasClosed(events, a)
  {
    if events != [] {
      ClosedSnoc(events, a);
      PendingIs(events[..|events| - 1], a);
      PendingStep(After(events[..|events| - 1]), events[|events| - 1], a);
      hide Next, Enabled, HasClosed;
    }
  }

  lemma PendingStep(s: State, e: Event, a: nat)
    requires Enabled(s, e)
    ensures a in Next(s, e).pending <==>
      (a in s.pending || (a == s.nextId && e == Accept(true))) && !(e.Hello? && e.id == a) && e != Closed(a)
    ensures Next(s, e).nextId == s.nextId + if e == Accept(true) then 1 else 0
    ensures (e.Hello? || e.Closed?) ==> e.id < s.nextId
  {
  }

  /** Who should serve the viewer: the agent that introduced itself last, for the first time
      and while connected, until it closes. */
  function Serving(events: seq<Event>): Option<nat> {
    if events == [] then None
    else
      var before, e := events[..|events| - 1], events[|events| - 1];
      if e.Hello? && Hellos(before, e.id) == [] && !HasClosed(before, e.id) then Some(e.id)
      else if e.Closed? && Serving(before) == Some(e.id) then None
      else Serving(before)
  }

  /** That agent is the provider, on every run. */
  lemma {:induction false} ProviderIsNewest(events: seq<Event>)
    requires IsRun(events)
    ensures After(events).active == Serving(events)
  {
    if events != [] {
      var before, e := events[..|events| - 1], events[|events| - 1];
      ProviderIsNewest(before);
      if e.Hello? {
        PendingIs(before, e.id);
      }
      ActiveStep(After(before), e);
      hide Next, HasClosed, Hellos;
    }
  }

  lemma ActiveStep(s: State, e: Event)
    ensures Next(s, e).active ==
      if e.Hello? && e.id in s.pending then Some(e.id)
      else if e.Closed? && s.active == Some(e.id) then None
      else s.active
  {
  }

  /** The shared geometry is always that of the agent that took over last, whether it is
      still there or not. */
  lemma {:induction false} RectIsOfLastProvider(events: seq<Event>)
    requires IsRun(events)
    ensures var s := After(events);
      if s.providers == [] then s.rect == None
      else
        var hellos := Hellos(events, s.providers[|s.providers| - 1]);
        hellos != [] && s.rect == hellos[0]
  {
    hide Next, Enabled, After, IsRun, Hellos;
    if events == [] {
      NothingYet();
    } else {
      var before, e := events[..|events| - 1], events[|events| - 1];
      LastEvent(events);
      RectIsOfLastProvider(before);
      var s, t := After(before), After(events);
      ProvidersStep(s, e);
      if e.Hello? && e.id in s.pending {
        NotYetIntroduced(before, e.id);
        HellosSnoc(events, e.id);
        assert t.providers[|t.providers| - 1] == e.id;
      } else if s.providers != [] {
        HellosSnoc(events, s.providers[|s.providers| - 1]);
      }
    }
  }

  lemma NothingYet()
    ensures After([]) == INITIAL && IsRun([])
  {
  }

  lemma LastEvent(events: seq<Event>)
    requires IsRun(events) && events != []
    ensures IsRun(events[..|events| - 1]) && After(events) == Next(After(events[..|events| - 1]), events[|events| - 1])
  {
    hide Next, Enabled;
  }

  lemma HellosSnoc(events: seq<Event>, a: nat)
    requires events != []
    ensures var e := events[|events| - 1];
      Hellos(events, a) == Hellos(events[..|events| - 1], a) + if e.Hello? && e.id == a then [e.rect] else []
  {
  }

  lemma ProvidersStep(s: State, e: Event)
    ensures var took := e.Hello? && e.id in s.pending;
      && Next(s, e).providers == (if took then s.providers + [e.id] else s.providers)
      && Next(s, e).rect == if took then e.rect else s.rect
  {
  }

  /** On every run: once the provider has gone and while there is no other, a poll answers
      a plane that polled when there was one, and answers with the geometry of the last
      provider; its display list is cleared. */
  lemma GoneGeometryStays(events: seq<Event>, i: nat)
    requires IsRun(events) && i <= |events| && Changes(events) < Changes(events[..i]) + GENERATIONS
    requires After(events[..i]).active.Some? && After(events).active.None?
    ensures var s := After(events);
      && s.generation != After(events[..i]).generation && s.displays == []
      && s.providers != [] && Hellos(events, s.providers[|s.providers| - 1]) != []
      && s.rect == Hellos(events, s.providers[|s.providers| - 1])[0]
  {
    PollSeesChanges(events, i);
    RectIsOfLastProvider(events);
    RunKeepsInv(events);
    StillProviders(events, i);
  }

  lemma {:induction false} StillProviders(events: seq<Event>, i: nat)
    requires IsRun(events) && i <= |events| && After(events[..i]).active.Some?
    ensures After(events).providers != []
  {
    assert events[..|events|] == events;
    if i < |events| {
      var shorter := events[..|events| - 1];
      assert shorter[..i] == events[..i];
      StillProviders(shorter, i);
    } else {
      RunKeepsInv(events);
    }
  }

  lemma SameRemainder(a: nat, b: nat)
    requires a <= b < a + GENERATIONS
    ensures Wrapped(a) == Wrapped(b) <==> a == b
  {
  }
}
