/**
 The broker together with the agents it controls: what the queues hold, and what is
 left running once they have drained.
 */
module Handover {
  import opened Prelude
  import B = Broker
  import A = Agent

  /** The capture thread: not yet up, obeying commands, ended, or never come up. */
  datatype Phase = Starting | Working | Ended | Failed

  /** One agent process. `read` counts the broker messages its reader has taken, `done` is
      what its capture thread has obeyed and `calls` what that has asked of the gate and of
      the capture. */
  datatype Agent =
    Agent(read: nat, reading: bool, cmds: seq<A.Cmd>, phase: Phase, done: seq<A.Cmd>, calls: seq<A.Call>)

  const NEW_AGENT: Agent := Agent(0, true, [], Starting, [], [])

  datatype System = System(broker: B.State, agents: seq<Agent>)

  const INITIAL: System := System(B.INITIAL, [])

  datatype AgentStep =
    | ReadMessage
    | StopReading
    | StartThread(up: bool)
    | ObeyCommand
    | EndThread

  datatype Step = BrokerTurn(e: B.Event) | AgentTurn(id: nat, step: AgentStep)

  /** A control message as a command for the capture thread; bitrate and keyframe
      requests go to the encoder instead. */
  function Command(m: B.BrokerMsg): seq<A.Cmd> {
    match m
    case Capturing(on) => [A.Capture(on)]
    case SelectDisplay(id) => [A.Display(id)]
    case ShowCursor(show) => [A.Cursor(show)]
    case _ => []
  }

  /** Commands to a thread that has ended are lost. */
  function Post(a: Agent, cmds: seq<A.Cmd>): Agent {
    if a.phase == Ended || a.phase == Failed then a else a.(cmds := a.cmds + cmds)
  }

  predicate CanStep(sent: seq<B.BrokerMsg>, a: Agent, step: AgentStep) {
    match step
    case ReadMessage => a.reading && a.read < |sent|
    case StopReading => a.reading
    case StartThread(_) => a.phase == Starting
    case ObeyCommand => a.phase == Working && a.cmds != []
    case EndThread => a.phase == Working && a.cmds == [] && !a.reading
  }

  function AgentNext(sent: seq<B.BrokerMsg>, a: Agent, step: AgentStep): Agent
    requires CanStep(sent, a, step)
  {
    match step
    case ReadMessage => Post(a.(read := a.read + 1), Command(sent[a.read]))
    case StopReading => Post(a.(reading := false), [A.Capture(false)])
    case StartThread(up) => if up then a.(phase := Working, calls := [A.Locking]) else a.(phase := Failed, cmds := [])
    case ObeyCommand => a.(cmds := a.cmds[1..], done := a.done + [a.cmds[0]], calls := a.calls + A.CallsFor(a.cmds[0]))
    case EndThread => a.(phase := Ended, calls := a.calls + A.CallsFor(A.Capture(false)))
  }

  function Sent(s: System, id: nat): seq<B.BrokerMsg> {
    if id in s.broker.sent then s.broker.sent[id] else []
  }

  predicate Enabled(s: System, step: Step) {
    match step
    case BrokerTurn(e) => B.Enabled(s.broker, e)
    case AgentTurn(id, st) => id < |s.agents| && CanStep(Sent(s, id), s.agents[id], st)
  }

  function Next(s: System, step: Step): System
    requires Enabled(s, step)
  {
    match step
    case BrokerTurn(e) =>
      System(B.Next(s.broker, e), if e == B.Accept(true) then s.agents + [NEW_AGENT] else s.agents)
    case AgentTurn(id, st) =>
      s.(agents := s.agents[id := AgentNext(Sent(s, id), s.agents[id], st)])
  }

  // ---------------------------------------------------------------- one agent

  /** What a thread will want once it has obeyed a list of commands. */
  function Outcome(wants: bool, cmds: seq<A.Cmd>): bool {
    if cmds == [] then wants
    else if cmds[|cmds| - 1].Capture? then cmds[|cmds| - 1].on
    else Outcome(wants, cmds[..|cmds| - 1])
  }

  /** Nothing is captured or held without a viewer, whatever machine the thread runs on. */
  ghost predicate CallsInv(calls: seq<A.Call>) {
    !A.Wants(calls) ==> forall w: A.World :: Idle(A.Performed(w, calls))
  }

  predicate Idle(e: A.Effects) {
    !e.capturing && e.held.None? && e.children == {}
  }

  ghost predicate AgentInv(sent: seq<B.BrokerMsg>, a: Agent) {
    && a.read <= |sent|
    && CallsInv(a.calls)
    && (a.phase != Working ==> !A.Wants(a.calls))
    && (a.phase == Starting || a.phase == Failed ==> a.calls == [])
    && ((a.phase == Working && !A.Wants(a.calls)) || a.phase == Ended ==> A.Sealed(a.calls))
    && (a.phase == Starting || a.phase == Working ==>
          Outcome(A.Wants(a.calls), a.cmds) == (a.reading && B.Fold(sent[..a.read])))
  }

  lemma {:induction false} OutcomeAppend(wants: bool, cmds: seq<A.Cmd>, c: A.Cmd)
    ensures Outcome(wants, cmds + [c]) == if c.Capture? then c.on else Outcome(wants, cmds)
  {
    assert (cmds + [c])[..|cmds|] == cmds;
  }

  lemma {:induction false} OutcomeFirst(wants: bool, cmds: seq<A.Cmd>)
    requires cmds != []
    ensures Outcome(if cmds[0].Capture? then cmds[0].on else wants, cmds[1..]) == Outcome(wants, cmds)
  {
    var n := |cmds| - 1;
    if n > 0 && !cmds[n].Capture? {
      OutcomeFirst(wants, cmds[..n]);
      assert cmds[..n][1..] == cmds[1..][..n - 1];
    }
  }

  lemma ObeyKeepsCalls(calls: seq<A.Call>, cmd: A.Cmd)
    requires CallsInv(calls)
    ensures var next := calls + A.CallsFor(cmd);
      && CallsInv(next)
      && A.Wants(next) == (if cmd.Capture? then cmd.on else A.Wants(calls))
      && (cmd == A.Capture(false) ==> A.Sealed(next)) && (!cmd.Capture? ==> next == calls)
  {
    hide A.Wants, A.Sealed, A.Performed;
    var next := calls + A.CallsFor(cmd);
    var some := A.World(false, false, _ => false, _ => false, _ => false);
    if cmd == A.Capture(true) {
      A.StartOutcome(some, calls);
    } else if cmd == A.Capture(false) {
      A.PauseOutcome(some, calls);
      forall w: A.World ensures Idle(A.Performed(w, next)) {
        A.PauseOutcome(w, calls);
      }
    } else {
      assert next == calls;
    }
  }

  lemma FirstCalls()
    ensures CallsInv([]) && CallsInv([A.Locking]) && !A.Wants([]) && !A.Wants([A.Locking]) && A.Sealed([A.Locking])
  {
    var one := [A.Locking];
    assert one[..0] == [] && !A.Wants(one[..0]) && !A.Wants(one);
    forall w: A.World ensures Idle(A.Performed(w, one)) && Idle(A.Performed(w, [])) {
      A.PerformedSnoc(w, [], A.Locking);
      assert [] + one == one;
    }
  }

  lemma ReadKeepsInv(sent: seq<B.BrokerMsg>, a: Agent)
    requires AgentInv(sent, a) && a.reading && a.read < |sent|
    ensures AgentInv(sent, AgentNext(sent, a, ReadMessage))
  {
    hide A.Wants, A.Sealed, CallsInv;
    var m := sent[a.read];
    assert sent[..a.read + 1] == sent[..a.read] + [m];
    B.FoldAppend(sent[..a.read], m);
    match m {
      case Capturing(on) => OutcomeAppend(A.Wants(a.calls), a.cmds, A.Capture(on));
      case SelectDisplay(id) => OutcomeAppend(A.Wants(a.calls), a.cmds, A.Display(id));
      case ShowCursor(show) => OutcomeAppend(A.Wants(a.calls), a.cmds, A.Cursor(show));
      case _ => assert a.cmds + [] == a.cmds;
    }
  }

  lemma AgentStepKeepsInv(sent: seq<B.BrokerMsg>, a: Agent, step: AgentStep)
    requires AgentInv(sent, a) && CanStep(sent, a, step)
    ensures AgentInv(sent, AgentNext(sent, a, step))
  {
    hide B.Fold, A.Wants, A.Sealed, CallsInv;
    match step {
      case ReadMessage => ReadKeepsInv(sent, a);
      case StopReading => OutcomeAppend(A.Wants(a.calls), a.cmds, A.Capture(false));
      case StartThread(up) => FirstCalls();
      case ObeyCommand =>
        ObeyKeepsCalls(a.calls, a.cmds[0]);
        OutcomeFirst(A.Wants(a.calls), a.cmds);
      case EndThread =>
        ObeyKeepsCalls(a.calls, A.Capture(false));
    }
  }

  /** More messages from the broker disturb nothing. */
  lemma MoreMessages(sent: seq<B.BrokerMsg>, more: seq<B.BrokerMsg>, a: Agent)
    requires AgentInv(sent, a)
    ensures AgentInv(sent + more, a)
  {
    assert (sent + more)[..a.read] == sent[..a.read];
  }

  // ---------------------------------------------------------------- the whole system

  ghost predicate Inv(s: System) {
    && B.Inv(s.broker)
    && |s.agents| == s.broker.nextId
    && forall id: nat | id < |s.agents| :: AgentInv(Sent(s, id), s.agents[id])
  }

  /** A turn of the broker only ever appends to what an agent was sent. */
  lemma BrokerAppends(b: B.State, e: B.Event, id: nat) returns (more: seq<B.BrokerMsg>)
    requires B.Inv(b) && B.Enabled(b, e) && id < b.nextId
    ensures id in b.sent && id in B.Next(b, e).sent && B.Next(b, e).sent[id] == b.sent[id] + more
    ensures B.Next(b, e).nextId == b.nextId + if e == B.Accept(true) then 1 else 0
    ensures e == B.Accept(true) ==> b.nextId in B.Next(b, e).sent && B.Next(b, e).sent[b.nextId] == []
  {
    more := B.Next(b, e).sent[id][|b.sent[id]|..];
  }

  lemma AcceptCounts(b: B.State, e: B.Event)
    requires B.Inv(b) && B.Enabled(b, e)
    ensures B.Next(b, e).nextId == b.nextId + if e == B.Accept(true) then 1 else 0
    ensures e == B.Accept(true) ==> b.nextId in B.Next(b, e).sent && B.Next(b, e).sent[b.nextId] == []
  {
  }

  lemma StepKeepsInv(s: System, step: Step)
    requires Inv(s) && Enabled(s, step)
    ensures Inv(Next(s, step))
  {
    match step {
      case BrokerTurn(e) => BrokerTurnKeepsInv(s, e);
      case AgentTurn(id, st) =>
        AgentStepKeepsInv(Sent(s, id), s.agents[id], st);
        hide AgentNext, CanStep, AgentInv, B.Inv;
    }
  }

  lemma BrokerTurnKeepsInv(s: System, e: B.Event)
    requires Inv(s) && B.Enabled(s.broker, e)
    ensures Inv(Next(s, BrokerTurn(e)))
  {
    var t := Next(s, BrokerTurn(e));
    B.StepKeepsInv(s.broker, e);
    AcceptCounts(s.broker, e);
    forall id: nat | id < |t.agents| ensures AgentInv(Sent(t, id), t.agents[id]) {
      if id < |s.agents| {
        var more := BrokerAppends(s.broker, e, id);
        MoreMessages(Sent(s, id), more, s.agents[id]);
      } else {
        assert Sent(t, id) == [];
      }
    }
  }

  /** The state after a list of steps, if each could be taken. */
  function After(steps: seq<Step>): Option<System> {
    if steps == [] then Some(INITIAL)
    else
      var before := After(steps[..|steps| - 1]);
      if before.Some? && Enabled(before.value, steps[|steps| - 1])
      then Some(Next(before.value, steps[|steps| - 1]))
      else None
  }

  lemma {:induction false} RunKeepsInv(steps: seq<Step>)
    requires After(steps).Some?
    ensures Inv(After(steps).value)
  {
    hide Inv, Next, Enabled;
    if steps == [] {
      InitialInv();
    } else {
      RunKeepsInv(steps[..|steps| - 1]);
      StepKeepsInv(After(steps[..|steps| - 1]).value, steps[|steps| - 1]);
    }
  }

  lemma InitialInv()
    ensures Inv(INITIAL)
  {
    B.InitialInv();
  }

  // ---------------------------------------------------------------- once the queues have drained

  /** The broker has dropped its end of the agent's control channel. */
  predicate Dropped(b: B.State, id: nat) {
    id !in b.pending && b.active != Some(id)
  }

  /** The agent is not required to move: it has read all there is, noticed the end of its
      channel if it has come, and its thread has nothing to do. */
  predicate Drained(s: System, id: nat)
    requires id < |s.agents|
  {
    var a := s.agents[id];
    && !(a.reading && (a.read < |Sent(s, id)| || Dropped(s.broker, id)))
    && a.phase != Starting
    && (a.phase == Working ==> a.cmds == [] && a.reading)
  }

  /** The thread wants nothing, and on any machine nothing runs and nothing is held. */
  ghost predicate AtRest(a: Agent) {
    !A.Wants(a.calls) && forall w: A.World :: Idle(A.Performed(w, a.calls))
  }

  /** Once the queues have drained: the provider's thread wants what the viewer wants, the
      agents that wait are at rest, and those that were superseded have ended at rest.
      Those at rest were asked to lock last, unless their thread never came up: those
      never locked at all. */
  lemma DrainedAgents(steps: seq<Step>, id: nat)
    requires After(steps).Some?
    requires id < |After(steps).value.agents| && Drained(After(steps).value, id)
    ensures var s := After(steps).value; var a := s.agents[id];
      && (s.broker.active == Some(id) && a.phase == Working ==> A.Wants(a.calls) == s.broker.capturing)
      && (!(s.broker.active == Some(id) && a.phase == Working && s.broker.capturing) ==>
            AtRest(a) && (A.Sealed(a.calls) <==> a.phase != Failed))
      && (a.phase == Failed ==> a.calls == [])
      && (Dropped(s.broker, id) ==> !a.reading && (a.phase == Ended || a.phase == Failed))
  {
    hide After, A.Wants;
    RunKeepsInv(steps);
    var s := After(steps).value;
    var a := s.agents[id];
    assert AgentInv(Sent(s, id), a);
    assert Sent(s, id)[..|Sent(s, id)|] == Sent(s, id);
  }

  // ---------------------------------------------------------------- what an agent is told, it does

  /** The display last selected, and whether the cursor was last to be shown, by messages and
      by commands. */
  function Selected(sent: seq<B.BrokerMsg>): Option<nat> {
    if sent == [] then None
    else if sent[|sent| - 1].SelectDisplay? then Some(sent[|sent| - 1].display)
    else Selected(sent[..|sent| - 1])
  }

  function CursorWanted(sent: seq<B.BrokerMsg>): Option<bool> {
    if sent == [] then None
    else if sent[|sent| - 1].ShowCursor? then Some(sent[|sent| - 1].show)
    else CursorWanted(sent[..|sent| - 1])
  }

  function DisplayOf(cmds: seq<A.Cmd>): Option<nat> {
    if cmds == [] then None
    else if cmds[|cmds| - 1].Display? then Some(cmds[|cmds| - 1].id)
    else DisplayOf(cmds[..|cmds| - 1])
  }

  function CursorOf(cmds: seq<A.Cmd>): Option<bool> {
    if cmds == [] then None
    else if cmds[|cmds| - 1].Cursor? then Some(cmds[|cmds| - 1].show)
    else CursorOf(cmds[..|cmds| - 1])
  }

  /** All that obeying some commands asks for. */
  function AllCalls(cmds: seq<A.Cmd>): seq<A.Call> {
    if cmds == [] then [] else AllCalls(cmds[..|cmds| - 1]) + A.CallsFor(cmds[|cmds| - 1])
  }

  /** What has been obeyed and what is queued set what the messages read so far set; and the
      thread has locked once and then asked for what it obeyed. */
  ghost predicate Obedient(sent: seq<B.BrokerMsg>, a: Agent) {
    && a.read <= |sent|
    && (a.phase == Starting ==> a.done == [])
    && (a.phase == Working ==> a.calls == [A.Locking] + AllCalls(a.done))
    && (a.phase == Starting || a.phase == Working ==>
          && DisplayOf(a.done + a.cmds) == Selected(sent[..a.read])
          && CursorOf(a.done + a.cmds) == CursorWanted(sent[..a.read]))
  }

  lemma SetBySnoc(cmds: seq<A.Cmd>, c: A.Cmd, sent: seq<B.BrokerMsg>, m: B.BrokerMsg)
    ensures DisplayOf(cmds + [c]) == if c.Display? then Some(c.id) else DisplayOf(cmds)
    ensures CursorOf(cmds + [c]) == if c.Cursor? then Some(c.show) else CursorOf(cmds)
    ensures Selected(sent + [m]) == if m.SelectDisplay? then Some(m.display) else Selected(sent)
    ensures CursorWanted(sent + [m]) == if m.ShowCursor? then Some(m.show) else CursorWanted(sent)
  {
    assert (cmds + [c])[..|cmds|] == cmds && (sent + [m])[..|sent|] == sent;
  }

  lemma PostedSets(sent: seq<B.BrokerMsg>, a: Agent, m: B.BrokerMsg)
    requires Obedient(sent, a) && a.reading && a.read < |sent| && m == sent[a.read] && (a.phase == Starting || a.phase == Working)
    ensures Obedient(sent, AgentNext(sent, a, ReadMessage))
  {
    hide AllCalls;
    assert sent[..a.read + 1] == sent[..a.read] + [m];
    var cmds := Command(m);
    var all := a.done + a.cmds;
    assert a.done + (a.cmds + cmds) == all + cmds;
    if cmds == [] {
      assert all + [] == all;
      SetBySnoc(all, A.Capture(true), sent[..a.read], m);
    } else {
      assert cmds == [cmds[0]];
      SetBySnoc(all, cmds[0], sent[..a.read], m);
    }
    hide DisplayOf, CursorOf, Selected, CursorWanted;
  }

  lemma StoppedSets(sent: seq<B.BrokerMsg>, a: Agent)
    requires Obedient(sent, a) && a.reading
    ensures Obedient(sent, AgentNext(sent, a, StopReading))
  {
    hide AllCalls, Selected, CursorWanted;
    SetBySnoc(a.done + a.cmds, A.Capture(false), [], B.ForceKeyframe);
    hide DisplayOf, CursorOf;
    assert a.done + (a.cmds + [A.Capture(false)]) == a.done + a.cmds + [A.Capture(false)];
  }

  lemma ObeyedSets(sent: seq<B.BrokerMsg>, a: Agent)
    requires Obedient(sent, a) && a.phase == Working && a.cmds != []
    ensures Obedient(sent, AgentNext(sent, a, ObeyCommand))
  {
    hide DisplayOf, CursorOf, Selected, CursorWanted, A.CallsFor;
    assert a.done + [a.cmds[0]] + a.cmds[1..] == a.done + a.cmds;
    CallsSnoc(a.done, a.cmds[0]);
    hide AllCalls;
    assert [A.Locking] + AllCalls(a.done) + A.CallsFor(a.cmds[0]) == [A.Locking] + (AllCalls(a.done) + A.CallsFor(a.cmds[0]));
  }

  lemma CallsSnoc(cmds: seq<A.Cmd>, c: A.Cmd)
    ensures AllCalls(cmds + [c]) == AllCalls(cmds) + A.CallsFor(c)
  {
    assert (cmds + [c])[..|cmds|] == cmds;
  }

  lemma AgentStepObeys(sent: seq<B.BrokerMsg>, a: Agent, step: AgentStep)
    requires Obedient(sent, a) && CanStep(sent, a, step)
    ensures Obedient(sent, AgentNext(sent, a, step))
  {
    match step {
      case ReadMessage =>
        if a.phase == Starting || a.phase == Working {
          PostedSets(sent, a, sent[a.read]);
        }
        hide DisplayOf, CursorOf, Selected, CursorWanted, AllCalls;
      case StopReading => StoppedSets(sent, a);
      case StartThread(up) =>
        assert [A.Locking] + [] == [A.Locking];
        hide DisplayOf, CursorOf, Selected, CursorWanted;
      case ObeyCommand => ObeyedSets(sent, a);
      case EndThread =>
    }
  }

  ghost predicate AllObedient(s: System) {
    forall id: nat | id < |s.agents| :: Obedient(Sent(s, id), s.agents[id])
  }

  lemma StepObeys(s: System, step: Step)
    requires Inv(s) && AllObedient(s) && Enabled(s, step)
    ensures AllObedient(Next(s, step))
  {
    match step {
      case BrokerTurn(e) =>
        var t := Next(s, step);
        AcceptCounts(s.broker, e);
        forall id: nat | id < |t.agents| ensures Obedient(Sent(t, id), t.agents[id]) {
          if id < |s.agents| {
            var more := BrokerAppends(s.broker, e, id);
            assert (Sent(s, id) + more)[..s.agents[id].read] == Sent(s, id)[..s.agents[id].read];
          } else {
            assert Sent(t, id) == [];
          }
        }
      case AgentTurn(id, st) =>
        AgentStepObeys(Sent(s, id), s.agents[id], st);
        hide AgentNext, CanStep, Obedient, Inv;
    }
  }

  lemma {:induction false} RunObeys(steps: seq<Step>)
    requires After(steps).Some?
    ensures AllObedient(After(steps).value)
  {
    if steps != [] {
      hide Inv, Next, Enabled, AllObedient;
      RunObeys(steps[..|steps| - 1]);
      RunKeepsInv(steps[..|steps| - 1]);
      StepObeys(After(steps[..|steps| - 1]).value, steps[|steps| - 1]);
    }
  }

  /** In every run: a thread at work has obeyed commands that set what the messages its reader
      has taken set, but for those still queued; once drained it shows the display and the
      cursor that the last such messages asked for. */
  lemma SettingsFollow(steps: seq<Step>, id: nat)
    requires After(steps).Some? && id < |After(steps).value.agents| && After(steps).value.agents[id].phase == Working
    ensures var s := After(steps).value; var a := s.agents[id];
      && a.read <= |Sent(s, id)| && a.calls == [A.Locking] + AllCalls(a.done)
      && DisplayOf(a.done + a.cmds) == Selected(Sent(s, id)[..a.read])
      && CursorOf(a.done + a.cmds) == CursorWanted(Sent(s, id)[..a.read])
      && (Drained(s, id) ==> DisplayOf(a.done) == Selected(Sent(s, id)) && CursorOf(a.done) == CursorWanted(Sent(s, id)))
  {
    RunObeys(steps);
    hide After, DisplayOf, CursorOf, Selected, CursorWanted, AllCalls;
    var s := After(steps).value;
    var a := s.agents[id];
    assert Obedient(Sent(s, id), a);
    assert a.done + [] == a.done && Sent(s, id)[..|Sent(s, id)|] == Sent(s, id);
  }

  /** An agent whose capture does not come up can become the provider, with the viewer
      waiting, and never asks for the lock. */
  lemma ProviderNeverLocks()
    ensures var steps := [BrokerTurn(B.SetCapturing(true)), BrokerTurn(B.Accept(true)), AgentTurn(0, StartThread(false)),
                          BrokerTurn(B.Hello(0, None, []))];
      && After(steps).Some?
      && var s := After(steps).value;
         && |s.agents| == 1 && s.broker.active == Some(0) && s.broker.capturing
         && s.agents[0].phase == Failed && s.agents[0].reading && s.agents[0].calls == []
  {
    var all := [BrokerTurn(B.SetCapturing(true)), BrokerTurn(B.Accept(true)), AgentTurn(0, StartThread(false)),
                BrokerTurn(B.Hello(0, None, []))];
    assert all[..3][..2][..1][..0] == [];
    assert all[..3][..2][..1] == all[..1] && all[..3][..2] == all[..2];
    assert After(all[..1]) == Some(Next(INITIAL, all[0]));
    assert After(all[..2]) == Some(Next(Next(INITIAL, all[0]), all[1]));
  }

  /** At any moment of any run, on any machine: an agent has at most one inhibitor process,
      and captures or holds one only while its thread wants capture. */
  lemma AtMostOneInhibitor(steps: seq<Step>, id: nat, w: A.World)
    requires After(steps).Some? && id < |After(steps).value.agents|
    ensures var calls := After(steps).value.agents[id].calls; var e := A.Performed(w, calls);
      |e.children| <= 1 && (e.capturing || e.children != {} ==> A.Wants(calls))
  {
    hide After, A.Performed;
    RunKeepsInv(steps);
    A.OneInhibitor(w, After(steps).value.agents[id].calls);
    assert AgentInv(Sent(After(steps).value, id), After(steps).value.agents[id]);
    assert CallsInv(After(steps).value.agents[id].calls);
    var calls := After(steps).value.agents[id].calls;
    assert !A.Wants(calls) ==> Idle(A.Performed(w, calls));
  }

  // ---------------------------------------------------------------- draining ends

  /** What an agent may still do without hearing from the broker. */
  function Work(sent: seq<B.BrokerMsg>, a: Agent): nat
    requires a.read <= |sent|
  {
    2 * (|sent| - a.read) + (if a.reading then 2 else 0) + |a.cmds| +
    (if a.phase == Starting then 2 else if a.phase == Working then 1 else 0)
  }

  lemma StepsAreWork(sent: seq<B.BrokerMsg>, a: Agent, step: AgentStep)
    requires a.read <= |sent| && CanStep(sent, a, step)
    ensures var b := AgentNext(sent, a, step); b.read <= |sent| && Work(sent, b) < Work(sent, a)
  {
  }

  /** If it is required to move, it can, by reading, noticing the end, or its thread. */
  lemma UndrainedCanStep(s: System, id: nat) returns (step: AgentStep)
    requires id < |s.agents| && !Drained(s, id)
    ensures Enabled(s, AgentTurn(id, step))
  {
    var a := s.agents[id];
    if a.reading && a.read < |Sent(s, id)| {
      step := ReadMessage;
    } else if a.reading && Dropped(s.broker, id) {
      step := StopReading;
    } else if a.phase == Starting {
      step := StartThread(true);
    } else if a.cmds != [] {
      step := ObeyCommand;
    } else {
      step := EndThread;
    }
  }

  /** Work left in the first `n` agents. */
  function TotalWork(s: System, n: nat): nat
    requires n <= |s.agents| && forall id: nat | id < |s.agents| :: s.agents[id].read <= |Sent(s, id)|
  {
    if n == 0 then 0 else TotalWork(s, n - 1) + Work(Sent(s, n - 1), s.agents[n - 1])
  }

  lemma {:induction false} TotalWorkDrops(s: System, t: System, n: nat, id: nat)
    requires n <= |s.agents| && id < |s.agents| == |t.agents| && s.broker == t.broker
    requires forall i: nat | i < |s.agents| :: s.agents[i].read <= |Sent(s, i)| && t.agents[i].read <= |Sent(t, i)|
    requires forall i: nat | i < |s.agents| && i != id :: t.agents[i] == s.agents[i]
    requires Work(Sent(t, id), t.agents[id]) < Work(Sent(s, id), s.agents[id])
    ensures TotalWork(t, n) <= TotalWork(s, n) && (id < n ==> TotalWork(t, n) < TotalWork(s, n))
  {
    if n > 0 {
      TotalWorkDrops(s, t, n - 1, id);
    }
  }

  /** A stretch of steps of the agents alone. */
  ghost predicate Quiet(s: System, steps: seq<Step>)
    decreases steps
  {
    steps == [] ||
    (steps[0].AgentTurn? && Enabled(s, steps[0]) && Quiet(Next(s, steps[0]), steps[1..]))
  }

  /** While the broker is silent the agents can take no more steps than there is work, so
      every one of them comes to be drained. */
  lemma {:induction false} DrainingEnds(s: System, steps: seq<Step>)
    requires Inv(s) && Quiet(s, steps)
    ensures forall id: nat | id < |s.agents| :: s.agents[id].read <= |Sent(s, id)|
    ensures |steps| <= TotalWork(s, |s.agents|)
    decreases steps
  {
    if steps != [] {
      var id, t := steps[0].id, Next(s, steps[0]);
      StepKeepsInv(s, steps[0]);
      StepsAreWork(Sent(s, id), s.agents[id], steps[0].step);
      hide AgentNext, CanStep, Work, B.Inv;
      TotalWorkDrops(s, t, |s.agents|, id);
      DrainingEnds(t, steps[1..]);
    }
  }
}
