/**
 The capture agent's own machinery: the gate that keeps an unattended session locked,
 and the thread that obeys capture commands.
 */
module Agent {
  import opened Prelude

  datatype Verb = LockSession | UnlockSession

  type Answers = nat -> bool

  /** The machine an agent runs on. `locked(n)` is what check number `n` of the lock hint
      answers, `spawns(n)` whether inhibitor process `n` can be started and `starts(n)`
      whether attempt `n` to start capturing succeeds. */
  datatype World = World(enabled: bool, session: bool, locked: Answers, spawns: Answers, starts: Answers) {
    /** With no session to ask about, the answer is always no. */
    function Answer(): Answers {
      (n: nat) => session && locked(n)
    }

    function Requests(v: Verb, n: nat): seq<Verb> {
      if session then Repeat(v, n) else []
    }
  }

  function Repeat(v: Verb, n: nat): (r: seq<Verb>)
    ensures |r| == n && forall i | 0 <= i < n :: r[i] == v
  {
    seq(n, _ => v)
  }

  /** The first of the checks `from`, ..., `end - 1` to be answered `want`, or `end`. */
  function FirstAt(answers: Answers, want: bool, from: nat, end: nat): (n: nat)
    requires from <= end
    ensures from <= n <= end
    ensures forall i: nat | from <= i < n :: answers(i) != want
    ensures n < end ==> answers(n) == want
    decreases end - from
  {
    if from == end || answers(from) == want then from else FirstAt(answers, want, from + 1, end)
  }

  lemma FirstIs(answers: Answers, want: bool, from: nat, end: nat, n: nat)
    requires from <= n <= end && (n < end ==> answers(n) == want)
    requires forall i: nat | from <= i < n :: answers(i) != want
    ensures FirstAt(answers, want, from, end) == n
  {
  }

  // ---------------------------------------------------------------- what calls do to the machine

  const LOCK_CHECKS: nat := 37
  const UNLOCK_CHECKS: nat := 50
  const CAPTURE_ATTEMPTS: nat := 15

  /** What the thread asks of the gate and of the capture. */
  datatype Call = Locking | Unlocking | Releasing | Starting | Pausing

  /** How often the lock hint was checked, the requests sent, how many inhibitors were
      tried, which are alive and which is held, how often capture was tried, and whether
      it runs. */
  datatype Effects = Effects(checks: nat, verbs: seq<Verb>, attempts: nat, children: set<nat>, held: Option<nat>,
                             resumes: nat, capturing: bool)

  const UNTOUCHED: Effects := Effects(0, [], 0, {}, None, 0, false)

  function Holding(held: Option<nat>): set<nat> {
    if held.Some? then {held.value} else {}
  }

  /** Requests the lock until a check confirms it: at once if it is locked already, and
      otherwise after one request for every six checks that fail. */
  function Locked(w: World, e: Effects): Effects {
    if !w.enabled then e
    else
      var end := e.checks + LOCK_CHECKS;
      var n := FirstAt(w.Answer(), true, e.checks, end);
      e.(checks := Min(n + 1, end),
         verbs := e.verbs + w.Requests(LockSession, if n == end then 6 else (n - e.checks + 5) / 6))
  }

  /** How locking ends: at check `n`, or after the last check without success. */
  lemma LockedWhen(w: World, e: Effects, n: nat)
    requires w.enabled && e.checks <= n <= e.checks + LOCK_CHECKS
    requires n < e.checks + LOCK_CHECKS ==> w.Answer()(n)
    requires forall i: nat | e.checks <= i < n :: !w.Answer()(i)
    ensures Locked(w, e) == e.(checks := Min(n + 1, e.checks + LOCK_CHECKS),
      verbs := e.verbs + w.Requests(LockSession, if n == e.checks + LOCK_CHECKS then 6 else (n - e.checks + 5) / 6))
  {
    FirstIs(w.Answer(), true, e.checks, e.checks + LOCK_CHECKS, n);
  }

  /** Starts an inhibitor process unless one is held. */
  function Inhibited(w: World, e: Effects): Effects {
    if e.held.Some? then e
    else if w.spawns(e.attempts)
    then e.(held := Some(e.attempts), children := e.children + {e.attempts}, attempts := e.attempts + 1)
    else e.(attempts := e.attempts + 1)
  }

  /** Requests the unlock until a check confirms it, once for every five checks that fail. */
  function Asked(w: World, e: Effects): Effects {
    var end := e.checks + UNLOCK_CHECKS;
    var n := FirstAt(w.Answer(), false, e.checks, end);
    e.(checks := Min(n + 1, end), verbs := e.verbs + w.Requests(UnlockSession, Min((n - e.checks) / 5 + 1, 10)))
  }

  lemma AskedWhen(w: World, e: Effects, n: nat)
    requires e.checks <= n <= e.checks + UNLOCK_CHECKS
    requires n < e.checks + UNLOCK_CHECKS ==> !w.Answer()(n)
    requires forall i: nat | e.checks <= i < n :: w.Answer()(i)
    ensures Asked(w, e) == e.(checks := Min(n + 1, e.checks + UNLOCK_CHECKS),
      verbs := e.verbs + w.Requests(UnlockSession, Min((n - e.checks) / 5 + 1, 10)))
  {
    FirstIs(w.Answer(), false, e.checks, e.checks + UNLOCK_CHECKS, n);
  }

  /** In which round of six checks, after a first one, or of five, check `n` comes. */
  lemma RoundOf(n: nat, round: nat)
    ensures 6 * round < n <= 6 * round + 6 ==> (n + 5) / 6 == round + 1
    ensures 5 * round <= n < 5 * round + 5 ==> n / 5 == round
  {
  }

  function Released(e: Effects): Effects {
    e.(held := None, children := e.children - Holding(e.held))
  }

  /** Tries until capture runs, but no more than 15 times. */
  function Started(w: World, e: Effects): Effects {
    if e.capturing then e.(resumes := e.resumes + 1)
    else
      var end := e.resumes + CAPTURE_ATTEMPTS;
      var n := FirstAt(w.starts, true, e.resumes, end);
      e.(capturing := n < end, resumes := Min(n + 1, end))
  }

  function Perform(w: World, e: Effects, c: Call): Effects {
    match c
    case Locking => Locked(w, e)
    case Unlocking => if w.enabled then Asked(w, Inhibited(w, e)) else e
    case Releasing => Released(e)
    case Starting => Started(w, e)
    case Pausing => e.(capturing := false)
  }

  /** The machine after a list of calls. */
  function Performed(w: World, calls: seq<Call>): Effects {
    if calls == [] then UNTOUCHED else Perform(w, Performed(w, calls[..|calls| - 1]), calls[|calls| - 1])
  }

  lemma PerformedSnoc(w: World, calls: seq<Call>, c: Call)
    ensures Performed(w, calls + [c]) == Perform(w, Performed(w, calls), c)
  {
    assert (calls + [c])[..|calls|] == calls;
  }

  // ---------------------------------------------------------------- the gate

  /** The machine's state; `calls` is the log of all calls made so far. */
  class Machine {
    const world: World
    var checks: nat
    var attempts: nat
    var resumes: nat
    var capturing: bool
    var verbs: seq<Verb>
    var children: set<nat>
    ghost var calls: seq<Call>

    constructor (w: World)
      ensures world == w && calls == [] && checks == attempts == resumes == 0
      ensures !capturing && verbs == [] && children == {}
    {
      world, checks, attempts, resumes, capturing, verbs, children, calls := w, 0, 0, 0, false, [], {}, [];
    }
  }

  class SessionGate {
    const machine: Machine
    var idleInhibit: Option<nat>

    ghost function Now(): Effects
      reads this, machine
    {
      Effects(machine.checks, machine.verbs, machine.attempts, machine.children, idleInhibit, machine.resumes,
              machine.capturing)
    }

    /** Nothing has happened to the machine but what the logged calls do to it. */
    ghost predicate Valid()
      reads this, machine
    {
      Now() == Performed(machine.world, machine.calls)
    }

    constructor (m: Machine)
      requires m.calls == [] && m.checks == m.attempts == m.resumes == 0
      requires !m.capturing && m.verbs == [] && m.children == {}
      ensures Valid() && machine == m
    {
      machine, idleInhibit := m, None;
    }

    method Loctl(v: Verb)
      modifies machine`verbs
      ensures machine.verbs == old(machine.verbs) + machine.world.Requests(v, 1)
    {
      if machine.world.session {
        machine.verbs := machine.verbs + [v];
      }
    }

    method IsLocked() returns (r: bool)
      modifies machine`checks
      ensures machine.checks == old(machine.checks) + 1 && r == machine.world.Answer()(old(machine.checks))
    {
      r := machine.world.session && machine.world.locked(machine.checks);
      machine.checks := machine.checks + 1;
    }

    lemma OneMoreRequest(v: Verb, n: nat)
      ensures machine.world.Requests(v, n) + machine.world.Requests(v, 1) == machine.world.Requests(v, n + 1)
      ensures machine.world.Requests(v, 0) == []
    {
    }

    /** Checks until one is answered `want`, but no more than `times` times. */
    method Poll(want: bool, times: nat) returns (found: bool)
      modifies machine`checks
      ensures old(machine.checks) <= machine.checks <= old(machine.checks) + times
      ensures found ==> machine.checks > old(machine.checks) && machine.world.Answer()(machine.checks - 1) == want
      ensures !found ==> machine.checks == old(machine.checks) + times
      ensures forall i: nat | old(machine.checks) <= i < (if found then machine.checks - 1 else machine.checks) ::
        machine.world.Answer()(i) != want
    {
      found := false;
      for poll := 0 to times
        invariant machine.checks == old(machine.checks) + poll
        invariant forall i: nat | old(machine.checks) <= i < machine.checks :: machine.world.Answer()(i) != want
      {
        var locked := IsLocked();
        if locked == want {
          return true;
        }
      }
    }

    /** Up to six rounds of a request and six checks; `made` of them were begun. */
    method LockRounds() returns (found: bool, made: nat)
      modifies machine`checks, machine`verbs
      ensures machine.verbs == old(machine.verbs) + machine.world.Requests(LockSession, made)
      ensures found ==> made >= 1 && old(machine.checks) + 6 * (made - 1) < machine.checks <= old(machine.checks) + 6 * made
      ensures found ==> machine.world.Answer()(machine.checks - 1)
      ensures made <= 6 && (!found ==> made == 6 && machine.checks == old(machine.checks) + 36)
      ensures forall i: nat | old(machine.checks) <= i < (if found then machine.checks - 1 else machine.checks) ::
        !machine.world.Answer()(i)
    {
      hide Repeat, World.Requests, World.Answer;
      ghost var from := machine.checks;
      OneMoreRequest(LockSession, 0);
      made := 0;
      found := false;
      for round := 0 to 6
        invariant made == round && machine.checks == from + 6 * round
        invariant forall i: nat | from <= i < machine.checks :: !machine.world.Answer()(i)
        invariant machine.verbs == old(machine.verbs) + machine.world.Requests(LockSession, round)
      {
        OneMoreRequest(LockSession, round);
        Loctl(LockSession);
        made := made + 1;
        found := Poll(true, 6);
        if found {
          return;
        }
      }
    }

    method RequestLock()
      requires machine.world.enabled
      modifies machine`checks, machine`verbs
      ensures Now() == Locked(machine.world, old(Now()))
    {
      hide FirstAt, Repeat, Locked, World.Requests, World.Answer;
      ghost var was := Now();
      OneMoreRequest(LockSession, 0);
      var done := IsLocked();
      if done {
        LockedWhen(machine.world, was, was.checks);
        return;
      }
      var found, made := LockRounds();
      ghost var last := if found then machine.checks - 1 else machine.checks;
      if found {
        RoundOf(last - was.checks, made - 1);
      }
      LockedWhen(machine.world, was, last);
    }

    method Lock()
      requires Valid()
      modifies machine`checks, machine`verbs, machine`calls
      ensures Valid() && machine.calls == old(machine.calls) + [Locking]
    {
      PerformedSnoc(machine.world, machine.calls, Locking);
      hide Performed;
      if machine.world.enabled {
        RequestLock();
      }
      machine.calls := machine.calls + [Locking];
    }

    method HoldIdle()
      modifies this`idleInhibit, machine`children, machine`attempts
      ensures Now() == Inhibited(machine.world, old(Now()))
    {
      if idleInhibit.None? {
        if machine.world.spawns(machine.attempts) {
          idleInhibit := Some(machine.attempts);
          machine.children := machine.children + {machine.attempts};
        }
        machine.attempts := machine.attempts + 1;
      }
    }

    method RequestUnlock()
      modifies machine`checks, machine`verbs
      ensures Now() == Asked(machine.world, old(Now()))
    {
      hide FirstAt, Repeat, Asked, World.Requests, World.Answer;
      ghost var was, from, before := Now(), machine.checks, machine.verbs;
      ghost var answer := machine.world.Answer();
      OneMoreRequest(UnlockSession, 0);
      for round := 0 to 10
        invariant machine.checks == from + 5 * round
        invariant forall i: nat | from <= i < machine.checks :: answer(i)
        invariant machine.verbs == before + machine.world.Requests(UnlockSession, round)
      {
        OneMoreRequest(UnlockSession, round);
        Loctl(UnlockSession);
        var done := Poll(false, 5);
        if done {
          RoundOf(machine.checks - 1 - from, round);
          AskedWhen(machine.world, was, machine.checks - 1);
          return;
        }
      }
      AskedWhen(machine.world, was, from + UNLOCK_CHECKS);
    }

    /** Holds an inhibitor first. */
    method Unlock()
      requires Valid()
      modifies this`idleInhibit, machine`checks, machine`verbs, machine`children, machine`attempts, machine`calls
      ensures Valid() && machine.calls == old(machine.calls) + [Unlocking]
    {
      PerformedSnoc(machine.world, machine.calls, Unlocking);
      hide Performed, Inhibited, Asked;
      if machine.world.enabled {
        HoldIdle();
        RequestUnlock();
      }
      machine.calls := machine.calls + [Unlocking];
    }

    method ReleaseIdle()
      requires Valid()
      modifies this`idleInhibit, machine`children, machine`calls
      ensures Valid() && machine.calls == old(machine.calls) + [Releasing]
    {
      PerformedSnoc(machine.world, machine.calls, Releasing);
      hide Performed;
      if idleInhibit.Some? {
        machine.children := machine.children - {idleInhibit.value};
        idleInhibit := None;
      }
      machine.calls := machine.calls + [Releasing];
    }
  }

  // ---------------------------------------------------------------- the capture thread

  datatype Cmd = Capture(on: bool) | Display(id: nat) | Cursor(show: bool)

  /** The calls that a command makes; a thread that ends makes those of a pause. */
  function CallsFor(cmd: Cmd): seq<Call> {
    match cmd
    case Capture(true) => [Unlocking, Starting]
    case Capture(false) => [Pausing, Releasing, Locking]
    case _ => []
  }

  class CaptureThread {
    const gate: SessionGate
    var display: nat
    var cursor: bool

    ghost predicate Valid()
      reads this, gate, gate.machine
    {
      gate.Valid()
    }

    /** Capture has come up but not begun: the session is locked first of all. */
    constructor (g: SessionGate, displayIndex: nat)
      requires g.Valid() && g.machine.calls == []
      modifies g.machine`checks, g.machine`verbs, g.machine`calls
      ensures Valid() && gate == g && g.machine.calls == [Locking]
    {
      gate, display, cursor := g, displayIndex, true;
      new;
      gate.Lock();
    }

    method Resume()
      modifies gate.machine`capturing, gate.machine`resumes
      ensures gate.machine.resumes == old(gate.machine.resumes) + 1
      ensures gate.machine.capturing == (old(gate.machine.capturing) || gate.machine.world.starts(old(gate.machine.resumes)))
    {
      gate.machine.capturing := gate.machine.capturing || gate.machine.world.starts(gate.machine.resumes);
      gate.machine.resumes := gate.machine.resumes + 1;
    }

    /** The retry loop around `resume`. */
    method TryToStart()
      modifies gate.machine`capturing, gate.machine`resumes
      ensures gate.Now() == Started(gate.machine.world, old(gate.Now()))
    {
      hide FirstAt;
      ghost var from, end := gate.machine.resumes, gate.machine.resumes + CAPTURE_ATTEMPTS;
      ghost var starts := gate.machine.world.starts;
      for attempt := 0 to CAPTURE_ATTEMPTS
        invariant gate.machine.resumes == from + attempt
        invariant attempt == 0 ==> gate.machine.capturing == old(gate.machine.capturing)
        invariant attempt > 0 ==> !gate.machine.capturing && !old(gate.machine.capturing)
        invariant forall i: nat | from <= i < gate.machine.resumes :: !starts(i)
      {
        Resume();
        if gate.machine.capturing {
          if !old(gate.machine.capturing) {
            FirstIs(starts, true, from, end, from + attempt);
          }
          return;
        }
      }
      FirstIs(starts, true, from, end, end);
    }

    method StartCapture()
      requires Valid()
      modifies gate.machine`capturing, gate.machine`resumes, gate.machine`calls
      ensures Valid() && gate.machine.calls == old(gate.machine.calls) + [Starting]
    {
      PerformedSnoc(gate.machine.world, gate.machine.calls, Starting);
      hide Performed;
      TryToStart();
      gate.machine.calls := gate.machine.calls + [Starting];
    }

    method PauseCapture()
      requires Valid()
      modifies gate.machine`capturing, gate.machine`calls
      ensures Valid() && gate.machine.calls == old(gate.machine.calls) + [Pausing]
    {
      PerformedSnoc(gate.machine.world, gate.machine.calls, Pausing);
      hide Performed;
      gate.machine.capturing := false;
      gate.machine.calls := gate.machine.calls + [Pausing];
    }

    /** Stops capture, lets go of the inhibitor and locks; also how the thread ends. */
    method Rest()
      requires Valid()
      modifies gate`idleInhibit, gate.machine
      ensures Valid() && gate.machine.calls == old(gate.machine.calls) + CallsFor(Capture(false))
    {
      PauseCapture();
      gate.ReleaseIdle();
      gate.Lock();
    }

    /** Obeys one command. */
    method Obey(cmd: Cmd)
      requires Valid()
      modifies this, gate`idleInhibit, gate.machine
      ensures Valid() && gate.machine.calls == old(gate.machine.calls) + CallsFor(cmd)
      ensures display == (if cmd.Display? then cmd.id else old(display))
      ensures cursor == (if cmd.Cursor? then cmd.show else old(cursor))
    {
      match cmd {
        case Capture(true) =>
          gate.Unlock();
          StartCapture();
        case Capture(false) =>
          Rest();
        case Display(id) =>
          display := id;
        case Cursor(show) =>
          cursor := show;
      }
    }
  }

  // ---------------------------------------------------------------- what a log of calls means

  /** The gate was asked to lock, and has not been asked for anything since. */
  predicate Sealed(calls: seq<Call>) {
    calls != [] && calls[|calls| - 1] == Locking
  }

  /** The last that was asked of the capture was to start. */
  function Wants(calls: seq<Call>): bool {
    if calls == [] then false
    else
      match calls[|calls| - 1]
      case Starting => true
      case Pausing => false
      case _ => Wants(calls[..|calls| - 1])
  }

  /** No inhibitor is ever alive but the one that is held. */
  lemma {:induction false} OneInhibitor(w: World, calls: seq<Call>)
    ensures var e := Performed(w, calls);
      e.children == Holding(e.held) && |e.children| <= 1
  {
    hide FirstAt;
    if calls != [] {
      OneInhibitor(w, calls[..|calls| - 1]);
    }
  }

  /** How asking to lock, or to unlock, ends: at the first check that is answered `want`, or
      after `most` checks without one. A request is sent for every `each` checks that fail,
      after `free` that cost none, and nothing else is sent. */
  ghost predicate AskedFor(w: World, before: Effects, e: Effects, v: Verb, want: bool, free: nat, each: nat, most: nat)
    requires 0 < each && free <= each
  {
    && before.checks < e.checks <= before.checks + most
    && (forall i: nat | before.checks <= i < e.checks - 1 :: w.Answer()(i) != want)
    && (w.Answer()(e.checks - 1) == want || e.checks == before.checks + most)
    && var made := (e.checks - before.checks + each - 1 - free) / each;
    && before.verbs <= e.verbs && |e.verbs| == |before.verbs| + (if w.session then made else 0)
    && forall i | |before.verbs| <= i < |e.verbs| :: e.verbs[i] == v
  }

  /** A sealed session was either confirmed locked by the very last check, or six lock
      requests and 37 checks in a row were of no avail. Nothing is asked of a session that
      the first check finds locked, and asking starts no inhibitor and no capture. */
  lemma SealedMeans(w: World, calls: seq<Call>)
    requires w.enabled && Sealed(calls)
    ensures var e, before := Performed(w, calls), Performed(w, calls[..|calls| - 1]);
      && AskedFor(w, before, e, LockSession, true, 1, 6, 37)
      && e == before.(checks := e.checks, verbs := e.verbs)
  {
    hide Performed;
    PerformedSnoc(w, calls[..|calls| - 1], Locking);
    assert calls == calls[..|calls| - 1] + [Locking];
    LockOutcome(w, Performed(w, calls[..|calls| - 1]));
    hide Locked;
  }

  lemma LockOutcome(w: World, before: Effects)
    requires w.enabled
    ensures var e := Locked(w, before);
      AskedFor(w, before, e, LockSession, true, 1, 6, 37) && e == before.(checks := e.checks, verbs := e.verbs)
  {
    var n := FirstAt(w.Answer(), true, before.checks, before.checks + LOCK_CHECKS);
    LockedWhen(w, before, n);
    hide FirstAt, Locked, World.Answer;
  }

  /** What an unlock call leaves: the last check found the session unlocked, or ten unlock
      requests and 50 checks in a row were of no avail; and an inhibitor is held, unless
      none was before and the one attempt to start one failed. */
  lemma UnlockedMeans(w: World, calls: seq<Call>)
    requires w.enabled
    ensures var before, e := Performed(w, calls), Performed(w, calls + [Unlocking]);
      && AskedFor(w, before, e, UnlockSession, false, 0, 5, 50)
      && (e.held.Some? <==> before.held.Some? || w.spawns(before.attempts))
      && e.attempts == before.attempts + (if before.held.Some? then 0 else 1)
      && (before.held.Some? ==> e.held == before.held)
      && e.capturing == before.capturing && e.resumes == before.resumes
  {
    PerformedSnoc(w, calls, Unlocking);
    hide Performed;
    UnlockOutcome(w, Inhibited(w, Performed(w, calls)));
    hide Asked;
  }

  lemma UnlockOutcome(w: World, before: Effects)
    ensures var e := Asked(w, before);
      AskedFor(w, before, e, UnlockSession, false, 0, 5, 50) && e == before.(checks := e.checks, verbs := e.verbs)
  {
    var n := FirstAt(w.Answer(), false, before.checks, before.checks + UNLOCK_CHECKS);
    AskedWhen(w, before, n);
    hide FirstAt, Asked, World.Answer;
  }

  /** A gate that is disabled does nothing, whatever is asked of it: no check, no request, no
      inhibitor. */
  lemma {:induction false} DisabledGateIsIdle(w: World, calls: seq<Call>)
    requires !w.enabled
    ensures var e := Performed(w, calls);
      e.checks == 0 && e.verbs == [] && e.attempts == 0 && e.children == {} && e.held.None?
  {
    hide FirstAt;
    if calls != [] {
      DisabledGateIsIdle(w, calls[..|calls| - 1]);
    }
  }

  /** Releasing lets go of the inhibitor and of nothing else. */
  lemma ReleasedMeans(w: World, calls: seq<Call>)
    ensures var before, e := Performed(w, calls), Performed(w, calls + [Releasing]);
      e.children == {} && e == before.(held := None, children := {})
  {
    OneInhibitor(w, calls);
    PerformedSnoc(w, calls, Releasing);
  }

  lemma {:induction false} NoSessionNoVerbs(w: World, calls: seq<Call>)
    requires !w.session
    ensures Performed(w, calls).verbs == []
  {
    hide FirstAt;
    if calls != [] {
      NoSessionNoVerbs(w, calls[..|calls| - 1]);
    }
  }

  /** A gate that is enabled without a session is not disabled: it never sends a request,
      but each lock waits for 37 checks, each unlock for one, and an unlock holds an
      inhibitor if one can be started. */
  lemma EnabledWithoutSession(w: World, calls: seq<Call>)
    requires w.enabled && !w.session
    ensures var e, l, u := Performed(w, calls), Performed(w, calls + [Locking]), Performed(w, calls + [Unlocking]);
      && l.checks == e.checks + LOCK_CHECKS && u.checks == e.checks + 1
      && e.verbs == l.verbs == u.verbs == []
      && (u.held.Some? <==> e.held.Some? || w.spawns(e.attempts))
  {
    NoSessionNoVerbs(w, calls);
    NoSessionNoVerbs(w, calls + [Locking]);
    NoSessionNoVerbs(w, calls + [Unlocking]);
    PerformedSnoc(w, calls, Locking);
    PerformedSnoc(w, calls, Unlocking);
    hide Performed;
    var from := Performed(w, calls).checks;
    FirstIs(w.Answer(), true, from, from + LOCK_CHECKS, from + LOCK_CHECKS);
    FirstIs(w.Answer(), false, from, from + UNLOCK_CHECKS, from);
  }

  /** One of the next 15 attempts to start capturing succeeds. */
  ghost predicate CanStart(w: World, from: nat) {
    exists i: nat :: from <= i < from + CAPTURE_ATTEMPTS && w.starts(i)
  }

  /** A pause leaves no capture, no inhibitor and a sealed session. */
  lemma PauseOutcome(w: World, calls: seq<Call>)
    ensures var e := calls + CallsFor(Capture(false)); var after := Performed(w, e);
      && !after.capturing && after.held.None? && after.children == {}
      && Sealed(e) && !Wants(e)
  {
    OneInhibitor(w, calls);
    var one, two := calls + [Pausing], calls + [Pausing] + [Releasing];
    var e := calls + CallsFor(Capture(false));
    assert e == two + [Locking];
    PerformedSnoc(w, calls, Pausing);
    PerformedSnoc(w, one, Releasing);
    PerformedSnoc(w, two, Locking);
    assert e[..|e| - 1] == two && two[..|two| - 1] == one;
    hide Performed, FirstAt;
    assert !Wants(one);
    assert !Wants(two);
  }

  lemma StartedWhen(w: World, e: Effects)
    ensures Started(w, e).capturing <==> e.capturing || CanStart(w, e.resumes)
    ensures Tried(w, e, Started(w, e))
  {
    hide FirstAt;
  }

  /** Capture was tried until it ran, at most 15 times, and once if it ran already. */
  ghost predicate Tried(w: World, before: Effects, e: Effects) {
    && e == before.(resumes := e.resumes, capturing := e.capturing)
    && if before.capturing then e.resumes == before.resumes + 1
       else
         && before.resumes < e.resumes <= before.resumes + 15
         && (forall i: nat | before.resumes <= i < e.resumes - 1 :: !w.starts(i))
         && (w.starts(e.resumes - 1) || e.resumes == before.resumes + 15)
  }

  lemma UnlockingKeepsCapture(w: World, e: Effects)
    ensures Perform(w, e, Unlocking).capturing == e.capturing && Perform(w, e, Unlocking).resumes == e.resumes
  {
    hide FirstAt;
  }

  /** A start command unlocks first, and leaves capture running exactly if it ran or an
      attempt can succeed. */
  lemma StartOutcome(w: World, calls: seq<Call>)
    ensures var before, e := Performed(w, calls), calls + CallsFor(Capture(true));
      && Wants(e) && !Sealed(e)
      && (Performed(w, e).capturing <==> before.capturing || CanStart(w, before.resumes))
      && Tried(w, Performed(w, calls + [Unlocking]), Performed(w, e))
  {
    hide Performed, FirstAt, Asked, Inhibited, Locked, Started, CanStart, Tried;
    var one := calls + [Unlocking];
    assert one + [Starting] == calls + CallsFor(Capture(true));
    PerformedSnoc(w, calls, Unlocking);
    PerformedSnoc(w, one, Starting);
    UnlockingKeepsCapture(w, Performed(w, calls));
    StartedWhen(w, Performed(w, one));
    LastIsStarting(one);
  }

  lemma LastIsStarting(calls: seq<Call>)
    ensures Wants(calls + [Starting]) && !Sealed(calls + [Starting])
  {
  }
}
