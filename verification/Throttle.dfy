/**
 The login throttle: exponential backoff per user, with housekeeping. Times are whole
 nanoseconds of a clock that does not go back.
 */
module Throttle {
  import opened Prelude

  const FREE_ATTEMPTS: nat := 5
  const MAX_BACKOFF: nat := 3600
  const SECOND: nat := 1_000_000_000
  const IDLE_TTL: nat := 6 * 3600 * 1_000_000_000

  datatype Attempt = Attempt(fails: nat, lockedUntil: Option<nat>, last: Option<nat>)

  type Table = map<string, Attempt>

  /** The answer to "may this user try now?"; refusals say after how many seconds to retry. */
  datatype Answer = Ok | RetryAfter(secs: nat)

  function Pow2(n: nat): (r: nat)
    ensures r >= 1
  {
    if n == 0 then 1 else 2 * Pow2(n - 1)
  }

  /** Seconds of lockout after failure number `fails`. */
  function Backoff(fails: nat): nat
    requires fails > FREE_ATTEMPTS
  {
    Min(Pow2(fails - FREE_ATTEMPTS), MAX_BACKOFF)
  }

  function Check(t: Table, user: string, now: nat): Answer {
    if user in t && t[user].lockedUntil.Some? && now < t[user].lockedUntil.value
    then RetryAfter((t[user].lockedUntil.value - now) / SECOND + 1)
    else Ok
  }

  function Failed(a: Attempt, now: nat): Attempt {
    Attempt(a.fails + 1,
            if a.fails + 1 > FREE_ATTEMPTS then Some(now + Backoff(a.fails + 1) * SECOND) else a.lockedUntil,
            Some(now))
  }

  predicate Kept(a: Attempt, now: nat) {
    a.last.Some? && now - a.last.value < IDLE_TTL
  }

  /** Housekeeping: entries idle for six hours are forgotten. */
  function Retain(t: Table, now: nat): Table {
    map user | user in t && Kept(t[user], now) :: t[user]
  }

  function Counted(t: Table, user: string, now: nat): Table {
    t[user := Failed(if user in t then t[user] else Attempt(0, None, None), now)]
  }

  class LoginThrottle {
    var table: Table

    constructor ()
      ensures table == map[]
    {
      table := map[];
    }

    method CheckUser(user: string, now: nat) returns (r: Answer)
      ensures r == Check(table, user, now)
    {
      r := Ok;
      if user in table {
        var a := table[user];
        if a.lockedUntil.Some? {
          var until := a.lockedUntil.value;
          if now < until {
            r := RetryAfter((until - now) / SECOND + 1);
          }
        }
      }
    }

    method RecordFailure(user: string, now: nat)
      modifies this
      ensures table == Retain(Counted(old(table), user, now), now)
    {
      var a := if user in table then table[user] else Attempt(0, None, None);
      a := a.(fails := a.fails + 1, last := Some(now));
      if a.fails > FREE_ATTEMPTS {
        var secs := Min(Pow2(a.fails - FREE_ATTEMPTS), MAX_BACKOFF);
        a := a.(lockedUntil := Some(now + secs * SECOND));
      }
      table := table[user := a];
      table := map u | u in table && Kept(table[u], now) :: table[u];
    }

    method RecordSuccess(user: string)
      modifies this
      ensures table == old(table) - {user}
    {
      table := table - {user};
    }
  }

  // ---------------------------------------------------------------- runs

  datatype Event = Failure(user: string, now: nat) | Success(user: string)

  function Next(t: Table, e: Event): Table {
    match e
    case Failure(user, now) => Retain(Counted(t, user, now), now)
    case Success(user) => t - {user}
  }

  function After(events: seq<Event>): Table {
    if events == [] then map[] else Next(After(events[..|events| - 1]), events[|events| - 1])
  }

  /** The latest time of any event. */
  function Clock(events: seq<Event>): nat {
    if events == [] then 0
    else if events[|events| - 1].Failure? then events[|events| - 1].now
    else Clock(events[..|events| - 1])
  }

  ghost predicate Forward(events: seq<Event>) {
    events == [] ||
    (Forward(events[..|events| - 1]) &&
     (events[|events| - 1].Failure? ==> Clock(events[..|events| - 1]) <= events[|events| - 1].now))
  }

  // ---------------------------------------------------------------- housekeeping

  /** A lockout ends within an hour of the failure that caused it. */
  ghost predicate Inv(t: Table) {
    forall user | user in t :: t[user].last.Some? &&
      (t[user].lockedUntil.Some? ==> t[user].lockedUntil.value <= t[user].last.value + MAX_BACKOFF * SECOND)
  }

  lemma CountedKeepsInv(t: Table, user: string, now: nat)
    requires Inv(t) && (user in t ==> t[user].last.value <= now)
    ensures Inv(Counted(t, user, now))
  {
    hide Pow2;
  }

  lemma {:induction false} RunKeepsInv(events: seq<Event>)
    requires Forward(events)
    ensures Inv(After(events))
    ensures forall user | user in After(events) :: After(events)[user].last.Some? && After(events)[user].last.value <= Clock(events)
  {
    if events != [] {
      RunKeepsInv(events[..|events| - 1]);
      var t, e := After(events[..|events| - 1]), events[|events| - 1];
      if e.Failure? {
        CountedKeepsInv(t, e.user, e.now);
        hide Failed, Inv;
        RetainKeepsInv(Counted(t, e.user, e.now), e.now);
        LastSeen(t, e.user, e.now);
      }
    }
  }

  lemma RetainKeepsInv(t: Table, now: nat)
    requires Inv(t)
    ensures Inv(Retain(t, now))
  {
  }

  lemma LastSeen(t: Table, user: string, now: nat)
    requires forall u | u in t :: t[u].last.Some? && t[u].last.value <= now
    ensures forall u | u in Counted(t, user, now) :: Counted(t, user, now)[u].last.Some? && Counted(t, user, now)[u].last.value <= now
  {
  }

  /** Housekeeping never forgets an entry that is still locked, and by itself changes no
      answer then or later. */
  lemma HousekeepingIsInvisible(events: seq<Event>, user: string, now: nat, who: string, later: nat)
    requires Forward(events) && Clock(events) <= now <= later
    ensures var t := Counted(After(events), user, now);
      && Check(Retain(t, now), who, later) == Check(t, who, later)
      && (who in t && Check(t, who, now) != Ok ==> who in Retain(t, now))
  {
    RunKeepsInv(events);
    CountedKeepsInv(After(events), user, now);
    hide Failed;
  }

  /** The same run without housekeeping. */
  function Plain(events: seq<Event>): Table {
    if events == [] then map[]
    else
      var before, e := Plain(events[..|events| - 1]), events[|events| - 1];
      match e
      case Failure(user, now) => Counted(before, user, now)
      case Success(user) => before - {user}
  }

  /** The user's failures since its last success. */
  function Count(events: seq<Event>, user: string): nat {
    if events == [] then 0
    else
      var before, e := events[..|events| - 1], events[|events| - 1];
      if e.user != user then Count(before, user) else if e.Failure? then Count(before, user) + 1 else 0
  }

  /** When the user last failed. */
  function Latest(events: seq<Event>, user: string): nat {
    if events == [] then 0
    else
      var e := events[|events| - 1];
      if e.Failure? && e.user == user then e.now else Latest(events[..|events| - 1], user)
  }

  /** The user's failures since its last success, or since another user failed six hours or
      more after the latest of them. */
  function Recent(events: seq<Event>, user: string): nat {
    if events == [] then 0
    else
      var before, e := events[..|events| - 1], events[|events| - 1];
      if e.user == user then (if e.Failure? then Recent(before, user) + 1 else 0)
      else if e.Failure? && e.now - Latest(before, user) >= IDLE_TTL then 0
      else Recent(before, user)
  }

  /** The entry after `n` failures, the last one at `last`. */
  function Entry(n: nat, last: nat): Attempt {
    Attempt(n, if n > FREE_ATTEMPTS then Some(last + Backoff(n) * SECOND) else None, Some(last))
  }

  ghost predicate Holds(t: Table, user: string, n: nat, last: nat) {
    (user in t <==> n > 0) && (n > 0 ==> t[user] == Entry(n, last))
  }

  lemma HoldsStep(t: Table, plain: Table, user: string, recent: nat, count: nat, last: nat, e: Event)
    requires Holds(t, user, recent, last) && Holds(plain, user, count, last)
    ensures e == Success(user) ==> Holds(Next(t, e), user, 0, last) && Holds(plain - {user}, user, 0, last)
    ensures e.Success? && e.user != user ==> Holds(Next(t, e), user, recent, last) && Holds(plain - {e.user}, user, count, last)
    ensures e.Failure? && e.user == user ==>
      Holds(Next(t, e), user, recent + 1, e.now) && Holds(Counted(plain, user, e.now), user, count + 1, e.now)
    ensures e.Failure? && e.user != user ==>
      && Holds(Next(t, e), user, if e.now - last >= IDLE_TTL then 0 else recent, last)
      && Holds(Counted(plain, e.user, e.now), user, count, last)
  {
    hide Backoff;
  }

  /** What the two tables hold, read off the events. */
  lemma {:induction false} TablesHold(events: seq<Event>, user: string)
    requires Forward(events)
    ensures var last := Latest(events, user);
      && Holds(After(events), user, Recent(events, user), last)
      && Holds(Plain(events), user, Count(events, user), last)
      && Recent(events, user) <= Count(events, user) && last <= Clock(events)
      && (Recent(events, user) == 0 < Count(events, user) ==> Clock(events) - last >= IDLE_TTL)
  {
    if events != [] {
      var before, e := events[..|events| - 1], events[|events| - 1];
      TablesHold(before, user);
      HoldsStep(After(before), Plain(before), user, Recent(before, user), Count(before, user), Latest(before, user), e);
      hide Holds, Next, Counted;
    }
  }

  /** After any run a user is refused exactly while the lock of its last failure lasts; five
      failures lock nothing. */
  lemma RefusedExactly(events: seq<Event>, user: string, now: nat)
    requires Forward(events) && Clock(events) <= now
    ensures var n := Recent(events, user);
      Check(After(events), user, now) != Ok <==> n > 5 && now < Latest(events, user) + Backoff(n) * 1_000_000_000
  {
    TablesHold(events, user);
    hide After, Plain, Forward, Recent, Latest, Backoff;
  }

  /** The table of the run and the one without housekeeping answer everyone alike, then and
      later. */
  ghost predicate SameAnswers(events: seq<Event>) {
    forall who, later | later >= Clock(events) :: Check(After(events), who, later) == Check(Plain(events), who, later)
  }

  /** Counts that lock for equally long: not at all, or an hour. */
  predicate SameBackoff(recent: nat, count: nat) {
    recent == count || count <= FREE_ATTEMPTS || recent >= FREE_ATTEMPTS + 12
  }

  lemma PowerAtLeast(n: nat, m: nat)
    requires n < m
    ensures Pow2(m) >= 2 * Pow2(n)
    decreases m
  {
    if n < m - 1 {
      PowerAtLeast(n, m - 1);
    }
  }

  lemma BackoffsDiffer(recent: nat, count: nat)
    requires FREE_ATTEMPTS < recent <= count
    ensures Backoff(recent) == Backoff(count) <==> SameBackoff(recent, count)
    ensures Backoff(recent) <= Backoff(count)
  {
    PowersOfTwo();
    if recent < count {
      PowerAtLeast(recent - FREE_ATTEMPTS, count - FREE_ATTEMPTS);
    }
    if recent >= FREE_ATTEMPTS + 12 {
      LargePower(recent - FREE_ATTEMPTS);
    }
  }

  /** Directly after a failure the two counts answer alike only if they lock equally long. */
  lemma AlikeAtFailure(t: Table, plain: Table, user: string, recent: nat, count: nat, now: nat)
    requires Holds(t, user, recent, now) && Holds(plain, user, count, now) && 0 < recent <= count
    ensures SameBackoff(recent, count) <==> forall later | later >= now :: Check(t, user, later) == Check(plain, user, later)
  {
    if recent > FREE_ATTEMPTS {
      BackoffsDiffer(recent, count);
    }
    if !SameBackoff(recent, count) {
      var later := if recent > FREE_ATTEMPTS then now + Backoff(recent) * SECOND else now;
      hide Backoff;
      assert Check(t, user, later) == Ok && Check(plain, user, later) != Ok;
    }
  }

  /** Every failure is counted, by both, as a number that locks equally long. */
  ghost predicate Harmless(events: seq<Event>) {
    events == [] ||
    (var e := events[|events| - 1];
     && Harmless(events[..|events| - 1])
     && (e.Failure? ==> SameBackoff(Recent(events, e.user), Count(events, e.user))))
  }

  lemma {:induction false} HarmlessForAll(events: seq<Event>, who: string)
    requires Harmless(events)
    ensures Recent(events, who) == 0 || SameBackoff(Recent(events, who), Count(events, who))
  {
    if events != [] {
      HarmlessForAll(events[..|events| - 1], who);
    }
  }

  lemma HarmlessAnswers(events: seq<Event>)
    requires Forward(events) && Harmless(events)
    ensures SameAnswers(events)
  {
    hide After, Plain, Forward, Harmless, Count, Recent, Latest, Clock;
    forall who, later | later >= Clock(events)
      ensures Check(After(events), who, later) == Check(Plain(events), who, later)
    {
      TablesHold(events, who);
      HarmlessForAll(events, who);
      SameCheck(After(events), Plain(events), who, Recent(events, who), Count(events, who), Latest(events, who), later);
    }
  }

  lemma SameCheck(t: Table, plain: Table, who: string, recent: nat, count: nat, last: nat, later: nat)
    requires Holds(t, who, recent, last) && Holds(plain, who, count, last) && recent <= count && last <= later
    requires recent == 0 || SameBackoff(recent, count)
    requires recent == 0 < count ==> later - last >= IDLE_TTL
    ensures Check(t, who, later) == Check(plain, who, later)
  {
    if recent > FREE_ATTEMPTS {
      BackoffsDiffer(recent, count);
    }
  }

  /** Runs with and without housekeeping give the same answers throughout if and only if
      every failure is counted as a number that locks equally long. */
  lemma {:induction false} HousekeepingAgrees(events: seq<Event>)
    requires Forward(events)
    ensures (forall n | 0 <= n <= |events| :: SameAnswers(events[..n])) <==> Harmless(events)
  {
    assert events[..|events|] == events;
    if events != [] {
      var before, e := events[..|events| - 1], events[|events| - 1];
      HousekeepingAgrees(before);
      hide SameAnswers;
      assert forall n | 0 <= n <= |before| :: before[..n] == events[..n];
      if Harmless(events) {
        HarmlessAnswers(events);
        assert forall n | 0 <= n <= |events| :: n <= |before| || events[..n] == events;
      } else if Harmless(before) {
        HarmIsSeen(events);
      } else {
        var n :| 0 <= n <= |before| && !SameAnswers(before[..n]);
        assert !SameAnswers(events[..n]);
      }
    } else {
      assert SameAnswers([]);
    }
  }

  lemma HarmIsSeen(events: seq<Event>)
    requires Forward(events) && events != [] && events[|events| - 1].Failure?
    requires !SameBackoff(Recent(events, events[|events| - 1].user), Count(events, events[|events| - 1].user))
    ensures !SameAnswers(events)
  {
    var user, now := events[|events| - 1].user, events[|events| - 1].now;
    TablesHold(events, user);
    assert Latest(events, user) == now == Clock(events) && Recent(events, user) > 0;
    hide After, Plain, Forward, Count, Recent, Latest, Clock;
    AlikeAtFailure(After(events), Plain(events), user, Recent(events, user), Count(events, user), now);
  }

  // ---------------------------------------------------------------- what is forgotten

  /** The user's failures have been dropped, and it has had no event since. */
  predicate Forgotten(events: seq<Event>, user: string) {
    Recent(events, user) == 0 < Count(events, user)
  }

  /** Nobody fails again once forgotten. */
  ghost predicate NeverForgotten(events: seq<Event>) {
    events == [] ||
    (var before, e := events[..|events| - 1], events[|events| - 1];
     NeverForgotten(before) && (e.Failure? ==> !Forgotten(before, e.user)))
  }

  lemma {:induction false} NothingLost(events: seq<Event>, user: string)
    requires NeverForgotten(events)
    ensures Recent(events, user) == 0 || Recent(events, user) == Count(events, user)
  {
    if events != [] {
      NothingLost(events[..|events| - 1], user);
    }
  }

  lemma {:induction false} NeverForgottenIsHarmless(events: seq<Event>)
    requires NeverForgotten(events)
    ensures Harmless(events)
  {
    if events != [] {
      NeverForgottenIsHarmless(events[..|events| - 1]);
      NothingLost(events, events[|events| - 1].user);
    }
  }

  /** The run, and its last failure `k` times more. */
  function Again(events: seq<Event>, k: nat): seq<Event>
    requires events != []
  {
    if k == 0 then events else Again(events, k - 1) + [events[|events| - 1]]
  }

  lemma OneMore(events: seq<Event>, e: Event)
    requires Forward(events) && e.Failure? && Clock(events) == e.now
    ensures var more := events + [e];
      && Forward(more) && Clock(more) == e.now
      && Recent(more, e.user) == Recent(events, e.user) + 1 && Count(more, e.user) == Count(events, e.user) + 1
      && (NeverForgotten(events) && Recent(events, e.user) > 0 ==> NeverForgotten(more))
  {
    assert (events + [e])[..|events|] == events;
  }

  lemma {:induction false} AgainCounts(events: seq<Event>, k: nat)
    requires Forward(events) && events != [] && events[|events| - 1].Failure?
    ensures var more, user := Again(events, k), events[|events| - 1].user;
      && more != [] && more[|more| - 1] == events[|events| - 1] && Forward(more)
      && Recent(more, user) == Recent(events, user) + k && Count(more, user) == Count(events, user) + k
      && (NeverForgotten(events) ==> NeverForgotten(more))
  {
    var e := events[|events| - 1];
    assert Recent(events, e.user) > 0;
    if k > 0 {
      AgainCounts(events, k - 1);
      var shorter := Again(events, k - 1);
      assert Clock(shorter) == e.now;
      hide Forward, Recent, Count, NeverForgotten, Clock;
      OneMore(shorter, e);
    }
  }

  /** Nobody fails once forgotten if and only if, whichever failure of the run is repeated
      however often, housekeeping is not noticed. */
  lemma {:induction false} ForgettingShows(events: seq<Event>)
    requires Forward(events)
    ensures NeverForgotten(events) <==>
      forall n, k: nat | 0 < n <= |events| && events[n - 1].Failure? :: SameAnswers(Again(events[..n], k))
  {
    if events != [] {
      var before, e := events[..|events| - 1], events[|events| - 1];
      ForgettingShows(before);
      assert forall n | 0 <= n <= |before| :: before[..n] == events[..n];
      assert events[..|events|] == events;
      hide SameAnswers, Again;
      if NeverForgotten(events) {
        if e.Failure? {
          forall k: nat ensures SameAnswers(Again(events, k)) {
            AgainCounts(events, k);
            NeverForgottenIsHarmless(Again(events, k));
            HarmlessAnswers(Again(events, k));
          }
        }
        forall n, k: nat | 0 < n <= |events| && events[n - 1].Failure? ensures SameAnswers(Again(events[..n], k)) {
          if n <= |before| {
            assert SameAnswers(Again(before[..n], k));
          }
        }
      } else if NeverForgotten(before) {
        var k := LossShows(events);
        assert !SameAnswers(Again(events[..|events|], k));
      } else {
        var n, k: nat :| 0 < n <= |before| && before[n - 1].Failure? && !SameAnswers(Again(before[..n], k));
        assert !SameAnswers(Again(events[..n], k));
      }
    }
  }

  /** A failure of a forgotten user counts as the first: up to four more, and only the
      table without housekeeping locks. */
  lemma LossShows(events: seq<Event>) returns (k: nat)
    requires Forward(events) && events != [] && events[|events| - 1].Failure?
    requires Forgotten(events[..|events| - 1], events[|events| - 1].user)
    ensures !SameAnswers(Again(events, k))
  {
    var user := events[|events| - 1].user;
    assert Recent(events, user) == 1 && Count(events, user) >= 2;
    k := if Count(events, user) > FREE_ATTEMPTS then 0 else FREE_ATTEMPTS + 1 - Count(events, user);
    AgainCounts(events, k);
    HarmIsSeen(Again(events, k));
  }

  /** A run where they differ: once another user's failure has made the server forget five
      failures, the sixth does not lock. */
  lemma HousekeepingForgets(bob: string, alice: string)
    requires bob != alice
    ensures var f := Failure(bob, 0);
      var late := 6 * 3600 * 1_000_000_000;
      var events := [f, f, f, f, f, Failure(alice, late), Failure(bob, late)];
      && Forward(events)
      && Check(After(events), bob, late) == Ok && Check(Plain(events), bob, late) == RetryAfter(3)
  {
    var f := Failure(bob, 0);
    var six := [f, f, f, f, f, Failure(alice, IDLE_TTL)];
    var five := [f, f, f, f, f];
    FiveFailures(bob);
    assert six[..5] == five;
    assert Forward(six) && Clock(six) == IDLE_TTL;
    assert bob !in After(six) && bob in Plain(six) && Plain(six)[bob] == Attempt(5, None, Some(0));
    var all := six + [Failure(bob, IDLE_TTL)];
    assert all == [f, f, f, f, f, Failure(alice, IDLE_TTL), Failure(bob, IDLE_TTL)];
    assert all[..6] == six;
    hide After, Plain, Forward, Clock;
    LastStep(six, bob, IDLE_TTL);
    assert Pow2(1) == 2;
  }

  lemma LastStep(events: seq<Event>, user: string, now: nat)
    ensures After(events + [Failure(user, now)]) == Retain(Counted(After(events), user, now), now)
    ensures Plain(events + [Failure(user, now)]) == Counted(Plain(events), user, now)
    ensures Forward(events + [Failure(user, now)]) <==> Forward(events) && Clock(events) <= now
  {
    assert (events + [Failure(user, now)])[..|events|] == events;
  }

  lemma CountedAtOnce(t: Table, bob: string, n: nat)
    requires n < FREE_ATTEMPTS && t == if n == 0 then map[] else map[bob := Attempt(n, None, Some(0))]
    ensures Counted(t, bob, 0) == Retain(Counted(t, bob, 0), 0) == map[bob := Attempt(n + 1, None, Some(0))]
  {
  }

  lemma {:induction false} AtOnce(bob: string, n: nat)
    requires n <= FREE_ATTEMPTS
    ensures var events := seq(n, _ => Failure(bob, 0));
      && Forward(events) && Clock(events) == 0
      && After(events) == Plain(events) == if n == 0 then map[] else map[bob := Attempt(n, None, Some(0))]
  {
    if n > 0 {
      var before, f := seq(n - 1, _ => Failure(bob, 0)), Failure(bob, 0);
      assert seq(n, _ => Failure(bob, 0)) == before + [f];
      AtOnce(bob, n - 1);
      LastStep(before, bob, 0);
      ClockOfLast(before, f);
      hide After, Plain, Forward, Clock;
      CountedAtOnce(After(before), bob, n - 1);
      hide Counted, Retain;
    }
  }

  lemma ClockOfLast(events: seq<Event>, e: Event)
    requires e.Failure?
    ensures Clock(events + [e]) == e.now
  {
  }

  lemma FiveFailures(bob: string)
    ensures var f := Failure(bob, 0); var five := [f, f, f, f, f];
      && Forward(five) && Clock(five) == 0
      && After(five) == Plain(five) == map[bob := Attempt(5, None, Some(0))]
  {
    var f := Failure(bob, 0);
    AtOnce(bob, 5);
    assert seq(5, _ => Failure(bob, 0)) == [f, f, f, f, f];
  }

  /** Waiting as long as a refusal says is enough, and a second less is not too long. */
  lemma RetryAfterIsTight(t: Table, user: string, now: nat)
    requires Check(t, user, now) != Ok
    ensures var secs := Check(t, user, now).secs;
      && secs >= 1 && (forall later | later >= now + secs * SECOND :: Check(t, user, later) == Ok)
      && forall sooner | now <= sooner < now + (secs - 1) * SECOND :: Check(t, user, sooner) != Ok
  {
    var left := t[user].lockedUntil.value - now;
    assert left == (left / SECOND) * SECOND + left % SECOND;
  }

  // ---------------------------------------------------------------- how long failing takes

  /** When one user's failures were. */
  function Failures(events: seq<Event>, user: string): seq<nat> {
    if events == [] then []
    else
      var e := events[|events| - 1];
      Failures(events[..|events| - 1], user) + if e.Failure? && e.user == user then [e.now] else []
  }

  /** The user's client asks before each try and never succeeds; others do as they like. */
  ghost predicate Honours(events: seq<Event>, user: string) {
    events == [] ||
    (var before, e := events[..|events| - 1], events[|events| - 1];
     && Honours(before, user)
     && e != Success(user)
     && (e.Failure? && e.user == user ==> Check(After(before), user, e.now) == Ok))
  }

  ghost predicate NoLongPause(times: seq<nat>) {
    forall i | 0 <= i < |times| - 1 :: times[i + 1] - times[i] < IDLE_TTL
  }

  /** The entry for the user, unless it has been idle for too long. */
  ghost predicate Tracks(t: Table, user: string, times: seq<nat>, now: nat) {
    times != [] ==>
      var last := times[|times| - 1];
      last <= now &&
      (now - last < IDLE_TTL ==>
         user in t && t[user].fails == |times| && t[user].last == Some(last) &&
         (|times| > FREE_ATTEMPTS ==> t[user].lockedUntil == Some(last + Backoff(|times|) * SECOND)))
  }

  lemma TrackStep(t: Table, user: string, times: seq<nat>, clock: nat, e: Event)
    requires Tracks(t, user, times, clock) && e.Failure? && clock <= e.now
    requires times == [] ==> user !in t
    requires e.user == user && times != [] ==> e.now - times[|times| - 1] < IDLE_TTL
    ensures Tracks(Next(t, e), user, if e.user == user then times + [e.now] else times, e.now)
    ensures times == [] && e.user != user ==> user !in Next(t, e)
  {
    hide Backoff;
  }

  /** The failures before the last event, and the pause before the last failure. */
  lemma LastFailure(events: seq<Event>, user: string)
    requires events != [] && NoLongPause(Failures(events, user))
    ensures var times, e := Failures(events[..|events| - 1], user), events[|events| - 1];
      && NoLongPause(times)
      && Failures(events, user) == (if e.Failure? && e.user == user then times + [e.now] else times)
      && (e.Failure? && e.user == user && times != [] ==> e.now - times[|times| - 1] < IDLE_TTL)
  {
    var times, all := Failures(events[..|events| - 1], user), Failures(events, user);
    assert all[..|times|] == times;
    forall i | 0 <= i < |times| - 1 ensures times[i + 1] - times[i] < IDLE_TTL {
      assert all[i + 1] - all[i] < IDLE_TTL;
    }
    if |all| > |times| > 0 {
      assert all[|times| - 1 + 1] - all[|times| - 1] < IDLE_TTL;
    }
  }

  /** While the user never succeeds nor pauses for six hours, its entry holds its count. */
  lemma {:induction false} EntryTracks(events: seq<Event>, user: string)
    requires Forward(events) && Honours(events, user) && NoLongPause(Failures(events, user))
    ensures Tracks(After(events), user, Failures(events, user), Clock(events))
    ensures Failures(events, user) == [] ==> user !in After(events)
  {
    if events != [] {
      var before, e := events[..|events| - 1], events[|events| - 1];
      var times := Failures(before, user);
      LastFailure(events, user);
      hide NoLongPause, Next, Backoff;
      EntryTracks(before, user);
      if e.Failure? {
        hide Tracks;
        TrackStep(After(before), user, times, Clock(before), e);
      }
    }
  }

  /** Seconds that must pass for `m` failures. */
  function Total(m: nat): nat {
    if m <= FREE_ATTEMPTS + 1 then 0 else Total(m - 1) + Backoff(m - 1)
  }

  /** A client that honours the answers needs the sum of all backoffs for its failures,
      whatever other users do meanwhile. */
  lemma {:induction false} FailuresTakeTime(events: seq<Event>, user: string)
    requires Forward(events) && Honours(events, user) && NoLongPause(Failures(events, user))
    ensures var times := Failures(events, user);
      times != [] ==> times[|times| - 1] - times[0] >= Total(|times|) * SECOND
  {
    if events != [] {
      var before, e := events[..|events| - 1], events[|events| - 1];
      var times := Failures(before, user);
      LastFailure(events, user);
      hide NoLongPause, Next, Backoff;
      FailuresTakeTime(before, user);
      if e.Failure? && e.user == user && times != [] {
        EntryTracks(before, user);
        hide Tracks;
        OneMoreFailure(After(before), user, times, Clock(before), e.now);
      }
    }
  }

  lemma OneMoreFailure(t: Table, user: string, times: seq<nat>, clock: nat, now: nat)
    requires Tracks(t, user, times, clock) && times != [] && clock <= now && Check(t, user, now) == Ok
    requires now - times[|times| - 1] < IDLE_TTL
    ensures now - times[|times| - 1] >= (Total(|times| + 1) - Total(|times|)) * SECOND
  {
    hide Backoff;
  }

  lemma PowersOfTwo()
    ensures Pow2(1) == 2 && Pow2(2) == 4 && Pow2(3) == 8 && Pow2(4) == 16 && Pow2(5) == 32 && Pow2(6) == 64
    ensures Pow2(7) == 128 && Pow2(8) == 256 && Pow2(9) == 512 && Pow2(10) == 1024 && Pow2(11) == 2048
  {
  }

  lemma {:induction false} LargePower(n: nat)
    requires n >= 12
    ensures Pow2(n) >= 4096
  {
    PowersOfTwo();
    if n > 12 {
      LargePower(n - 1);
    }
  }

  lemma TotalToSeventeen()
    ensures Total(17) == 4094
  {
    PowersOfTwo();
    assert Total(7) == 2 && Total(8) == 6;
    assert Total(9) == 14 && Total(10) == 30;
    assert Total(11) == 62 && Total(12) == 126;
    assert Total(13) == 254 && Total(14) == 510;
    assert Total(15) == 1022 && Total(16) == 2046;
  }

  /** From the seventeenth failure on each costs an hour. */
  lemma {:induction false} TotalClosedForm(m: nat)
    requires m >= 17
    ensures Total(m) == 4094 + 3600 * (m - 17)
  {
    TotalToSeventeen();
    if m > 17 {
      TotalClosedForm(m - 1);
      LargePower(m - 1 - FREE_ATTEMPTS);
    }
  }
}
