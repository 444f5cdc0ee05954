/**
 The per-socket token bucket of the signaling server, over exact reals: exactly which
 frames it admits.
 */
module RateLimit {
  /** `created` is when the bucket was made, full. */
  datatype Limits = Limits(rate: real, burst: real, created: real)

  const RELAY_FRAMES_PER_SEC: real := 16.0
  const RELAY_BURST: real := 64.0

  function MinReal(a: real, b: real): real {
    if a <= b then a else b
  }

  /** A clock that went backwards counts as no time passed. */
  function Elapsed(now: real, last: real): real {
    if now >= last then now - last else 0.0
  }

  function Refill(c: Limits, last: real, now: real): real {
    Elapsed(now, last) * c.rate
  }

  /** What may be admitted between two moments: burst + rate * length. */
  function Envelope(c: Limits, from: real, to: real): real {
    c.burst + c.rate * (to - from)
  }

  function Last(c: Limits, times: seq<real>): real {
    if times == [] then c.created else times[|times| - 1]
  }

  /** Tokens when the last of the frames at `times` asks for one. */
  function Level(c: Limits, times: seq<real>): real
    requires times != []
    decreases |times|, 0
  {
    var before := times[..|times| - 1];
    MinReal(Left(c, before) + Refill(c, Last(c, before), times[|times| - 1]), c.burst)
  }

  /** Tokens left after all frames. */
  function Left(c: Limits, times: seq<real>): real
    decreases |times|, 1
  {
    if times == [] then c.burst else Level(c, times) - (if Level(c, times) >= 1.0 then 1.0 else 0.0)
  }

  /** The last of the frames is admitted. */
  predicate Admits(c: Limits, times: seq<real>)
    requires times != []
  {
    Level(c, times) >= 1.0
  }

  class FrameLimiter {
    var tokens: real
    var last: real
    const ratePerSec: real
    const burst: real
    ghost const created: real
    ghost var times: seq<real>

    ghost function Config(): Limits {
      Limits(ratePerSec, burst, created)
    }

    ghost predicate Valid()
      reads this
    {
      tokens == Left(Config(), times) && last == Last(Config(), times)
    }

    constructor WithLimits(rate: real, cap: real, now: real)
      ensures Valid() && times == [] && Config() == Limits(rate, cap, now)
    {
      tokens, last, ratePerSec, burst, created, times := cap, now, rate, cap, now, [];
    }

    constructor (now: real)
      ensures Valid() && times == [] && Config() == Limits(16.0, 64.0, now)
    {
      tokens, last, ratePerSec, burst, created, times := RELAY_BURST, now, RELAY_FRAMES_PER_SEC, RELAY_BURST, now, [];
    }

    method AllowAt(now: real) returns (ok: bool)
      requires Valid()
      modifies this
      ensures Valid() && times == old(times) + [now]
      ensures ok == Admits(Config(), times)
    {
      var elapsed := Elapsed(now, last);
      ghost var before := times;
      times := times + [now];
      assert times[..|times| - 1] == before;
      last := now;
      tokens := MinReal(tokens + elapsed * ratePerSec, burst);
      if tokens >= 1.0 {
        tokens := tokens - 1.0;
        ok := true;
      } else {
        ok := false;
      }
    }
  }

  // ---------------------------------------------------------------- exactly which frames

  /** How many of the frames from number `i` on are admitted. */
  function Count(c: Limits, times: seq<real>, i: nat): (n: nat)
    ensures i <= |times| ==> n <= |times| - i
  {
    if |times| <= i then 0
    else Count(c, times[..|times| - 1], i) + if Admits(c, times) then 1 else 0
  }

  /** The clock does not go back. */
  ghost predicate Forward(c: Limits, times: seq<real>) {
    && c.rate >= 0.0
    && forall i | 0 <= i < |times| :: Last(c, times[..i]) <= times[i]
  }

  lemma ForwardInit(c: Limits, times: seq<real>)
    requires times != [] && Forward(c, times)
    ensures Forward(c, times[..|times| - 1]) && Last(c, times[..|times| - 1]) <= times[|times| - 1]
  {
    var before := times[..|times| - 1];
    forall i | 0 <= i < |before| ensures Last(c, before[..i]) <= before[i] {
      assert before[..i] == times[..i];
    }
  }

  /** Envelope of the window from frame `i` to the last frame, less what it was used for. */
  function Slack(c: Limits, times: seq<real>, i: nat): real
    requires i < |times|
  {
    Envelope(c, times[i], times[|times| - 1]) - Count(c, times[..|times| - 1], i) as real
  }

  /** The envelope grows by the refill. */
  lemma EnvelopeGrows(c: Limits, s: real, t: real, u: real)
    requires t <= u
    ensures Envelope(c, s, u) == Envelope(c, s, t) + Refill(c, t, u)
    ensures c.rate >= 0.0 ==> Refill(c, t, u) >= 0.0
    ensures Envelope(c, u, u) == c.burst
  {
    TwoSpans(c.rate, s, t, u);
    ProductNonNeg(u - t, c.rate);
    ZeroSpan(c.rate, u - u);
  }

  lemma TwoSpans(rate: real, a: real, b: real, c: real)
    ensures rate * (c - a) == rate * (b - a) + (c - b) * rate
  {
  }

  lemma ProductNonNeg(a: real, b: real)
    ensures a >= 0.0 && b >= 0.0 ==> a * b >= 0.0
  {
  }

  lemma ZeroSpan(rate: real, d: real)
    requires d == 0.0
    ensures rate * d == 0.0
  {
  }

  /** One more frame takes from every window what it takes from the bucket. */
  lemma SlackStep(c: Limits, times: seq<real>, i: nat)
    requires |times| >= 2 && i < |times| - 1 && Forward(c, times)
    ensures var before := times[..|times| - 1];
      Slack(c, times, i) == Slack(c, before, i) - (if Admits(c, before) then 1.0 else 0.0)
        + Refill(c, Last(c, before), times[|times| - 1])
  {
    hide Level, Refill, Envelope;
    var n := |times| - 1;
    ForwardInit(c, times);
    EnvelopeGrows(c, times[i], times[n - 1], times[n]);
  }

  /** The level is the least slack of all windows that end now. */
  lemma {:induction false} LevelIsLeastSlack(c: Limits, times: seq<real>)
    requires times != [] && Forward(c, times)
    ensures forall i: nat | i < |times| :: Level(c, times) <= Slack(c, times, i)
    ensures exists i: nat | i < |times| :: Level(c, times) == Slack(c, times, i)
  {
    var n := |times| - 1;
    var before := times[..n];
    ForwardInit(c, times);
    EnvelopeGrows(c, times[n], Last(c, before), times[n]);
    hide Refill, Envelope;
    assert Slack(c, times, n) == c.burst;
    if n > 0 {
      LevelIsLeastSlack(c, before);
      hide Slack, Forward;
      forall i: nat | i < n
        ensures Level(c, times) <= Slack(c, times, i)
      {
        Combine(c, times, i);
      }
      var j: nat :| j < n && Level(c, before) == Slack(c, before, j);
      Combine(c, times, j);
    }
  }

  lemma Combine(c: Limits, times: seq<real>, i: nat)
    requires |times| >= 2 && i < |times| - 1 && Forward(c, times)
    requires Level(c, times[..|times| - 1]) <= Slack(c, times[..|times| - 1], i)
    ensures Level(c, times) <= Slack(c, times, i)
    ensures Level(c, times[..|times| - 1]) == Slack(c, times[..|times| - 1], i) ==>
      Level(c, times) == MinReal(Slack(c, times, i), c.burst)
  {
    SlackStep(c, times, i);
    hide Slack, Forward, Refill, Envelope;
  }

  /** A frame is admitted if and only if admitting it keeps every window that ends with
      it within burst + rate * length. */
  lemma AdmitsExactly(c: Limits, times: seq<real>)
    requires times != [] && Forward(c, times)
    ensures Admits(c, times) <==>
      forall i: nat | i < |times| ::
        Count(c, times[..|times| - 1], i) as real + 1.0 <= Envelope(c, times[i], times[|times| - 1])
  {
    LevelIsLeastSlack(c, times);
    hide Level, Forward, Count, Envelope;
    forall i: nat | i < |times|
      ensures Slack(c, times, i) >= 1.0 <==>
        Count(c, times[..|times| - 1], i) as real + 1.0 <= Envelope(c, times[i], times[|times| - 1])
    {
    }
  }

  /** A window of no length has the burst, and every second more adds the rate. */
  lemma EnvelopeIs(c: Limits, from: real, to: real, secs: real)
    ensures Envelope(c, from, from) == c.burst
    ensures Envelope(c, from, to + secs) - Envelope(c, from, to) == c.rate * secs
  {
    ZeroSpan(c.rate, from - from);
    TwoSpans(c.rate, from, to, to + secs);
  }

  lemma {:induction false} LeftAtMostBurst(c: Limits, times: seq<real>)
    ensures Left(c, times) <= c.burst
  {
    hide Refill;
  }

  /** A frame that comes at a time before the last one finds the bucket as it was left. */
  lemma BackwardClock(c: Limits, times: seq<real>)
    requires times != [] && times[|times| - 1] <= Last(c, times[..|times| - 1])
    ensures Level(c, times) == Left(c, times[..|times| - 1])
    ensures Admits(c, times) <==> Left(c, times[..|times| - 1]) >= 1.0
  {
    LeftAtMostBurst(c, times[..|times| - 1]);
    NoTimePassed(c, Last(c, times[..|times| - 1]), times[|times| - 1]);
    hide Refill, Left;
  }

  lemma NoTimePassed(c: Limits, last: real, now: real)
    requires now <= last
    ensures Refill(c, last, now) == 0.0
  {
    ZeroSpan(c.rate, Elapsed(now, last));
  }

  /** No window of the run admits more than burst + rate * length. */
  lemma {:induction false} WindowBound(c: Limits, times: seq<real>, i: nat)
    requires i < |times| && Forward(c, times) && c.burst >= 0.0
    ensures Count(c, times, i) as real <= Envelope(c, times[i], times[|times| - 1])
  {
    var n := |times| - 1;
    var before := times[..n];
    ForwardInit(c, times);
    EnvelopeGrows(c, times[i], Last(c, before), times[n]);
    hide Level, Envelope, Refill;
    if Admits(c, times) {
      LevelIsLeastSlack(c, times);
      assert Slack(c, times, i) >= 1.0;
    } else if i < n {
      WindowBound(c, before, i);
    }
  }

  /** A sender whose every window stays within the envelope. */
  ghost predicate Conforming(c: Limits, times: seq<real>) {
    forall i, j | 0 <= i <= j < |times| :: (j - i + 1) as real <= Envelope(c, times[i], times[j])
  }

  /** Such a sender never has a frame dropped. */
  lemma ConformingIsAdmitted(c: Limits, times: seq<real>)
    requires times != [] && Forward(c, times) && Conforming(c, times)
    ensures Admits(c, times)
  {
    var n := |times| - 1;
    LevelIsLeastSlack(c, times);
    hide Level, Forward, Envelope;
    var i: nat :| i <= n && Level(c, times) == Slack(c, times, i);
    assert Count(c, times[..n], i) <= n - i;
    assert (n - i + 1) as real <= Envelope(c, times[i], times[n]);
  }

  /** Nor is the condition more than is needed. */
  lemma AllAdmittedConforms(c: Limits, times: seq<real>)
    requires Forward(c, times)
    requires forall n | 0 < n <= |times| :: Admits(c, times[..n])
    ensures Conforming(c, times)
  {
    hide Level, Envelope, Admits, Forward;
    forall i, j | 0 <= i <= j < |times|
      ensures (j - i + 1) as real <= Envelope(c, times[i], times[j])
    {
      ForwardPrefix(c, times, j + 1);
      AllCounted(c, times, i, j);
      assert times[..j + 1][..j] == times[..j];
      AdmittedWindow(c, times[..j + 1], i);
    }
  }

  lemma AdmittedWindow(c: Limits, times: seq<real>, i: nat)
    requires i < |times| && Forward(c, times) && Admits(c, times)
    ensures Count(c, times[..|times| - 1], i) as real + 1.0 <= Envelope(c, times[i], times[|times| - 1])
  {
    LevelIsLeastSlack(c, times);
    hide Level, Forward, Count, Envelope;
    assert Slack(c, times, i) >= 1.0;
  }

  lemma ForwardPrefix(c: Limits, times: seq<real>, n: nat)
    requires n <= |times| && Forward(c, times)
    ensures Forward(c, times[..n])
  {
    forall i | 0 <= i < n ensures Last(c, times[..n][..i]) <= times[..n][i] {
      assert times[..n][..i] == times[..i];
    }
  }

  lemma {:induction false} AllCounted(c: Limits, times: seq<real>, i: nat, j: nat)
    requires i <= j <= |times| && forall n | 0 < n <= |times| :: Admits(c, times[..n])
    ensures Count(c, times[..j], i) == j - i
    decreases j
  {
    if i < j {
      AllCounted(c, times, i, j - 1);
      assert times[..j][..j - 1] == times[..j - 1];
    }
  }

  /** No frame is dropped if and only if every window of the sender's frames stays within
      the envelope. */
  lemma NothingDroppedExactly(c: Limits, times: seq<real>)
    requires Forward(c, times)
    ensures (forall n | 0 < n <= |times| :: Admits(c, times[..n])) <==> Conforming(c, times)
  {
    hide Admits, Forward, Envelope;
    if Conforming(c, times) {
      forall n | 0 < n <= |times| ensures Admits(c, times[..n]) {
        ForwardPrefix(c, times, n);
        ConformingIsAdmitted(c, times[..n]);
      }
    }
    if forall n | 0 < n <= |times| :: Admits(c, times[..n]) {
      AllAdmittedConforms(c, times);
    }
  }
}
