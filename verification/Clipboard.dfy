/**
 Clipboard sync: two peers, each polling its clipboard and applying what the other sends.
 The operating system's clipboard returns what was last set.
 */
module Clipboard {
  type Hash = string -> nat

  datatype Update = Update(isText: bool, text: string, seqNo: nat, hash: nat)

  /** One peer: its clipboard, what it last set or sent, and the updates on their way to it.
      `edits` counts the user's changes, `sent` the updates sent. */
  datatype Peer = Peer(clip: string, lastHash: nat, sent: nat, inbox: seq<Update>, edits: nat)

  /** Applies one update, if the clipboard takes it. */
  function Applied(p: Peer, u: Update, ok: bool): Peer {
    if u.isText && ok then p.(clip := u.text, lastHash := u.hash) else p
  }

  /** The clipboard holds something that was neither set nor sent. */
  predicate Dirty(hash: Hash, p: Peer) {
    p.clip != "" && hash(p.clip) != p.lastHash
  }

  function Polled(hash: Hash, p: Peer): Peer {
    if Dirty(hash, p) then p.(lastHash := hash(p.clip), sent := p.sent + 1) else p
  }

  /** What a poll sends. */
  function Sending(hash: Hash, p: Peer): seq<Update> {
    if Dirty(hash, p) then [Update(true, p.clip, p.sent + 1, hash(p.clip))] else []
  }

  function AppliedAll(p: Peer, updates: seq<Update>, ok: nat -> bool): Peer {
    if updates == [] then p
    else Applied(AppliedAll(p, updates[..|updates| - 1], ok), updates[|updates| - 1], ok(|updates| - 1))
  }

  // ---------------------------------------------------------------- the thread

  class SyncThread {
    const hash: Hash
    var clip: string
    var lastHash: nat
    var seqNo: nat

    ghost function State(): Peer
      reads this
    {
      Peer(clip, lastHash, seqNo, [], 0)
    }

    constructor (h: Hash, content: string)
      ensures State() == Peer(content, 0, 0, [], 0) && hash == h
    {
      hash, clip, lastHash, seqNo := h, content, 0, 0;
    }

    /** One round: applies all that has arrived, then forwards a local change. `ok(i)` says
        whether the clipboard takes update `i`, `readable` whether it can be read. */
    method Round(incoming: seq<Update>, ok: nat -> bool, readable: bool) returns (outgoing: seq<Update>)
      modifies this
      ensures var applied := AppliedAll(old(State()), incoming, ok);
        && State() == (if readable then Polled(hash, applied) else applied)
        && outgoing == if readable then Sending(hash, applied) else []
    {
      outgoing := [];
      for i := 0 to |incoming|
        invariant State() == AppliedAll(old(State()), incoming[..i], ok)
      {
        assert incoming[..i + 1][..i] == incoming[..i];
        var u := incoming[i];
        if u.isText {
          if ok(i) {
            clip := u.text;
            lastHash := u.hash;
          }
        }
      }
      assert incoming[..|incoming|] == incoming;
      if readable {
        if clip != "" {
          var h := hash(clip);
          if h != lastHash {
            lastHash := h;
            seqNo := seqNo + 1;
            outgoing := [Update(true, clip, seqNo, h)];
          }
        }
      }
    }
  }

  // ---------------------------------------------------------------- two peers

  datatype Side = Left | Right

  datatype System = System(left: Peer, right: Peer) {
    function At(side: Side): Peer { if side == Left then left else right }
    function With(side: Side, p: Peer): System { if side == Left then this.(left := p) else this.(right := p) }
  }

  function Other(side: Side): Side { if side == Left then Right else Left }

  datatype Step = Edit(side: Side, text: string) | Apply(side: Side, ok: bool) | Poll(side: Side)

  predicate Enabled(s: System, step: Step) {
    step.Apply? ==> s.At(step.side).inbox != []
  }

  /** Users edit, updates arrive and polls happen in any order. */
  function Next(hash: Hash, s: System, step: Step): System
    requires Enabled(s, step)
  {
    var p := s.At(step.side);
    match step
    case Edit(side, text) => s.With(side, p.(clip := text, edits := p.edits + 1))
    case Apply(side, ok) => s.With(side, Applied(p.(inbox := p.inbox[1..]), p.inbox[0], ok))
    case Poll(side) =>
      var o := s.At(Other(side));
      s.With(side, Polled(hash, p)).With(Other(side), o.(inbox := o.inbox + Sending(hash, p)))
  }

  /** A stretch of steps, each possible when it is taken. */
  ghost predicate IsRun(hash: Hash, s: System, steps: seq<Step>)
    decreases steps
  {
    steps == [] || (Enabled(s, steps[0]) && IsRun(hash, Next(hash, s, steps[0]), steps[1..]))
  }

  function After(hash: Hash, s: System, steps: seq<Step>): System
    requires IsRun(hash, s, steps)
    decreases steps
  {
    if steps == [] then s else After(hash, Next(hash, s, steps[0]), steps[1..])
  }

  ghost predicate Honest(hash: Hash, inbox: seq<Update>) {
    forall u | u in inbox :: u.isText && u.text != "" && u.hash == hash(u.text)
  }

  /** Each update sent is paid for by an edit, or by what was there at the start. */
  ghost predicate Paid(hash: Hash, p: Peer) {
    p.sent + (if Dirty(hash, p) then 1 else 0) <= p.edits + 1
  }

  ghost predicate Inv(hash: Hash, s: System) {
    forall side :: Honest(hash, s.At(side).inbox) && Paid(hash, s.At(side))
  }

  lemma StepKeepsInv(hash: Hash, s: System, step: Step)
    requires Inv(hash, s) && Enabled(s, step)
    ensures Inv(hash, Next(hash, s, step))
  {
    var t := Next(hash, s, step);
    forall side ensures Honest(hash, t.At(side).inbox) && Paid(hash, t.At(side)) {
      assert Honest(hash, s.At(side).inbox) && Paid(hash, s.At(side));
      assert Honest(hash, s.At(step.side).inbox);
      if step.Apply? && step.side == side {
        var p := s.At(side);
        assert p.inbox[0] in p.inbox && forall u | u in p.inbox[1..] :: u in p.inbox;
      }
    }
  }

  /** Each side sends at most one update per edit of its own user, and one for what its
      clipboard held at the start: nothing is ever echoed. */
  lemma {:induction false} NoEcho(hash: Hash, s: System, steps: seq<Step>)
    requires Inv(hash, s) && IsRun(hash, s, steps)
    ensures Inv(hash, After(hash, s, steps))
    ensures forall side :: After(hash, s, steps).At(side).sent <= After(hash, s, steps).At(side).edits + 1
    decreases steps
  {
    if steps != [] {
      StepKeepsInv(hash, s, steps[0]);
      hide Next, Inv;
      NoEcho(hash, Next(hash, s, steps[0]), steps[1..]);
    } else {
      forall side ensures s.At(side).sent <= s.At(side).edits + 1 {
        assert Paid(hash, s.At(side));
      }
    }
  }

  /** Two peers that have just started, whatever their clipboards hold. */
  lemma StartIsInv(hash: Hash, left: string, right: string)
    ensures Inv(hash, Fresh(left, right))
  {
  }

  /** Polling after applying sends nothing. */
  lemma ApplyThenPoll(hash: Hash, s: System, side: Side)
    requires Inv(hash, s) && s.At(side).inbox != []
    ensures var t := Next(hash, s, Apply(side, true));
      !Dirty(hash, t.At(side)) && Next(hash, t, Poll(side)) == t
  {
    var p := s.At(side);
    assert Honest(hash, p.inbox) && p.inbox[0] in p.inbox;
    var t := Next(hash, s, Apply(side, true));
    assert t.At(Other(side)).inbox + [] == t.At(Other(side)).inbox;
  }

  /** What is not text, and what the clipboard refuses, has no effect. */
  lemma {:induction false} OnlyTextArrives(p: Peer, updates: seq<Update>, ok: nat -> bool)
    requires forall i: nat | i < |updates| :: !updates[i].isText || !ok(i)
    ensures AppliedAll(p, updates, ok) == p
  {
    if updates != [] {
      OnlyTextArrives(p, updates[..|updates| - 1], ok);
    }
  }

  /** The last text that arrives and is taken is what the clipboard holds. */
  lemma LastTextStays(p: Peer, updates: seq<Update>, ok: nat -> bool, i: nat)
    requires i < |updates| && updates[i].isText && ok(i)
    requires forall j: nat | i < j < |updates| :: !updates[j].isText || !ok(j)
    ensures AppliedAll(p, updates, ok).clip == updates[i].text && AppliedAll(p, updates, ok).lastHash == updates[i].hash
    decreases |updates|
  {
    var n := |updates| - 1;
    if i < n {
      LastTextStays(p, updates[..n], ok, i);
    }
  }

  /** The updates on their way to a side are the last ones the other has sent, numbered
      one by one. */
  ghost predicate Numbered(inbox: seq<Update>, sent: nat) {
    |inbox| <= sent && forall i | 0 <= i < |inbox| :: inbox[i].seqNo == sent - |inbox| + 1 + i
  }

  lemma {:induction false} RunIsNumbered(hash: Hash, s: System, steps: seq<Step>)
    requires Numbered(s.left.inbox, s.right.sent) && Numbered(s.right.inbox, s.left.sent) && IsRun(hash, s, steps)
    ensures var t := After(hash, s, steps); Numbered(t.left.inbox, t.right.sent) && Numbered(t.right.inbox, t.left.sent)
    decreases steps
  {
    if steps != [] {
      RunIsNumbered(hash, Next(hash, s, steps[0]), steps[1..]);
    }
  }

  // ---------------------------------------------------------------- when the two sides agree

  /** Two peers that have just started. */
  function Fresh(left: string, right: string): System {
    System(Peer(left, 0, 0, [], 0), Peer(right, 0, 0, [], 0))
  }

  predicate Settled(hash: Hash, s: System) {
    s.left.inbox == [] && s.right.inbox == [] && !Dirty(hash, s.left) && !Dirty(hash, s.right)
  }

  /** The hash a side will have set or sent last once all that is on its way has arrived. */
  function Final(p: Peer): nat {
    if p.inbox == [] then p.lastHash else p.inbox[|p.inbox| - 1].hash
  }

  predicate Sends(hash: Hash, s: System, step: Step) {
    step.Poll? && Dirty(hash, s.At(step.side))
  }

  /** The clipboard refuses the last update on its way to it. */
  predicate Refuses(s: System, step: Step) {
    step.Apply? && !step.ok && |s.At(step.side).inbox| == 1
  }

  /** A poll that sends while another text is on its way to the sender; or a refusal by a
      side that has not itself set or sent what will be on the other. */
  predicate Crosses(hash: Hash, s: System, step: Step) {
    var p := s.At(step.side);
    || (Sends(hash, s, step) && p.inbox != [] && p.inbox[|p.inbox| - 1].hash != hash(p.clip))
    || (Refuses(s, step) && p.lastHash != Final(s.At(Other(step.side))))
  }

  /** Something is sent, or the last of what was sent is refused. */
  ghost predicate Decided(hash: Hash, s: System, steps: seq<Step>)
    requires IsRun(hash, s, steps)
    decreases steps
  {
    steps != [] &&
    (Sends(hash, s, steps[0]) || Refuses(s, steps[0]) || Decided(hash, Next(hash, s, steps[0]), steps[1..]))
  }

  /** The last such step crosses. */
  ghost predicate Parted(hash: Hash, s: System, steps: seq<Step>)
    requires IsRun(hash, s, steps)
    decreases steps
  {
    steps != [] &&
    var t := Next(hash, s, steps[0]);
    if Decided(hash, t, steps[1..]) then Parted(hash, t, steps[1..]) else Crosses(hash, s, steps[0])
  }

  lemma ApplyFinal(p: Peer, ok: bool)
    requires p.inbox != [] && p.inbox[0].isText
    ensures Final(Applied(p.(inbox := p.inbox[1..]), p.inbox[0], ok)) == if !ok && |p.inbox| == 1 then p.lastHash else Final(p)
  {
    var rest := p.inbox[1..];
    assert |p.inbox| > 1 ==> rest[|rest| - 1] == p.inbox[|p.inbox| - 1];
  }

  lemma StepDecides(hash: Hash, s: System, step: Step)
    requires Inv(hash, s) && Enabled(s, step)
    ensures var t := Next(hash, s, step);
      Final(t.left) == Final(t.right) <==>
        if Sends(hash, s, step) || Refuses(s, step) then !Crosses(hash, s, step) else Final(s.left) == Final(s.right)
  {
    if step.Apply? {
      var p := s.At(step.side);
      assert Honest(hash, p.inbox) && p.inbox[0] in p.inbox;
      ApplyFinal(p, step.ok);
      hide Final, Applied;
    }
    hide Inv;
  }

  /** Whether both sides will end with the same is decided by the last deciding step. */
  lemma {:induction false} RunDecides(hash: Hash, s: System, steps: seq<Step>)
    requires Inv(hash, s) && IsRun(hash, s, steps)
    ensures var t := After(hash, s, steps);
      Final(t.left) == Final(t.right) <==>
        if Decided(hash, s, steps) then !Parted(hash, s, steps) else Final(s.left) == Final(s.right)
    ensures Parted(hash, s, steps) ==> Decided(hash, s, steps)
    decreases steps
  {
    if steps != [] {
      StepDecides(hash, s, steps[0]);
      StepKeepsInv(hash, s, steps[0]);
      hide Next, Inv, Final;
      RunDecides(hash, Next(hash, s, steps[0]), steps[1..]);
    }
  }

  /** On every run of two fresh peers, whoever edits and whatever is refused: when they have
      settled with some text on both sides, the texts have the same hash if and only if the
      last deciding step of the run did not cross, or there was none. */
  lemma AgreeExactly(hash: Hash, left: string, right: string, steps: seq<Step>)
    requires IsRun(hash, Fresh(left, right), steps)
    ensures var t := After(hash, Fresh(left, right), steps);
      Settled(hash, t) && t.left.clip != "" && t.right.clip != "" ==>
        (hash(t.left.clip) == hash(t.right.clip) <==> !Parted(hash, Fresh(left, right), steps))
  {
    StartIsInv(hash, left, right);
    RunDecides(hash, Fresh(left, right), steps);
  }

  /** A run by its first step. */
  lemma FirstStep(hash: Hash, s: System, step: Step, rest: seq<Step>)
    requires Enabled(s, step) && IsRun(hash, Next(hash, s, step), rest)
    ensures var all, t := [step] + rest, Next(hash, s, step);
      && IsRun(hash, s, all) && After(hash, s, all) == After(hash, t, rest)
      && (Decided(hash, s, all) <==> Sends(hash, s, step) || Refuses(s, step) || Decided(hash, t, rest))
      && (Parted(hash, s, all) <==> if Decided(hash, t, rest) then Parted(hash, t, rest) else Crosses(hash, s, step))
  {
    hide Enabled, Next, Sends, Refuses, Crosses;
    assert ([step] + rest)[1..] == rest;
  }

  // ---------------------------------------------------------------- edits on one side

  /** The newest text on its way to, or on, the right side. */
  function Newest(s: System): string {
    if s.right.inbox == [] then s.right.clip else s.right.inbox[|s.right.inbox| - 1].text
  }

  /** The right side has nothing of its own to send, and nothing is on its way to the left. */
  predicate OneWay(hash: Hash, s: System) {
    s.left.inbox == [] && !Dirty(hash, s.right)
  }

  predicate LeftUserOnly(step: Step) {
    match step
    case Edit(side, _) => side == Left
    case Apply(_, ok) => ok
    case Poll(_) => true
  }

  /** From then on only the left side sends, nothing crosses, and a text stays a text. */
  lemma OneWayStep(hash: Hash, s: System, step: Step)
    requires OneWay(hash, s) && Inv(hash, s) && Enabled(s, step) && LeftUserOnly(step)
    ensures var t := Next(hash, s, step);
      && OneWay(hash, t) && !Crosses(hash, s, step) && !Refuses(s, step)
      && t.left.sent == s.left.sent + (if Sends(hash, s, step) then 1 else 0)
      && (!Sends(hash, s, step) ==> t.left.lastHash == s.left.lastHash)
      && (Newest(s) != "" || Sends(hash, s, step) ==> Newest(t) != "")
  {
    assert Honest(hash, s.At(Right).inbox);
    if step.Apply? {
      var p := s.right;
      assert p.inbox[0] in p.inbox;
      assert |p.inbox| > 1 ==> p.inbox[1..][|p.inbox| - 2] == p.inbox[|p.inbox| - 1];
      assert |p.inbox| == 1 ==> p.inbox[1..] == [];
    }
  }

  lemma {:induction false} OneWayRun(hash: Hash, s: System, steps: seq<Step>)
    requires OneWay(hash, s) && Inv(hash, s) && IsRun(hash, s, steps)
    requires forall step | step in steps :: LeftUserOnly(step)
    ensures var t := After(hash, s, steps);
      && OneWay(hash, t) && !Parted(hash, s, steps) && t.left.sent >= s.left.sent
      && (Decided(hash, s, steps) <==> t.left.sent > s.left.sent)
      && (t.left.sent == s.left.sent ==> t.left.lastHash == s.left.lastHash)
      && (Newest(s) != "" || t.left.sent > s.left.sent ==> Newest(t) != "")
    decreases steps
  {
    if steps != [] {
      OneWayStep(hash, s, steps[0]);
      StepKeepsInv(hash, s, steps[0]);
      hide Next, OneWay, Inv, Sends, Crosses, Refuses, Newest;
      OneWayRun(hash, Next(hash, s, steps[0]), steps[1..]);
    }
  }

  /** Both clipboards hold the same text, up to a clash of hashes and unless the left user
      has emptied the clipboard, which is not forwarded. */
  predicate Agree(hash: Hash, s: System) {
    s.left.clip == "" || hash(s.left.clip) == hash(s.right.clip)
  }

  /** Two fresh peers, of which anything may have become after `first`; from some moment
      when the right side is clean and nothing is on its way to the left, only the left
      user edits. Once the left side has sent something, they agree whenever they settle. */
  lemma OneSidedSync(hash: Hash, left: string, right: string, first: seq<Step>, more: seq<Step>)
    requires IsRun(hash, Fresh(left, right), first)
    requires OneWay(hash, After(hash, Fresh(left, right), first)) && IsRun(hash, After(hash, Fresh(left, right), first), more)
    requires forall step | step in more :: LeftUserOnly(step)
    ensures var s := After(hash, Fresh(left, right), first); var t := After(hash, s, more);
      t.left.sent > s.left.sent && Settled(hash, t) ==> Agree(hash, t)
  {
    StartIsInv(hash, left, right);
    NoEcho(hash, Fresh(left, right), first);
    var s := After(hash, Fresh(left, right), first);
    hide After, IsRun, Parted, Decided, Inv;
    OneWayRun(hash, s, more);
    RunDecides(hash, s, more);
  }

  /** From the very start, when the right clipboard holds nothing to send: whenever they
      settle they agree, unless the left side has never had anything to send either. */
  lemma OneSidedFromStart(hash: Hash, left: string, right: string, steps: seq<Step>)
    requires right == "" || hash(right) == 0
    requires IsRun(hash, Fresh(left, right), steps) && forall step | step in steps :: LeftUserOnly(step)
    ensures var t := After(hash, Fresh(left, right), steps);
      Settled(hash, t) ==> Agree(hash, t) || (t.left.sent == 0 && hash(t.left.clip) == 0)
  {
    StartIsInv(hash, left, right);
    OneSidedSync(hash, left, right, [], steps);
    OneWayRun(hash, Fresh(left, right), steps);
  }

  /** When the right clipboard holds something at the start, it is sent. If it arrives before
      the left side has sent anything, it replaces what was on the left, and the two are
      one way and agree. */
  lemma RightContentFirst(hash: Hash, left: string, right: string)
    requires right != "" && hash(right) != 0
    ensures var steps := [Poll(Right), Apply(Left, true)];
      && IsRun(hash, Fresh(left, right), steps) && !Parted(hash, Fresh(left, right), steps)
      && var t := After(hash, Fresh(left, right), steps);
         t.left.clip == t.right.clip == right && OneWay(hash, t) && Settled(hash, t)
  {
    var s := Fresh(left, right);
    var t := Next(hash, s, Poll(Right));
    FirstStep(hash, t, Apply(Left, true), []);
    FirstStep(hash, s, Poll(Right), [Apply(Left, true)]);
    assert [Poll(Right)] + [Apply(Left, true)] == [Poll(Right), Apply(Left, true)];
  }

  // ---------------------------------------------------------------- edits on both sides

  /** Both sides send before anything arrives, and then both apply. */
  const CROSSING: seq<Step> := [Poll(Left), Poll(Right), Apply(Left, true), Apply(Right, true)]

  /** Whenever both sides have something to send at once and nothing is on its way, that
      swaps the clipboards; they have parted unless the hashes clash. */
  lemma CrossingSwaps(hash: Hash, s: System)
    requires s.left.inbox == [] && s.right.inbox == [] && Dirty(hash, s.left) && Dirty(hash, s.right)
    ensures IsRun(hash, s, CROSSING) && Decided(hash, s, CROSSING)
    ensures Parted(hash, s, CROSSING) <==> hash(s.left.clip) != hash(s.right.clip)
    ensures var t := After(hash, s, CROSSING);
      && t.left.clip == s.right.clip && t.right.clip == s.left.clip && Settled(hash, t) && OneWay(hash, t)
      && t.left.sent == s.left.sent + 1 && t.right.sent == s.right.sent + 1
  {
    var s1 := Next(hash, s, Poll(Left));
    var s2 := Next(hash, s1, Poll(Right));
    var s3 := Next(hash, s2, Apply(Left, true));
    var s4 := Next(hash, s3, Apply(Right, true));
    assert Sends(hash, s, Poll(Left)) && Sends(hash, s1, Poll(Right));
    assert !Refuses(s2, Apply(Left, true)) && !Refuses(s3, Apply(Right, true));
    assert !Crosses(hash, s, Poll(Left));
    assert Crosses(hash, s1, Poll(Right)) <==> hash(s.left.clip) != hash(s.right.clip);
    assert Enabled(s2, Apply(Left, true)) && Enabled(s3, Apply(Right, true));
    assert s4.left.clip == s.right.clip && s4.right.clip == s.left.clip && Settled(hash, s4);
    assert s4.left.sent == s.left.sent + 1 && s4.right.sent == s.right.sent + 1;
    hide Next, Sends, Refuses, Crosses;
    FirstStep(hash, s3, Apply(Right, true), []);
    FirstStep(hash, s2, Apply(Left, true), [Apply(Right, true)]);
    assert [Apply(Left, true)] + [Apply(Right, true)] == CROSSING[2..];
    FirstStep(hash, s1, Poll(Right), CROSSING[2..]);
    assert [Poll(Right)] + CROSSING[2..] == CROSSING[1..];
    FirstStep(hash, s, Poll(Left), CROSSING[1..]);
    assert [Poll(Left)] + CROSSING[1..] == CROSSING;
  }

  /** Contents on both sides that are sent at once are swapped, and stay so until the left
      side sends again: one way, but they do not agree. */
  lemma ContentsSwapAtStart(hash: Hash, left: string, right: string)
    requires left != "" && hash(left) != 0 && right != "" && hash(right) != 0 && hash(left) != hash(right)
    ensures IsRun(hash, Fresh(left, right), CROSSING) && Parted(hash, Fresh(left, right), CROSSING)
    ensures var t := After(hash, Fresh(left, right), CROSSING);
      t.left.clip == right && t.right.clip == left && OneWay(hash, t) && Settled(hash, t) && !Agree(hash, t)
  {
    CrossingSwaps(hash, Fresh(left, right));
  }

  /** Edits on both sides at once swap the clipboards, for good. */
  lemma ConcurrentEditsSwap(hash: Hash, s: System, x: string, y: string)
    requires Settled(hash, s) && x != "" && y != "" && hash(x) != s.left.lastHash && hash(y) != s.right.lastHash
    ensures var steps := [Edit(Left, x)] + ([Edit(Right, y)] + CROSSING);
      && IsRun(hash, s, steps) && (Parted(hash, s, steps) <==> hash(x) != hash(y))
      && var t := After(hash, s, steps);
      t.left.clip == y && t.right.clip == x && Settled(hash, t)
  {
    var s1 := Next(hash, s, Edit(Left, x));
    var s2 := Next(hash, s1, Edit(Right, y));
    CrossingSwaps(hash, s2);
    FirstStep(hash, s1, Edit(Right, y), CROSSING);
    FirstStep(hash, s, Edit(Left, x), [Edit(Right, y)] + CROSSING);
  }
}
