/**
 One file transfer end to end: the send thread, the sender's control loop, the
 receiver and the two ordered queues between them, interleaved step by step.

 Safety holds with every I/O fault and with cancellation from either side.
 Progress (a bound on the number of steps, no deadlock, and the exact outcome)
 is for runs without faults and cancellations, from any leftover `.part`.
 */
module TransferProtocol {
  import opened Prelude
  import opened FileXfer
  import opened TransferIntegrity

  /** The send thread: waiting for the resume offset, streaming from `next`, done
      after sending the digest, stopped by a cancellation, or ended without a word
      because the source could not be read. */
  datatype Phase = Await | Stream(next: nat) | Finished | Cancelled | Stopped(at: Option<nat>)

  /** What is sent, under which id and name. */
  datatype Job = Job(src: Bytes, tid: string, name: string)

  /** One trip around the send loop that has loaded `seen` from the shared ack
      offset, and whose file read returns `n` bytes if it gets that far. */
  function SendTurn(job: Job, digest: Bytes, next: nat, seen: nat, n: nat): (Phase, seq<Msg>)
    requires next < |job.src| ==> next + n <= |job.src|
  {
    if next >= |job.src| then
      if seen >= |job.src| then (Finished, [Complete(job.tid, digest)])
      else (Stream(next), [])
    else if next - seen >= WINDOW then (Stream(next), [])
    else (Stream(next + n), [Chunk(job.tid, next, job.src[next..next + n])])
  }

  /** The trip gets as far as reading the source. */
  predicate Reads(job: Job, next: nat, seen: nat) {
    next < |job.src| && next - seen < WINDOW
  }

  /** The send thread as an object. It reads the file in order, after hashing it. */
  class SendLoop {
    const job: Job
    const digest: Bytes
    const shared: SendShared
    var phase: Phase
    var sent: seq<Msg>

    /** The digest is computed first; a source that cannot be read ends the thread. */
    constructor (sha: Bytes -> Bytes, job: Job, shared: SendShared, readable: bool)
      ensures this.job == job && this.shared == shared && digest == sha(job.src)
      ensures phase == (if readable then Await else Stopped(None)) && sent == []
    {
      var content := HashPrefix(job.src, |job.src|, |job.src|);
      assert content == job.src;
      this.job, this.shared, this.digest := job, shared, sha(content);
      phase, sent := if readable then Await else Stopped(None), [];
    }

    /** One trip around the wait loop or the stream loop; `works` says whether the
        source can be sought or read, `n` is what a read of at most CHUNK bytes returns. */
    method Turn(works: bool) returns (n: nat)
      modifies this
      ensures old(phase).Await? ==>
        sent == old(sent) &&
        phase == if shared.started then (if works then Stream(shared.acked) else Stopped(None))
                 else if shared.cancel then Cancelled else Await
      ensures old(phase).Stream? && shared.cancel ==> phase == Cancelled && sent == old(sent)
      ensures old(phase).Stream? && !shared.cancel ==>
        var next := old(phase).next;
        && (next < |job.src| ==> 1 <= n <= CHUNK && next + n <= |job.src|)
        && if works || !Reads(job, next, shared.acked)
           then phase == SendTurn(job, digest, next, shared.acked, n).0 &&
                sent == old(sent) + SendTurn(job, digest, next, shared.acked, n).1
           else phase == Stopped(Some(next)) && sent == old(sent)
      ensures !old(phase).Await? && !old(phase).Stream? ==> phase == old(phase) && sent == old(sent)
    {
      n := 1;
      match phase
      case Await =>
        if !shared.started {
          if shared.cancel {
            phase := Cancelled;
          }
        } else {
          phase := if works then Stream(shared.acked) else Stopped(None);
        }
      case Stream(next) =>
        if shared.cancel {
          phase := Cancelled;
          return;
        }
        var acked := shared.acked;
        if next >= |job.src| {
          if acked >= |job.src| {
            sent := sent + [Complete(job.tid, digest)];
            phase := Finished;
          }
          return;
        }
        if next - acked >= WINDOW {
          return;
        }
        if !works {
          phase := Stopped(Some(next));
          return;
        }
        var want := Min(|job.src| - next, CHUNK);
        n :| 1 <= n <= want;
        sent := sent + [Chunk(job.tid, next, job.src[next..next + n])];
        phase := Stream(next + n);
      case _ =>
    }
  }

  // ---------------------------------------------------------------- the system

  /** `wire` carries messages to the receiver; `peer.out` is the queue back. */
  datatype Sys = Sys(phase: Phase, acked: nat, started: bool, cancel: bool, wire: seq<Msg>, peer: Receiver)

  datatype Action =
    | Begin                         // the send thread sees `started` and takes its offset
    | Turn(seen: nat, n: nat)       // one trip around the send loop, on a possibly stale ack offset
    | Notice                        // the send thread sees the cancel flag
    | GiveUp                        // the send thread cannot open, seek or read the source
    | TakeReply                     // the sender's control loop handles the next reply
    | Receive(io: Io)               // the receiver handles the next message
    | CancelSending
    | CancelReceiving

  predicate Enabled(job: Job, s: Sys, a: Action) {
    match a
    case Begin => s.phase.Await? && s.started
    case Turn(seen, n) =>
      s.phase.Stream? && seen <= s.acked &&
      (s.phase.next < |job.src| ==> 1 <= n <= CHUNK && s.phase.next + n <= |job.src|)
    case Notice => (s.phase.Await? || s.phase.Stream?) && s.cancel
    case GiveUp => s.phase.Await? || s.phase.Stream?
    case TakeReply => s.peer.out != []
    case Receive(_) => s.wire != []
    case CancelSending => !s.cancel
    case CancelReceiving => job.tid in s.peer.recvs
  }

  function Apply(sha: Bytes -> Bytes, job: Job, s: Sys, a: Action): Sys
    requires Enabled(job, s, a)
  {
    match a
    case Begin => s.(phase := Stream(s.acked))
    case Turn(seen, n) =>
      var (phase, sent) := SendTurn(job, sha(job.src), s.phase.next, seen, n);
      s.(phase := phase, wire := s.wire + sent)
    case Notice => s.(phase := Cancelled)
    case GiveUp => s.(phase := Stopped(if s.phase.Stream? then Some(s.phase.next) else None))
    case TakeReply =>
      var s' := s.(peer := s.peer.(out := s.peer.out[1..]));
      (match s.peer.out[0]
       case Ack(tid, offset) =>
         if tid == job.tid && !s.cancel then s'.(acked := offset, started := true) else s'
       case Cancel(tid, _) => if tid == job.tid then s'.(cancel := true) else s'
       case _ => s')
    case Receive(io) => s.(wire := s.wire[1..], peer := Handle(sha, s.peer, s.wire[0], io))
    case CancelSending => s.(cancel := true, wire := s.wire + [Cancel(job.tid, "")])
    case CancelReceiving =>
      s.(peer := s.peer.(recvs := s.peer.recvs - {job.tid}, out := s.peer.out + [Cancel(job.tid, "")]))
  }

  function Init(job: Job, disk: Disk): Sys {
    Sys(Await, 0, false, false, [Offer(job.tid, job.name, |job.src|)], Receiver(map[], disk, [], []))
  }

  // ---------------------------------------------------------------- what is on the wire

  predicate NoOffer(q: seq<Msg>) {
    forall m | m in q :: !m.Offer?
  }

  /** Consecutive chunks of the source from `from` up to `next`, unless the digest
      (only after the whole source) or a cancellation comes first. */
  ghost predicate Flow(sha: Bytes -> Bytes, job: Job, q: seq<Msg>, from: nat, next: nat) {
    if q == [] then from == next
    else match q[0]
      case Chunk(tid, offset, data) =>
        && tid == job.tid && offset == from && |data| > 0
        && from + |data| <= |job.src| && data == job.src[from..from + |data|]
        && Flow(sha, job, q[1..], from + |data|, next)
      case Complete(tid, digest) => tid == job.tid && digest == sha(job.src) && from == |job.src| && NoOffer(q)
      case Cancel(tid, _) => tid == job.tid && NoOffer(q)
      case _ => false
  }

  predicate Ends(q: seq<Msg>) {
    exists m | m in q :: m.Complete? || m.Cancel?
  }

  lemma {:induction false} FlowHasNoOffer(sha: Bytes -> Bytes, job: Job, q: seq<Msg>, from: nat, next: nat)
    requires Flow(sha, job, q, from, next)
    ensures NoOffer(q)
  {
    if q != [] && q[0].Chunk? {
      FlowHasNoOffer(sha, job, q[1..], from + |q[0].data|, next);
    }
  }

  /** Appending the next chunk, the digest at the end, or a cancellation. */
  lemma {:induction false} FlowSnoc(sha: Bytes -> Bytes, job: Job, q: seq<Msg>, from: nat, next: nat, m: Msg, next': nat)
    requires Flow(sha, job, q, from, next) && !m.Offer?
    requires !Ends(q) ==> Flow(sha, job, [m], next, next')
    ensures Flow(sha, job, q + [m], from, next')
  {
    if q == [] {
    } else {
      assert (q + [m])[1..] == q[1..] + [m];
      FlowHasNoOffer(sha, job, q, from, next);
      if q[0].Chunk? {
        assert Ends(q) <==> Ends(q[1..]) by {
          assert q == [q[0]] + q[1..];
        }
        FlowSnoc(sha, job, q[1..], from + |q[0].data|, next, m, next');
      } else {
        assert q[0] in q && Ends(q);
      }
    }
  }

  /** Once the digest or a cancellation is queued the send cursor no longer matters. */
  lemma {:induction false} FlowEnded(sha: Bytes -> Bytes, job: Job, q: seq<Msg>, from: nat, next: nat, next': nat)
    requires Flow(sha, job, q, from, next) && Ends(q)
    ensures Flow(sha, job, q, from, next')
  {
    if q[0].Chunk? {
      assert q == [q[0]] + q[1..];
      FlowEnded(sha, job, q[1..], from + |q[0].data|, next, next');
    }
  }

  /** The bytes of the chunks in `q`. */
  function Payload(q: seq<Msg>): Bytes {
    if q == [] then [] else (if q[0].Chunk? then q[0].data else []) + Payload(q[1..])
  }

  lemma Joined(src: Bytes, a: nat, b: nat, c: nat)
    requires a <= b <= c <= |src|
    ensures src[a..b] + src[b..c] == src[a..c]
  {
  }

  /** The queued chunks are exactly the source between the two cursors. */
  lemma {:induction false} FlowPayload(sha: Bytes -> Bytes, job: Job, q: seq<Msg>, from: nat, next: nat)
    requires Flow(sha, job, q, from, next) && !Ends(q) && from <= |job.src|
    ensures from <= next <= |job.src| && Payload(q) == job.src[from..next]
  {
    if q != [] {
      assert q[0] in q && forall m | m in q[1..] :: m in q;
      var mid := from + |q[0].data|;
      FlowPayload(sha, job, q[1..], mid, next);
      hide Flow, Ends;
      Joined(job.src, from, mid, next);
    }
  }

  // ---------------------------------------------------------------- safety

  function PartOf(job: Job): string { PartPath(job.name) }
  function FinalOf(job: Job): string { Sanitize(job.name) }

  predicate Reported(job: Job, s: Sys) {
    Completed(job.tid, FinalOf(job)) in s.peer.events
  }

  /** The offer has not been handled. */
  ghost predicate Offering(job: Job, s: Sys) {
    && s.phase in {Await, Cancelled, Stopped(None)} && !s.started
    && s.wire != [] && s.wire[0] == Offer(job.tid, job.name, |job.src|)
    && NoOffer(s.wire[1..]) && (forall m | m in s.wire[1..] :: m == Cancel(job.tid, ""))
    && (s.phase.Cancelled? || s.cancel ==> Ends(s.wire))
    && s.peer.recvs == map[] && s.peer.out == [] && !Reported(job, s)
  }

  /** The send thread has not sent any chunk. */
  predicate Unsent(phase: Phase) {
    phase.Await? || phase == Stopped(None)
  }

  function SendCursor(job: Job, s: Sys): nat {
    if s.phase.Stream? then s.phase.next
    else if s.phase.Stopped? && s.phase.at.Some? then s.phase.at.value
    else if Unsent(s.phase) && job.tid in s.peer.recvs then s.peer.recvs[job.tid].written
    else |job.src|
  }

  /** Where the next queued chunk starts; the send cursor if the wire is empty. */
  function Head(job: Job, s: Sys): nat {
    if s.wire == [] then SendCursor(job, s)
    else if s.wire[0].Chunk? then s.wire[0].offset
    else |job.src|
  }

  /** The receiver is in the middle of the transfer: everything between its cursor
      and the send cursor is on the wire, unless a fault has left it behind for good. */
  ghost predicate Live(sha: Bytes -> Bytes, job: Job, s: Sys) {
    Receiving(job, s) && InOrder(sha, job, s) && Unhurried(job, s)
  }

  /** The one transfer is live and unreported, and has sent nothing but acks. */
  ghost predicate Receiving(job: Job, s: Sys) {
    && s.peer.recvs.Keys == {job.tid} && !Reported(job, s)
    && var st := s.peer.recvs[job.tid];
    && st.partPath == PartOf(job) && st.finalPath == FinalOf(job) && st.size == |job.src|
    && (forall m | m in s.peer.out :: m.Ack? && m.tid == job.tid)
  }

  ghost predicate InOrder(sha: Bytes -> Bytes, job: Job, s: Sys)
    requires Receiving(job, s)
  {
    && Flow(sha, job, s.wire, Head(job, s), SendCursor(job, s))
    && s.peer.recvs[job.tid].written <= Head(job, s) && SendCursor(job, s) <= |job.src|
  }

  /** A sender that has stopped has said so; one that has not begun has sent no chunk, and
      knows of no offset but the resume point. */
  ghost predicate Unhurried(job: Job, s: Sys)
    requires Receiving(job, s)
  {
    var st := s.peer.recvs[job.tid];
    && (s.phase.Finished? || s.phase.Cancelled? || s.cancel ==> Ends(s.wire))
    && (Unsent(s.phase) ==>
          && (forall m | m in s.wire :: m.Cancel?)
          && (s.started ==> s.acked == st.written)
          && (forall m | m in s.peer.out :: m.offset == st.written))
  }

  /** Nothing the receiver still gets can have an effect. */
  predicate Settled(s: Sys) {
    s.peer.recvs == map[] && NoOffer(s.wire)
  }

  // ---------------------------------------------------------------- where the bytes land

  /** How the `.part` lies after the offer: shortened to what is resumed, with the cursor
      behind it; complete already; longer than the source; or with the cursor at the
      start although `r` bytes, not all, are resumed. */
  datatype Fate = Fits | Whole | TooLong | Misplaced(r: nat)

  /** Decided by the leftover and by what the disk does with the offer. */
  function FateOf(src: Bytes, leftover: Bytes, io: Io): Fate {
    var r := Resume(leftover, |src|, io);
    if !io.cut && |leftover| > |src| then TooLong
    else if io.seek || r == 0 then Fits
    else if r == |src| then Whole
    else Misplaced(r)
  }

  /** The state of the `.part` at a fate; `behind` says that the receiver has missed a
      chunk and will take no more. */
  ghost predicate Lies(src: Bytes, data: Bytes, st: Recv, behind: bool, fate: Fate) {
    match fate
    case Fits => st.skew == 0 && |data| <= |src| && st.pos <= |src| && (!behind ==> st.pos == st.written)
    case Whole => st.written == |src| == |data| && st.absorbed <= data
    case TooLong => |data| > |src|
    case Misplaced(r) =>
      0 < r < |src| && |data| < |src| && st.pos + r <= |src| && (!behind ==> st.pos + r == st.written)
  }

  predicate Lands(fate: Fate) {
    fate.Fits? || fate.Whole?
  }

  ghost predicate LiesNow(sha: Bytes -> Bytes, job: Job, s: Sys, fate: Fate)
    requires Live(sha, job, s)
  {
    var st := s.peer.recvs[job.tid];
    Lies(job.src, s.peer.disk.Read(PartOf(job)), st, st.written != Head(job, s), fate)
  }

  ghost predicate Safe(sha: Bytes -> Bytes, job: Job, s: Sys, fate: Fate) {
    && Inv(s.peer)
    && (Offering(job, s) || (Live(sha, job, s) && LiesNow(sha, job, s, fate)) || Settled(s))
    && (Reported(job, s) ==>
          s.peer.disk.Has(FinalOf(job)) && (s.peer.disk.Read(FinalOf(job)) == job.src <==> Lands(fate)))
  }

  /** What the sender adds to the wire continues it. */
  lemma SenderKeepsFlow(sha: Bytes -> Bytes, job: Job, s: Sys, a: Action)
    requires Live(sha, job, s) && Enabled(job, s, a) && (a.Begin? || a.Turn? || a.Notice? || a.GiveUp? || a.CancelSending?)
    ensures var s' := Apply(sha, job, s, a);
      Flow(sha, job, s'.wire, Head(job, s), SendCursor(job, s'))
      && Head(job, s) <= |job.src|
  {
    hide Sanitize, PartPath, AfterOffer, AfterChunk, AfterComplete, Inv;
    var s' := Apply(sha, job, s, a);
    if s'.wire != s.wire {
      var m := s'.wire[|s.wire|];
      assert s'.wire == s.wire + [m];
      FlowSnoc(sha, job, s.wire, Head(job, s), SendCursor(job, s), m, SendCursor(job, s'));
    } else if a.Notice? {
      FlowEnded(sha, job, s.wire, Head(job, s), SendCursor(job, s), SendCursor(job, s'));
    }
  }

  /** The first message of a wire that is in order stands at its head. */
  lemma FlowHead(sha: Bytes -> Bytes, job: Job, s: Sys, from: nat)
    requires Flow(sha, job, s.wire, from, SendCursor(job, s)) && from <= |job.src|
    ensures from <= Head(job, s) && Flow(sha, job, s.wire, Head(job, s), SendCursor(job, s))
  {
  }

  /** The sender's own steps keep the wire in order. */
  lemma SenderKeepsLive(sha: Bytes -> Bytes, job: Job, s: Sys, a: Action)
    requires Live(sha, job, s) && Enabled(job, s, a) && (a.Begin? || a.Turn? || a.Notice? || a.GiveUp? || a.CancelSending?)
    ensures Live(sha, job, Apply(sha, job, s, a)) && Head(job, s) <= Head(job, Apply(sha, job, s, a))
  {
    hide Sanitize, PartPath, AfterOffer, AfterChunk, AfterComplete, Reported, Flow;
    SenderKeepsFlow(sha, job, s, a);
    FlowHead(sha, job, Apply(sha, job, s, a), Head(job, s));
    SenderKeepsRest(sha, job, s, a);
    hide Apply, Unhurried;
  }

  lemma SenderKeepsRest(sha: Bytes -> Bytes, job: Job, s: Sys, a: Action)
    requires Live(sha, job, s) && Enabled(job, s, a) && (a.Begin? || a.Turn? || a.Notice? || a.GiveUp? || a.CancelSending?)
    ensures var s' := Apply(sha, job, s, a); Receiving(job, s') && Unhurried(job, s') && s'.peer == s.peer
  {
    hide Sanitize, PartPath, InOrder, Flow, AfterOffer, AfterChunk, AfterComplete;
    var s' := Apply(sha, job, s, a);
    assert s'.peer == s.peer;
    if a.Turn? {
      EndsWithMore(s.wire, s'.wire[|s.wire|..]);
      assert s'.wire == s.wire + s'.wire[|s.wire|..];
      assert s'.phase.Finished? ==> s'.wire[|s.wire|..] == [Complete(job.tid, sha(job.src))];
    } else if a.CancelSending? {
      EndsWithMore(s.wire, [Cancel(job.tid, "")]);
    } else {
      assert s'.wire == s.wire;
    }
  }

  lemma EndsWithMore(q: seq<Msg>, more: seq<Msg>)
    ensures Ends(q + more) <==> Ends(q) || Ends(more)
    ensures |more| == 1 ==> (Ends(more) <==> more[0].Complete? || more[0].Cancel?)
    ensures forall m | m in q + more :: m in q || m in more
  {
    assert forall m | m in q || m in more :: m in q + more;
  }

  lemma ReplyKeepsLive(sha: Bytes -> Bytes, job: Job, s: Sys)
    requires Live(sha, job, s) && s.peer.out != []
    ensures Live(sha, job, Apply(sha, job, s, TakeReply)) && Head(job, Apply(sha, job, s, TakeReply)) == Head(job, s)
  {
    hide Sanitize, PartPath, AfterOffer, AfterChunk, AfterComplete;
    assert s.peer.out[0] in s.peer.out && forall m | m in s.peer.out[1..] :: m in s.peer.out;
  }

  lemma SenderKeepsOffering(sha: Bytes -> Bytes, job: Job, s: Sys, a: Action)
    requires Offering(job, s) && Enabled(job, s, a) && !a.Receive?
    ensures Offering(job, Apply(sha, job, s, a))
  {
    hide Sanitize, PartPath, AfterOffer, AfterChunk, AfterComplete;
    var s' := Apply(sha, job, s, a);
    assert s'.wire[1..] == s.wire[1..] + s'.wire[|s.wire|..];
    assert Ends(s.wire) ==> Ends(s'.wire);
    assert a.CancelSending? ==> Cancel(job.tid, "") in s'.wire;
  }

  /** A receiver that has missed nothing before the wire moves on has missed nothing after. */
  lemma LiesKept(sha: Bytes -> Bytes, job: Job, s: Sys, s': Sys, fate: Fate)
    requires Live(sha, job, s) && Live(sha, job, s') && LiesNow(sha, job, s, fate)
    requires s'.peer.recvs == s.peer.recvs && s'.peer.disk == s.peer.disk && Head(job, s) <= Head(job, s')
    ensures LiesNow(sha, job, s', fate)
  {
    hide Sanitize, PartPath, Flow;
  }

  lemma SenderKeepsFile(sha: Bytes -> Bytes, job: Job, s: Sys, a: Action)
    requires Enabled(job, s, a) && !a.Receive? && !a.CancelReceiving?
    ensures var s' := Apply(sha, job, s, a);
      s'.peer.recvs == s.peer.recvs && s'.peer.disk == s.peer.disk && s'.peer.events == s.peer.events &&
      (NoOffer(s.wire) ==> NoOffer(s'.wire))
  {
  }

  lemma SenderKeepsBoth(sha: Bytes -> Bytes, job: Job, s: Sys, a: Action, fate: Fate)
    requires Live(sha, job, s) && LiesNow(sha, job, s, fate) && Enabled(job, s, a) && !a.Receive? && !a.CancelReceiving?
    ensures var s' := Apply(sha, job, s, a); Live(sha, job, s') && LiesNow(sha, job, s', fate)
  {
    hide Sanitize, PartPath, Flow, Live, Head, SendCursor, Lies, AfterOffer, AfterChunk, AfterComplete;
    if a.TakeReply? {
      ReplyKeepsLive(sha, job, s);
    } else {
      SenderKeepsLive(sha, job, s, a);
    }
    SenderKeepsFile(sha, job, s, a);
    LiesKept(sha, job, s, Apply(sha, job, s, a), fate);
  }

  lemma SenderKeepsSafe(sha: Bytes -> Bytes, job: Job, s: Sys, a: Action, fate: Fate)
    requires Safe(sha, job, s, fate) && Enabled(job, s, a) && !a.Receive? && !a.CancelReceiving?
    ensures Safe(sha, job, Apply(sha, job, s, a), fate)
  {
    hide Sanitize, PartPath, Live, LiesNow, Offering, Apply, Enabled;
    SenderKeepsFile(sha, job, s, a);
    if Offering(job, s) {
      SenderKeepsOffering(sha, job, s, a);
    } else if Live(sha, job, s) && LiesNow(sha, job, s, fate) {
      SenderKeepsBoth(sha, job, s, a, fate);
    }
  }

  /** Handling the offer decides the fate of the file. */
  lemma OfferKeepsSafe(sha: Bytes -> Bytes, job: Job, s: Sys, io: Io, fate: Fate)
    requires Inv(s.peer) && Offering(job, s) && fate == FateOf(job.src, s.peer.disk.Read(PartOf(job)), io)
    ensures Safe(sha, job, Apply(sha, job, s, Receive(io)), fate)
  {
    hide Sanitize, PartPath, AfterOffer, AfterChunk, AfterComplete, Inv;
    var s' := Apply(sha, job, s, Receive(io));
    StepKeepsInv(sha, s.peer, Deliver(s.wire[0], io));
    InvDisk(s.peer);
    if io.mkdir && io.open {
      OfferLiesNow(sha, job, s, io, fate);
    } else {
      OfferRefused(s.peer, job.tid, job.name, |job.src|, io);
      assert Settled(s');
    }
  }

  lemma OfferLiesNow(sha: Bytes -> Bytes, job: Job, s: Sys, io: Io, fate: Fate)
    requires s.peer.disk.Valid() && Offering(job, s) && io.mkdir && io.open
    requires fate == FateOf(job.src, s.peer.disk.Read(PartOf(job)), io)
    ensures var s' := Apply(sha, job, s, Receive(io)); Live(sha, job, s') && LiesNow(sha, job, s', fate) && !Reported(job, s')
  {
    hide Sanitize, PartPath, AfterOffer, AfterChunk, AfterComplete, Lies;
    var s' := Apply(sha, job, s, Receive(io));
    OfferStartsLive(sha, job, s, io);
    OfferAdopts(s.peer, job.tid, job.name, |job.src|, io);
    hide Live, Flow, Offering;
    OfferLies(job.src, s.peer.disk.Read(PartOf(job)), io, s'.peer.disk.Read(PartOf(job)), s'.peer.recvs[job.tid],
              s'.peer.recvs[job.tid].written != Head(job, s'), fate);
  }

  lemma OfferStartsLive(sha: Bytes -> Bytes, job: Job, s: Sys, io: Io)
    requires s.peer.disk.Valid() && Offering(job, s) && io.mkdir && io.open
    ensures Live(sha, job, Apply(sha, job, s, Receive(io))) && !Reported(job, Apply(sha, job, s, Receive(io)))
  {
    hide Sanitize, PartPath, AfterOffer, AfterChunk, AfterComplete;
    var s' := Apply(sha, job, s, Receive(io));
    OfferAdopts(s.peer, job.tid, job.name, |job.src|, io);
    assert s'.peer == AfterOffer(s.peer, job.tid, job.name, |job.src|, io);
    hide Apply;
    OfferTaken(job, s, s');
    FreshIsLive(sha, job, s');
  }

  /** The state right after the offer: nothing but cancellations follow it. */
  ghost predicate Taken(job: Job, s: Sys) {
    && s.peer.recvs.Keys == {job.tid} && !Reported(job, s)
    && var st := s.peer.recvs[job.tid];
    && st.partPath == PartOf(job) && st.finalPath == FinalOf(job) && st.size == |job.src| && st.written <= |job.src|
    && s.phase in {Await, Cancelled, Stopped(None)} && !s.started
    && (forall m | m in s.wire :: m == Cancel(job.tid, ""))
    && (s.phase.Cancelled? || s.cancel ==> s.wire != [])
    && s.peer.out == [Ack(job.tid, st.written)]
  }

  lemma OfferTaken(job: Job, s: Sys, s': Sys)
    requires Offering(job, s) && s' == s.(wire := s.wire[1..], peer := s'.peer)
    requires s'.peer.recvs.Keys == {job.tid} && s'.peer.out == [Ack(job.tid, s'.peer.recvs[job.tid].written)]
    requires s'.peer.events == s.peer.events + [Offered(job.tid, job.name, |job.src|)]
    requires var st := s'.peer.recvs[job.tid];
      st.partPath == PartOf(job) && st.finalPath == FinalOf(job) && st.size == |job.src| && st.written <= |job.src|
    ensures Taken(job, s')
  {
    hide Sanitize, PartPath;
    assert s.wire == [s.wire[0]] + s'.wire;
    assert Ends(s.wire) ==> s'.wire != [];
  }

  lemma FreshIsLive(sha: Bytes -> Bytes, job: Job, s: Sys)
    requires Taken(job, s)
    ensures Live(sha, job, s)
  {
    hide Sanitize, PartPath, Reported;
    assert s.wire != [] ==> s.wire[0] in s.wire && Ends(s.wire);
    OnlyCancels(sha, job, s.wire, Head(job, s), SendCursor(job, s));
    hide Flow;
  }

  lemma OnlyCancels(sha: Bytes -> Bytes, job: Job, q: seq<Msg>, from: nat, next: nat)
    requires (forall m | m in q :: m == Cancel(job.tid, "")) && (q == [] ==> from == next)
    ensures Flow(sha, job, q, from, next)
  {
    if q != [] {
      assert q[0] in q;
    }
  }

  lemma OfferLies(src: Bytes, leftover: Bytes, io: Io, data: Bytes, st: Recv, behind: bool, fate: Fate)
    requires fate == FateOf(src, leftover, io)
    requires data == if io.cut then leftover[..Resume(leftover, |src|, io)] else leftover
    requires var r := Resume(leftover, |src|, io);
      st.pos == (if io.seek then r else 0) && st.written == r && st.skew == (if io.seek then 0 else r) &&
      st.absorbed == leftover[..Min(r, io.readable)]
    ensures Lies(src, data, st, behind, fate)
  {
  }

  /** What a chunk at or past the cursor does to the receiver, disk aside. */
  ghost predicate ChunkTaken(m: Receiver, m': Receiver, tid: string, offset: nat, data: Bytes, wrote: nat) {
    && tid in m.recvs && tid in m'.recvs && m'.recvs == m.recvs[tid := m'.recvs[tid]]
    && var st, st' := m.recvs[tid], m'.recvs[tid];
    && st'.partPath == st.partPath && st'.finalPath == st.finalPath && st'.size == st.size
    && (if offset == st.written && wrote >= |data|
        then st'.written == st.written + |data| && st'.pos == st.pos + |data|
        else st'.written == st.written)
    && (m'.out == m.out || m'.out == m.out + [Ack(tid, st'.written)])
    && (exists e :: m'.events == m.events + [e] && !e.Completed?)
  }

  lemma ChunkEffect(m: Receiver, tid: string, offset: nat, data: Bytes, io: Io)
    requires tid in m.recvs && offset >= m.recvs[tid].written
    ensures ChunkTaken(m, AfterChunk(m, tid, offset, data, io), tid, offset, data, io.wrote)
  {
    var m' := AfterChunk(m, tid, offset, data, io);
    var e := m'.events[|m.events|];
    assert m'.events == m.events + [e] && !e.Completed?;
  }

  /** The next chunk is taken, or the receiver stays behind forever. */
  lemma ChunkKeepsLive(sha: Bytes -> Bytes, job: Job, s: Sys, peer: Receiver, wrote: nat)
    requires Live(sha, job, s) && s.wire != [] && s.wire[0].Chunk?
    requires ChunkTaken(s.peer, peer, job.tid, s.wire[0].offset, s.wire[0].data, wrote)
    ensures Live(sha, job, s.(wire := s.wire[1..], peer := peer))
  {
    hide Sanitize, PartPath;
    var rest, from, s' := s.wire[1..], s.wire[0].offset + |s.wire[0].data|, s.(wire := s.wire[1..], peer := peer);
    assert s.wire == [s.wire[0]] + rest;
    assert s.wire[0] in s.wire && (Ends(s.wire) ==> Ends(rest));
    assert SendCursor(job, s') == SendCursor(job, s);
    assert Flow(sha, job, rest, from, SendCursor(job, s));
    assert Flow(sha, job, rest, Head(job, s'), SendCursor(job, s)) by {
      assert rest == [] || rest[0].Chunk? || rest[0].Complete? || rest[0].Cancel?;
    }
  }

  lemma ChunkKeepsSafe(sha: Bytes -> Bytes, job: Job, s: Sys, io: Io, fate: Fate)
    requires Safe(sha, job, s, fate) && Live(sha, job, s) && LiesNow(sha, job, s, fate) && s.wire != [] && s.wire[0].Chunk?
    ensures Safe(sha, job, Apply(sha, job, s, Receive(io)), fate)
  {
    hide Sanitize, PartPath, AfterOffer, AfterChunk, AfterComplete, Lies;
    var Chunk(tid, offset, data) := s.wire[0];
    StepKeepsInv(sha, s.peer, Deliver(s.wire[0], io));
    ChunkEffect(s.peer, tid, offset, data, io);
    ChunkKeepsLive(sha, job, s, AfterChunk(s.peer, tid, offset, data, io), io.wrote);
    ChunkKeepsLies(sha, job, s, io, fate);
  }

  /** Behind a chunk the wire goes on where the chunk ends, or later. */
  lemma HeadAdvances(sha: Bytes -> Bytes, job: Job, s: Sys, peer: Receiver)
    requires Live(sha, job, s) && s.wire != [] && s.wire[0].Chunk? && job.tid in peer.recvs
    requires Unsent(s.phase) ==> peer.recvs[job.tid].written == s.peer.recvs[job.tid].written
    ensures s.wire[0].offset + |s.wire[0].data| <= Head(job, s.(wire := s.wire[1..], peer := peer))
    ensures |s.wire[0].data| > 0 && s.wire[0].offset + |s.wire[0].data| <= |job.src|
  {
    hide Sanitize, PartPath;
    assert s.wire[0] in s.wire;
    var rest, from := s.wire[1..], s.wire[0].offset + |s.wire[0].data|;
    assert Flow(sha, job, rest, from, SendCursor(job, s));
    assert rest == [] || rest[0].Chunk? || rest[0].Complete? || rest[0].Cancel?;
  }

  lemma ChunkKeepsLies(sha: Bytes -> Bytes, job: Job, s: Sys, io: Io, fate: Fate)
    requires Inv(s.peer) && Live(sha, job, s) && LiesNow(sha, job, s, fate) && s.wire != [] && s.wire[0].Chunk?
    requires Live(sha, job, Apply(sha, job, s, Receive(io)))
    ensures LiesNow(sha, job, Apply(sha, job, s, Receive(io)), fate)
  {
    hide Sanitize, PartPath, AfterOffer, AfterComplete, AfterChunk, Lies, Flow;
    var Chunk(tid, offset, data) := s.wire[0];
    var s', st := Apply(sha, job, s, Receive(io)), s.peer.recvs[job.tid];
    var st' := s'.peer.recvs[job.tid];
    InvDisk(s.peer);
    hide Inv;
    ChunkSender(sha, job, s);
    HeadAdvances(sha, job, s, s'.peer);
    if offset == st.written {
      ChunkWrites(s.peer, tid, data, io);
      hide Overwrite, Live;
      WriteKeepsLies(job.src, s.peer.disk.Read(PartOf(job)), st, st', data, Min(io.wrote, |data|), st'.written != Head(job, s'), fate);
    } else {
      GapKeepsFile(s.peer, tid, offset, data, io);
    }
  }

  /** Chunks on the wire were sent. */
  lemma ChunkSender(sha: Bytes -> Bytes, job: Job, s: Sys)
    requires Live(sha, job, s) && s.wire != [] && s.wire[0].Chunk?
    ensures !Unsent(s.phase) && s.wire[0].tid == job.tid && s.peer.recvs[job.tid].written <= s.wire[0].offset
  {
    hide Sanitize, PartPath;
    assert s.wire[0] in s.wire;
  }

  lemma GapKeepsFile(m: Receiver, tid: string, offset: nat, data: Bytes, io: Io)
    requires tid in m.recvs && offset != m.recvs[tid].written
    ensures AfterChunk(m, tid, offset, data, io).disk == m.disk && AfterChunk(m, tid, offset, data, io).recvs == m.recvs
  {
  }

  lemma WriteKeepsLies(src: Bytes, data: Bytes, st: Recv, st': Recv, chunk: Bytes, wrote: nat, behind: bool, fate: Fate)
    requires Lies(src, data, st, false, fate) && st.pos <= |data| && chunk != [] && st.written + |chunk| <= |src|
    requires wrote <= |chunk| && st'.pos == st.pos + wrote && st'.skew == st.skew
    requires st'.written == (if wrote < |chunk| then st.written else st.written + |chunk|) && (wrote < |chunk| ==> behind)
    ensures Lies(src, Overwrite(data, st.pos, chunk[..wrote]), st', behind, fate)
  {
    hide Overwrite;
    OverwriteShape(data, st.pos, chunk[..wrote]);
  }

  /** Handling the digest: a file that is reported complete is the source, or has been lost
      by the offer. */
  lemma CompleteKeepsSafe(sha: Bytes -> Bytes, job: Job, s: Sys, io: Io, fate: Fate)
    requires NoSecondPreimage(sha, job.src)
    requires Safe(sha, job, s, fate) && Live(sha, job, s) && LiesNow(sha, job, s, fate) && s.wire != [] && s.wire[0].Complete?
    ensures Safe(sha, job, Apply(sha, job, s, Receive(io)), fate)
  {
    hide Sanitize, PartPath, AfterOffer, AfterChunk, AfterComplete, Inv, Lies;
    StepKeepsInv(sha, s.peer, Deliver(s.wire[0], io));
    InvDisk(s.peer);
    var st := s.peer.recvs[job.tid];
    CompleteOutcome(sha, s.peer, job.tid, sha(job.src), io);
    if st.written == st.size && sha(st.absorbed) == sha(job.src) {
      WholeFile(job.src, s.peer.disk.Read(PartOf(job)), st, fate);
    }
    assert Settled(Apply(sha, job, s, Receive(io)));
  }

  lemma WholeFile(src: Bytes, data: Bytes, st: Recv, fate: Fate)
    requires Lies(src, data, st, false, fate) && st.written == |src| && st.absorbed == src && st.pos <= |data|
    requires st.skew == 0 && |st.absorbed| == st.pos ==> data[..st.pos] == st.absorbed
    ensures data == src <==> Lands(fate)
  {
    assert data[..|data|] == data;
  }

  /** Whatever else arrives has no effect, or ends the transfer unreported. */
  lemma OtherKeepsSafe(sha: Bytes -> Bytes, job: Job, s: Sys, io: Io, fate: Fate)
    requires Safe(sha, job, s, fate) && s.wire != []
    requires Settled(s) || (Live(sha, job, s) && s.wire[0].Cancel?)
    ensures Safe(sha, job, Apply(sha, job, s, Receive(io)), fate)
  {
    hide Sanitize, PartPath, AfterOffer;
    StepKeepsInv(sha, s.peer, Deliver(s.wire[0], io));
    hide Inv;
    assert s.wire[0] in s.wire && forall m | m in s.wire[1..] :: m in s.wire;
    if !Settled(s) {
      FlowHasNoOffer(sha, job, s.wire, Head(job, s), SendCursor(job, s));
    }
    assert Settled(Apply(sha, job, s, Receive(io)));
  }

  /** The action handles the offer, and so decides the fate. */
  ghost predicate Decides(job: Job, s: Sys, a: Action, fate: Fate) {
    a.Receive? && s.wire != [] && s.wire[0].Offer? ==> fate == FateOf(job.src, s.peer.disk.Read(PartOf(job)), a.io)
  }

  /** Every step of either side, with any fault and any cancellation. */
  lemma StepKeepsSafe(sha: Bytes -> Bytes, job: Job, s: Sys, a: Action, fate: Fate)
    requires NoSecondPreimage(sha, job.src) && Safe(sha, job, s, fate) && Enabled(job, s, a) && Decides(job, s, a, fate)
    ensures Safe(sha, job, Apply(sha, job, s, a), fate)
  {
    hide Sanitize, PartPath, AfterOffer, AfterChunk, AfterComplete, Lies;
    match a
    case Receive(io) =>
      if Offering(job, s) {
        OfferKeepsSafe(sha, job, s, io, fate);
      } else if Live(sha, job, s) && LiesNow(sha, job, s, fate) && s.wire[0].Chunk? {
        ChunkKeepsSafe(sha, job, s, io, fate);
      } else if Live(sha, job, s) && LiesNow(sha, job, s, fate) && s.wire[0].Complete? {
        CompleteKeepsSafe(sha, job, s, io, fate);
      } else {
        OtherKeepsSafe(sha, job, s, io, fate);
      }
    case CancelReceiving =>
      if Live(sha, job, s) {
        FlowHasNoOffer(sha, job, s.wire, Head(job, s), SendCursor(job, s));
      }
      ForgetKeepsInv(s.peer, Apply(sha, job, s, a).peer, job.tid);
      assert Settled(Apply(sha, job, s, a));
    case _ => SenderKeepsSafe(sha, job, s, a, fate);
  }

  ghost predicate IsRun(sha: Bytes -> Bytes, job: Job, disk: Disk, run: seq<Sys>, acts: seq<Action>) {
    && |run| == |acts| + 1 && run[0] == Init(job, disk)
    && forall i | 0 <= i < |acts| :: Enabled(job, run[i], acts[i]) && run[i + 1] == Apply(sha, job, run[i], acts[i])
  }

  /** In every interleaving, from every leftover on disk, with every I/O fault of either
      side and every cancellation: once the receiver has reported the transfer complete,
      the final file is byte-equal to the source, and stays so, if and only if the offer
      was handled with the file shortened, or short enough, and with the cursor at the
      resume point, or nothing or everything to resume. */
  lemma {:induction false} CompletedIsSourceExactly(sha: Bytes -> Bytes, job: Job, disk: Disk, run: seq<Sys>, acts: seq<Action>,
      fate: Fate, i: nat)
    requires NoSecondPreimage(sha, job.src) && disk.Valid()
    requires IsRun(sha, job, disk, run, acts) && i < |run|
    requires forall j | 0 <= j < |acts| :: Decides(job, run[j], acts[j], fate)
    ensures Safe(sha, job, run[i], fate)
    ensures Reported(job, run[i]) ==>
      run[i].peer.disk.Has(FinalOf(job)) && (run[i].peer.disk.Read(FinalOf(job)) == job.src <==> Lands(fate))
  {
    hide Sanitize, PartPath, AfterOffer, AfterChunk, AfterComplete, Lies, Live;
    if i == 0 {
      assert Offering(job, run[0]);
    } else {
      CompletedIsSourceExactly(sha, job, disk, run, acts, fate, i - 1);
      assert Enabled(job, run[i - 1], acts[i - 1]);
      StepKeepsSafe(sha, job, run[i - 1], acts[i - 1], fate);
    }
  }

  /** Shortening and seeking in the `.part` work; anything else may fail. */
  predicate Obeys(a: Action) {
    a.Receive? ==> a.io.cut && a.io.seek
  }

  /** So where shortening and seeking work, a transfer reported complete is the source,
      whatever else fails and whoever cancels. */
  lemma CompletedIsSource(sha: Bytes -> Bytes, job: Job, disk: Disk, run: seq<Sys>, acts: seq<Action>, i: nat)
    requires NoSecondPreimage(sha, job.src) && disk.Valid()
    requires IsRun(sha, job, disk, run, acts) && i < |run| && forall a | a in acts :: Obeys(a)
    ensures Reported(job, run[i]) ==> run[i].peer.disk.Has(FinalOf(job)) && run[i].peer.disk.Read(FinalOf(job)) == job.src
  {
    hide Reported, Sanitize, PartPath;
    forall j | 0 <= j < |acts| ensures Decides(job, run[j], acts[j], Fits) {
      assert acts[j] in acts;
    }
    CompletedIsSourceExactly(sha, job, disk, run, acts, Fits, i);
  }

  // ---------------------------------------------------------------- cancellation

  /** Only this transfer is on the wire and in the receiver's table, and its offer, if it
      is still to come, comes first. */
  ghost predicate Ours(job: Job, s: Sys) {
    && s.peer.recvs.Keys <= {job.tid}
    && (forall k | 0 <= k < |s.wire| :: s.wire[k].tid == job.tid)
    && forall k | 1 <= k < |s.wire| :: !s.wire[k].Offer?
  }

  lemma StepKeepsOurs(sha: Bytes -> Bytes, job: Job, s: Sys, a: Action)
    requires Ours(job, s) && Enabled(job, s, a)
    ensures Ours(job, Apply(sha, job, s, a))
  {
    hide Sanitize, PartPath;
    match a
    case Receive(io) =>
      ReceiverKeepsOurs(sha, job, s.peer, s.wire[0], io);
      hide Handle;
    case Turn(_, _) =>
    case _ =>
  }

  lemma ReceiverKeepsOurs(sha: Bytes -> Bytes, job: Job, m: Receiver, msg: Msg, io: Io)
    requires m.recvs.Keys <= {job.tid} && msg.tid == job.tid
    ensures var m' := Handle(sha, m, msg, io);
      && m'.recvs.Keys <= {job.tid} && m.out <= m'.out
      && (m.recvs == map[] && !msg.Offer? ==> m'.recvs == map[])
      && (msg.Cancel? ==> m'.recvs == map[])
  {
    hide Sanitize, PartPath;
  }

  lemma {:induction false} RunKeepsOurs(sha: Bytes -> Bytes, job: Job, disk: Disk, run: seq<Sys>, acts: seq<Action>, i: nat)
    requires IsRun(sha, job, disk, run, acts) && i < |run|
    ensures Ours(job, run[i])
  {
    if i > 0 {
      RunKeepsOurs(sha, job, disk, run, acts, i - 1);
      assert Enabled(job, run[i - 1], acts[i - 1]);
      StepKeepsOurs(sha, job, run[i - 1], acts[i - 1]);
      hide Apply;
    }
  }

  /** The receiver's cancellation is on its way to the sender, or has arrived. */
  predicate SenderHears(job: Job, s: Sys) {
    s.cancel || Cancel(job.tid, "") in s.peer.out
  }

  lemma StepKeepsHearing(sha: Bytes -> Bytes, job: Job, s: Sys, a: Action)
    requires Ours(job, s) && Enabled(job, s, a) && SenderHears(job, s)
    ensures SenderHears(job, Apply(sha, job, s, a))
  {
    hide Sanitize, PartPath;
    match a
    case Receive(io) =>
      ReceiverKeepsOurs(sha, job, s.peer, s.wire[0], io);
      hide Handle;
    case TakeReply => assert s.peer.out == [s.peer.out[0]] + s.peer.out[1..];
    case _ =>
  }

  /** A cancellation by the receiver is never lost: from then on it is in the queue back or
      the send thread can see it, and a thread that sees it need not go on. */
  lemma {:induction false} CancelReachesSender(sha: Bytes -> Bytes, job: Job, disk: Disk, run: seq<Sys>, acts: seq<Action>, i: nat, j: nat)
    requires IsRun(sha, job, disk, run, acts) && i < j < |run| && acts[i] == CancelReceiving
    ensures SenderHears(job, run[j])
    ensures run[j].peer.out == [] && (run[j].phase.Await? || run[j].phase.Stream?) ==>
      Enabled(job, run[j], Notice) && Apply(sha, job, run[j], Notice).phase.Cancelled?
  {
    assert Enabled(job, run[j - 1], acts[j - 1]);
    RunKeepsOurs(sha, job, disk, run, acts, j - 1);
    hide Ours, Sanitize, PartPath, Handle;
    if i < j - 1 {
      CancelReachesSender(sha, job, disk, run, acts, i, j - 1);
      StepKeepsHearing(sha, job, run[j - 1], acts[j - 1]);
      hide Apply;
    } else {
      var out := run[i].peer.out;
      assert run[j].peer.out == out + [Cancel(job.tid, "")] && run[j].peer.out[|out|] == Cancel(job.tid, "");
    }
  }

  /** The sender's cancellation is on its way to the receiver, or nothing more can reach it. */
  predicate ReceiverHears(job: Job, s: Sys) {
    Cancel(job.tid, "") in s.wire || (s.peer.recvs == map[] && NoOffer(s.wire))
  }

  lemma StepKeepsReceiverHearing(sha: Bytes -> Bytes, job: Job, s: Sys, a: Action)
    requires Ours(job, s) && Enabled(job, s, a) && ReceiverHears(job, s)
    ensures ReceiverHears(job, Apply(sha, job, s, a))
  {
    hide Sanitize, PartPath;
    match a
    case Receive(io) =>
      ReceiverKeepsOurs(sha, job, s.peer, s.wire[0], io);
      hide Handle;
      assert s.wire == [s.wire[0]] + s.wire[1..] && s.wire[0] in s.wire;
    case Turn(_, _) =>
      var s' := Apply(sha, job, s, a);
      assert s'.wire == s.wire + s'.wire[|s.wire|..];
    case _ =>
  }

  /** A cancellation by the sender is never lost either: once it has been handled the receiver
      has no such transfer, and no offer that could bring it back is on its way. */
  lemma {:induction false} CancelReachesReceiver(sha: Bytes -> Bytes, job: Job, disk: Disk, run: seq<Sys>, acts: seq<Action>, i: nat, j: nat)
    requires IsRun(sha, job, disk, run, acts) && i < j < |run| && acts[i] == CancelSending
    ensures ReceiverHears(job, run[j])
    ensures run[j].wire == [] ==> run[j].peer.recvs == map[]
  {
    assert Enabled(job, run[j - 1], acts[j - 1]);
    RunKeepsOurs(sha, job, disk, run, acts, j - 1);
    hide Ours, Sanitize, PartPath, Handle;
    if i < j - 1 {
      CancelReachesReceiver(sha, job, disk, run, acts, i, j - 1);
      StepKeepsReceiverHearing(sha, job, run[j - 1], acts[j - 1]);
      hide Apply;
    } else {
      var wire := run[i].wire;
      assert run[j].wire == wire + [Cancel(job.tid, "")] && run[j].wire[|wire|] == Cancel(job.tid, "");
    }
  }

  /** Once cancelled, a transfer hears no more acks, and stays cancelled. */
  lemma CancelFreezes(sha: Bytes -> Bytes, job: Job, s: Sys, a: Action)
    requires Enabled(job, s, a) && s.cancel
    ensures var s' := Apply(sha, job, s, a); s'.cancel && s'.acked == s.acked && s'.started == s.started
  {
    hide Sanitize, PartPath, Handle;
  }

  /** Once the send thread has ended, all that it or its manager ever adds is a cancellation. */
  lemma SilentOnceEnded(sha: Bytes -> Bytes, job: Job, s: Sys, a: Action)
    requires Enabled(job, s, a) && !s.phase.Await? && !s.phase.Stream?
    ensures Apply(sha, job, s, a).phase == s.phase
    ensures forall m | m in Apply(sha, job, s, a).wire :: m in s.wire || m.Cancel?
  {
    hide Sanitize, PartPath, Handle;
  }

  // ---------------------------------------------------------------- progress

  /** The bytes the receiver takes over from the leftover. */
  function Adopted(job: Job, disk: Disk): Bytes {
    disk.Read(PartOf(job))[..Min(|disk.Read(PartOf(job))|, |job.src|)]
  }

  /** Acks in flight never go back, and the last one is the receiver's. */
  ghost predicate Acks(job: Job, q: seq<Msg>, acked: nat, lastAck: nat) {
    if q == [] then acked == lastAck
    else q[0].Ack? && q[0].tid == job.tid && acked <= q[0].offset && Acks(job, q[1..], q[0].offset, lastAck)
  }

  lemma {:induction false} AcksBound(job: Job, q: seq<Msg>, acked: nat, lastAck: nat)
    requires Acks(job, q, acked, lastAck)
    ensures acked <= lastAck
  {
    if q != [] {
      AcksBound(job, q[1..], q[0].offset, lastAck);
    }
  }

  lemma {:induction false} AcksSnoc(job: Job, q: seq<Msg>, acked: nat, lastAck: nat, offset: nat)
    requires Acks(job, q, acked, lastAck) && lastAck <= offset
    ensures Acks(job, q + [Ack(job.tid, offset)], acked, offset)
  {
    if q != [] {
      assert (q + [Ack(job.tid, offset)])[1..] == q[1..] + [Ack(job.tid, offset)];
      AcksSnoc(job, q[1..], q[0].offset, lastAck, offset);
    }
  }

  /** The receiver of a fault-free transfer: it has absorbed the adopted bytes and then
      the source, and owes no ack once ACK_EVERY bytes, or all of them, have arrived. */
  ghost predicate OnTrack(job: Job, adopted: Bytes, st: Recv) {
    && |adopted| <= st.written <= |job.src|
    && st.absorbed == adopted + job.src[|adopted|..st.written]
    && st.lastAck <= st.written < st.lastAck + ACK_EVERY
    && (st.written == |job.src| ==> st.lastAck == |job.src|)
  }

  /** A fault-free transfer in progress, as far as cursors and queues go. */
  ghost predicate Steady(sha: Bytes -> Bytes, job: Job, disk: Disk, s: Sys) {
    && Live(sha, job, s) && !s.cancel && !s.phase.Cancelled? && !s.phase.Stopped?
    && var st := s.peer.recvs[job.tid];
    && st.written == Head(job, s)
    && OnTrack(job, Adopted(job, disk), st)
    && Acks(job, s.peer.out, s.acked, st.lastAck)
    && (s.started || s.peer.out != [])
    && Paced(job, s)
  }

  /** The sender keeps to the window, and sends the digest last. */
  ghost predicate Paced(job: Job, s: Sys) {
    && (s.phase.Stream? ==> s.started && s.acked <= s.phase.next < s.acked + WINDOW + CHUNK)
    && (!s.phase.Finished? ==> !Ends(s.wire))
    && (s.phase.Finished? ==> s.started && |s.wire| == 1 && s.wire[0].Complete? && SeenAll(job, s))
  }

  predicate SeenAll(job: Job, s: Sys) {
    job.tid in s.peer.recvs && s.peer.recvs[job.tid].written == |job.src|
  }

  /** A fault-free transfer in progress. */
  ghost predicate Streaming(sha: Bytes -> Bytes, job: Job, disk: Disk, s: Sys) {
    Steady(sha, job, disk, s) && Inv(s.peer) && LiesNow(sha, job, s, Fits)
  }

  /** Completed if the adopted bytes were a prefix of the source, otherwise failed;
      in both cases no `.part` is left. */
  ghost predicate Ended(job: Job, disk: Disk, s: Sys) {
    && s.phase.Finished? && s.wire == [] && s.peer.recvs == map[]
    && !s.peer.disk.Has(PartOf(job))
    && (Reported(job, s) <==> Adopted(job, disk) <= job.src)
    && (Reported(job, s) ==> s.peer.disk.Read(FinalOf(job)) == job.src)
    && (!Reported(job, s) ==> Failed(job.tid, "integrity check failed") in s.peer.events)
  }

  ghost predicate Good(sha: Bytes -> Bytes, job: Job, disk: Disk, s: Sys) {
    || s == Init(job, disk)
    || Streaming(sha, job, disk, s)
    || Ended(job, disk, s)
  }

  /** No cancellation, and the disk does what it is asked to. */
  predicate Fine(job: Job, a: Action) {
    match a
    case Receive(io) =>
      && io.mkdir && io.stat && io.open && io.cut && io.seek && io.rename
      && io.readable >= |job.src| && io.wrote >= |job.src|
    case Notice => false
    case GiveUp => false
    case CancelSending => false
    case CancelReceiving => false
    case _ => true
  }

  /** At most WINDOW + CHUNK - 1 bytes are ever unacked, and what is queued is exactly
      the source between the receiver's cursor and the send cursor. */
  lemma InFlight(sha: Bytes -> Bytes, job: Job, disk: Disk, s: Sys)
    requires Streaming(sha, job, disk, s) && s.phase.Stream?
    ensures s.phase.next - s.acked <= WINDOW + CHUNK - 1
    ensures var written := s.peer.recvs[job.tid].written;
            written <= s.phase.next <= |job.src| && Payload(s.wire) == job.src[written..s.phase.next]
  {
    hide Sanitize, PartPath;
    FlowPayload(sha, job, s.wire, Head(job, s), s.phase.next);
  }

  /** And the window is used: with less than 1 MiB unacked and source left, the next trip
      sends the bytes at the cursor, as many as the read returns. */
  lemma WindowIsUsed(sha: Bytes -> Bytes, job: Job, s: Sys, n: nat)
    requires s.phase.Stream? && s.phase.next < |job.src| && s.phase.next - s.acked < 1048576
    requires 1 <= n <= 16384 && s.phase.next + n <= |job.src|
    ensures Enabled(job, s, Turn(s.acked, n))
    ensures var s' := Apply(sha, job, s, Turn(s.acked, n));
      && s'.phase == Stream(s.phase.next + n)
      && Payload(s'.wire) == Payload(s.wire) + job.src[s.phase.next..s.phase.next + n]
  {
    PayloadSnoc(s.wire, Chunk(job.tid, s.phase.next, job.src[s.phase.next..s.phase.next + n]));
  }

  lemma {:induction false} PayloadSnoc(q: seq<Msg>, m: Msg)
    requires m.Chunk?
    ensures Payload(q + [m]) == Payload(q) + m.data
  {
    if q != [] {
      assert (q + [m])[1..] == q[1..] + [m];
      PayloadSnoc(q[1..], m);
    }
  }

  /** Bytes to send, messages to handle and replies to handle, weighted so that
      every step that changes anything lowers the total. */
  function Measure(job: Job, s: Sys): int {
    3 * |s.wire| + 2 * |s.peer.out| +
    match s.phase
    case Await => 4 * |job.src| + 5
    case Stream(next) => 4 * (|job.src| - next) + 4
    case _ => 0
  }

  /** What the receiver holds once it has taken a fault-free offer. */
  lemma OfferAdopted(job: Job, disk: Disk, io: Io)
    requires disk.Valid() && Fine(job, Receive(io))
    ensures var peer := AfterOffer(Receiver(map[], disk, [], []), job.tid, job.name, |job.src|, io);
      && job.tid in peer.recvs && peer.recvs[job.tid].written <= |job.src|
      && peer.out == [Ack(job.tid, peer.recvs[job.tid].written)] && peer.recvs[job.tid].lastAck == peer.recvs[job.tid].written
      && OnTrack(job, Adopted(job, disk), peer.recvs[job.tid])
  {
    hide Sanitize, PartPath, AfterOffer;
    var m := Receiver(map[], disk, [], []);
    OfferAdopts(m, job.tid, job.name, |job.src|, io);
    var st := AfterOffer(m, job.tid, job.name, |job.src|, io).recvs[job.tid];
    assert st.absorbed == Adopted(job, disk) + job.src[st.written..st.written];
  }

  lemma OfferStartsStreaming(sha: Bytes -> Bytes, job: Job, disk: Disk, io: Io)
    requires disk.Valid() && Fine(job, Receive(io))
    ensures Streaming(sha, job, disk, Apply(sha, job, Init(job, disk), Receive(io)))
    ensures Measure(job, Apply(sha, job, Init(job, disk), Receive(io))) < Measure(job, Init(job, disk))
  {
    hide Sanitize, PartPath, AfterOffer, AfterChunk, AfterComplete, OnTrack;
    var s := Init(job, disk);
    var s' := Apply(sha, job, s, Receive(io));
    assert Offering(job, s);
    OfferLiesNow(sha, job, s, io, Fits);
    StepKeepsInv(sha, s.peer, Deliver(s.wire[0], io));
    OfferAdopted(job, disk, io);
    var st := s'.peer.recvs[job.tid];
    assert st.written == Head(job, s') by {
      assert s'.wire == [];
    }
    hide Live, LiesNow, Inv, Offering, Head, Adopted;
    assert Acks(job, s'.peer.out, 0, st.lastAck) by {
      TakenAcks(job, st, s'.peer.out);
    }
  }

  lemma TakenAcks(job: Job, st: Recv, out: seq<Msg>)
    requires out == [Ack(job.tid, st.written)] && st.lastAck == st.written
    ensures Acks(job, out, 0, st.lastAck)
  {
  }

  lemma BeginKeepsSteady(sha: Bytes -> Bytes, job: Job, disk: Disk, s: Sys)
    requires Steady(sha, job, disk, s) && Enabled(job, s, Begin)
    ensures var s' := Apply(sha, job, s, Begin);
            Steady(sha, job, disk, s') && Measure(job, s') < Measure(job, s)
  {
    hide Sanitize, PartPath, AfterOffer, AfterChunk, AfterComplete;
    SenderKeepsLive(sha, job, s, Begin);
    AcksBound(job, s.peer.out, s.acked, s.peer.recvs[job.tid].lastAck);
    assert forall m | m in s.wire :: false;
  }

  /** The chunks on the wire are those between the receiver's cursor and the sender's. */
  lemma SteadyCursors(sha: Bytes -> Bytes, job: Job, disk: Disk, s: Sys)
    requires Steady(sha, job, disk, s) && s.phase.Stream?
    ensures s.acked <= s.peer.recvs[job.tid].lastAck <= s.peer.recvs[job.tid].written <= s.phase.next <= |job.src|
    ensures s.phase.next == |job.src| && s.acked == |job.src| ==> s.wire == []
  {
    hide Sanitize, PartPath;
    AcksBound(job, s.peer.out, s.acked, s.peer.recvs[job.tid].lastAck);
    FlowPayload(sha, job, s.wire, Head(job, s), s.phase.next);
    if s.wire != [] {
      assert s.wire[0] in s.wire && s.wire[0].Chunk?;
    }
  }

  lemma TurnKeepsSteady(sha: Bytes -> Bytes, job: Job, disk: Disk, s: Sys, seen: nat, n: nat)
    requires Steady(sha, job, disk, s) && Enabled(job, s, Turn(seen, n))
    ensures var s' := Apply(sha, job, s, Turn(seen, n));
            Steady(sha, job, disk, s') && (s' == s || Measure(job, s') < Measure(job, s))
  {
    hide Sanitize, PartPath, AfterOffer, AfterChunk, AfterComplete;
    var s' := Apply(sha, job, s, Turn(seen, n));
    SenderKeepsLive(sha, job, s, Turn(seen, n));
    SteadyCursors(sha, job, disk, s);
    hide Flow, Live, OnTrack, Acks;
    if s' == s {
    } else {
      var m := s'.wire[|s.wire|];
      assert s'.wire == s.wire + [m] && (m.Complete? || m.Chunk?);
      assert m.Chunk? ==> (Ends(s'.wire) <==> Ends(s.wire));
      assert Head(job, s') == Head(job, s);
    }
  }

  lemma TurnKeepsStreaming(sha: Bytes -> Bytes, job: Job, disk: Disk, s: Sys, a: Action)
    requires Streaming(sha, job, disk, s) && Enabled(job, s, a) && (a.Turn? || a.Begin?)
    ensures var s' := Apply(sha, job, s, a);
            Streaming(sha, job, disk, s') && (s' == s || Measure(job, s') < Measure(job, s))
  {
    hide Sanitize, PartPath, Inv, AfterOffer, AfterChunk, AfterComplete, Lies;
    SenderKeepsLive(sha, job, s, a);
    LiesKept(sha, job, s, Apply(sha, job, s, a), Fits);
    hide Live, LiesNow, OnTrack, Acks;
    if a.Begin? {
      BeginKeepsSteady(sha, job, disk, s);
    } else {
      TurnKeepsSteady(sha, job, disk, s, a.seen, a.n);
    }
    hide Steady;
  }

  lemma ReplyKeepsSteady(sha: Bytes -> Bytes, job: Job, disk: Disk, s: Sys)
    requires Steady(sha, job, disk, s) && s.peer.out != []
    ensures Steady(sha, job, disk, Apply(sha, job, s, TakeReply))
  {
    hide Sanitize, PartPath, AfterOffer, AfterChunk, AfterComplete;
    ReplyKeepsLive(sha, job, s);
    if s.phase.Stream? {
      SteadyCursors(sha, job, disk, s);
    }
    AcksBound(job, s.peer.out[1..], s.peer.out[0].offset, s.peer.recvs[job.tid].lastAck);
  }

  lemma ReplyKeepsStreaming(sha: Bytes -> Bytes, job: Job, disk: Disk, s: Sys)
    requires Streaming(sha, job, disk, s) && s.peer.out != []
    ensures var s' := Apply(sha, job, s, TakeReply);
            Streaming(sha, job, disk, s') && Measure(job, s') < Measure(job, s)
  {
    hide Sanitize, PartPath, AfterOffer, AfterChunk, AfterComplete, Lies;
    ReplyKeepsSteady(sha, job, disk, s);
    ReplyKeepsLive(sha, job, s);
    LiesKept(sha, job, s, Apply(sha, job, s, TakeReply), Fits);
    hide Live, LiesNow, OnTrack, Acks, Paced;
  }

  /** A chunk at the cursor that reaches the disk, in full. */
  ghost predicate ChunkAccepted(m: Receiver, m': Receiver, tid: string, data: Bytes) {
    && tid in m.recvs && tid in m'.recvs
    && var st, st' := m.recvs[tid], m'.recvs[tid];
    && var acks := st.written + |data| - st.lastAck >= ACK_EVERY || st.written + |data| == st.size;
    && st'.written == st.written + |data| && st'.absorbed == st.absorbed + data
    && st'.lastAck == (if acks then st'.written else st.lastAck)
    && m'.out == (if acks then m.out + [Ack(tid, st'.written)] else m.out)
  }

  lemma ChunkAdvancesHead(sha: Bytes -> Bytes, job: Job, disk: Disk, s: Sys, peer: Receiver)
    requires Steady(sha, job, disk, s) && s.wire != [] && s.wire[0].Chunk?
    ensures var s' := s.(wire := s.wire[1..], peer := peer);
            s.phase.Stream? && !Ends(s'.wire) && Head(job, s') == Head(job, s) + |s.wire[0].data| <= |job.src|
  {
    hide Sanitize, PartPath;
    var rest := s.wire[1..];
    assert s.wire == [s.wire[0]] + rest;
    assert s.wire[0] in s.wire;
    assert Flow(sha, job, rest, Head(job, s) + |s.wire[0].data|, s.phase.next);
    assert rest != [] ==> rest[0] in s.wire;
  }

  lemma ChunkKeepsSteady(sha: Bytes -> Bytes, job: Job, disk: Disk, s: Sys, peer: Receiver, wrote: nat)
    requires Steady(sha, job, disk, s) && s.wire != [] && s.wire[0].Chunk?
    requires ChunkTaken(s.peer, peer, job.tid, s.wire[0].offset, s.wire[0].data, wrote)
    requires ChunkAccepted(s.peer, peer, job.tid, s.wire[0].data)
    ensures var s' := s.(wire := s.wire[1..], peer := peer);
            Steady(sha, job, disk, s') && Measure(job, s') < Measure(job, s)
  {
    hide Sanitize, PartPath;
    var st, st', data := s.peer.recvs[job.tid], peer.recvs[job.tid], s.wire[0].data;
    ChunkKeepsLive(sha, job, s, peer, wrote);
    ChunkAdvancesHead(sha, job, disk, s, peer);
    ChunkKeepsOnTrack(job, Adopted(job, disk), st, st', data);
    if peer.out != s.peer.out {
      AcksSnoc(job, s.peer.out, s.acked, st.lastAck, st'.written);
    }
  }

  lemma ChunkKeepsOnTrack(job: Job, adopted: Bytes, st: Recv, st': Recv, data: Bytes)
    requires OnTrack(job, adopted, st) && st.size == |job.src|
    requires st.written + |data| <= |job.src| && data == job.src[st.written..st.written + |data|]
    requires st'.written == st.written + |data| && st'.absorbed == st.absorbed + data
    requires st'.lastAck == if st'.written - st.lastAck >= ACK_EVERY || st'.written == st.size then st'.written else st.lastAck
    ensures OnTrack(job, adopted, st')
  {
    var k := |adopted|;
    Joined(job.src, k, st.written, st'.written);
    assert adopted + job.src[k..st.written] + data == adopted + (job.src[k..st.written] + data);
  }

  lemma ReceiveKeepsStreaming(sha: Bytes -> Bytes, job: Job, disk: Disk, s: Sys, io: Io)
    requires Streaming(sha, job, disk, s) && s.wire != [] && s.wire[0].Chunk? && Fine(job, Receive(io))
    ensures var s' := Apply(sha, job, s, Receive(io));
            Streaming(sha, job, disk, s') && Measure(job, s') < Measure(job, s)
  {
    hide Sanitize, PartPath, AfterOffer, AfterComplete, Disk.Write, Inv, Lies;
    var Chunk(tid, offset, data) := s.wire[0];
    var peer := AfterChunk(s.peer, tid, offset, data, io);
    StepKeepsInv(sha, s.peer, Deliver(s.wire[0], io));
    ChunkEffect(s.peer, tid, offset, data, io);
    assert ChunkAccepted(s.peer, peer, tid, data);
    hide AfterChunk, Flow;
    ChunkKeepsSteady(sha, job, disk, s, peer, io.wrote);
    ChunkKeepsLies(sha, job, s, io, Fits);
  }

  /** The digest is all that is left to handle. */
  ghost predicate Delivered(sha: Bytes -> Bytes, job: Job, disk: Disk, s: Sys) {
    && s.phase.Finished? && s.wire == [Complete(job.tid, sha(job.src))] && !Reported(job, s)
    && s.peer.recvs.Keys == {job.tid} && s.peer.disk.Valid()
    && var st := s.peer.recvs[job.tid];
    && Intact(s.peer.disk, st) && st.partPath == PartOf(job) && st.finalPath == FinalOf(job)
    && st.written == st.size
    && (st.absorbed == job.src <==> Adopted(job, disk) <= job.src)
    && (st.absorbed == job.src ==> s.peer.disk.Read(PartOf(job)) == job.src)
  }

  lemma FinishedIsDelivered(sha: Bytes -> Bytes, job: Job, disk: Disk, s: Sys)
    requires Streaming(sha, job, disk, s) && s.phase.Finished?
    ensures Delivered(sha, job, disk, s)
  {
    hide Sanitize, PartPath;
    var st := s.peer.recvs[job.tid];
    InvDisk(s.peer);
    AbsorbedIsSource(job, Adopted(job, disk), st);
    if st.absorbed == job.src {
      WholeFile(job.src, s.peer.disk.Read(PartOf(job)), st, Fits);
    }
  }

  lemma CompleteEndsStreaming(sha: Bytes -> Bytes, job: Job, disk: Disk, s: Sys, io: Io)
    requires NoSecondPreimage(sha, job.src)
    requires Streaming(sha, job, disk, s) && s.phase.Finished? && Fine(job, Receive(io))
    ensures var s' := Apply(sha, job, s, Receive(io));
            Ended(job, disk, s') && Measure(job, s') < Measure(job, s)
  {
    hide Sanitize, PartPath, AfterOffer, AfterChunk, AfterComplete, Streaming, Intact, Adopted;
    FinishedIsDelivered(sha, job, disk, s);
    CompleteOutcome(sha, s.peer, job.tid, sha(job.src), io);
    var events, events' := s.peer.events, Apply(sha, job, s, Receive(io)).peer.events;
    assert events'[..|events|] == events && events'[|events|] in events';
  }

  lemma AbsorbedIsSource(job: Job, adopted: Bytes, st: Recv)
    requires OnTrack(job, adopted, st) && st.written == |job.src|
    ensures st.absorbed == job.src <==> adopted <= job.src
  {
    assert st.absorbed == adopted + job.src[|adopted|..];
    assert job.src == job.src[..|adopted|] + job.src[|adopted|..];
    assert st.absorbed == job.src ==> adopted == job.src[..|adopted|];
  }

  /** A fault-free step keeps the transfer on track, and lowers the measure unless it
      changes nothing (a trip around a wait loop). */
  lemma StepProgresses(sha: Bytes -> Bytes, job: Job, disk: Disk, s: Sys, a: Action)
    requires NoSecondPreimage(sha, job.src) && disk.Valid()
    requires Good(sha, job, disk, s) && Enabled(job, s, a) && Fine(job, a)
    ensures var s' := Apply(sha, job, s, a);
            Good(sha, job, disk, s') && (s' == s || Measure(job, s') < Measure(job, s))
  {
    hide Sanitize, PartPath, AfterOffer, AfterChunk, AfterComplete;
    if s == Init(job, disk) {
      OfferStartsStreaming(sha, job, disk, a.io);
    } else if Streaming(sha, job, disk, s) {
      match a
      case TakeReply => ReplyKeepsStreaming(sha, job, disk, s);
      case Receive(io) =>
        if s.wire[0].Chunk? {
          ReceiveKeepsStreaming(sha, job, disk, s, io);
        } else {
          assert s.wire[0] in s.wire;
          CompleteEndsStreaming(sha, job, disk, s, io);
        }
      case _ => TurnKeepsStreaming(sha, job, disk, s, a);
    }
  }

  /** No deadlock: while the transfer has not ended, some fault-free step changes something. */
  lemma NeverStuck(sha: Bytes -> Bytes, job: Job, disk: Disk, s: Sys) returns (a: Action)
    requires Good(sha, job, disk, s) && !Ended(job, disk, s)
    ensures Enabled(job, s, a) && Fine(job, a) && Apply(sha, job, s, a) != s
  {
    hide Sanitize, PartPath, AfterOffer, AfterChunk, AfterComplete;
    if s.wire != [] {
      a := Receive(Works(|job.src|, |job.src|));
      assert |Apply(sha, job, s, a).wire| < |s.wire|;
    } else if s.peer.out != [] {
      a := TakeReply;
      assert |Apply(sha, job, s, a).peer.out| < |s.peer.out|;
    } else if s.phase.Await? {
      a := Begin;
    } else {
      a := Turn(s.acked, 1);
    }
  }

  /** How many steps of a run change the state. */
  function Changes(run: seq<Sys>): nat {
    if |run| < 2 then 0
    else Changes(run[..|run| - 1]) + if run[|run| - 1] != run[|run| - 2] then 1 else 0
  }

  lemma {:induction false} RunProgresses(sha: Bytes -> Bytes, job: Job, disk: Disk, run: seq<Sys>, acts: seq<Action>)
    requires NoSecondPreimage(sha, job.src) && disk.Valid()
    requires IsRun(sha, job, disk, run, acts) && forall a | a in acts :: Fine(job, a)
    ensures Good(sha, job, disk, run[|acts|])
    ensures Changes(run) + Measure(job, run[|acts|]) <= 4 * |job.src| + 8
  {
    hide Sanitize, PartPath, AfterOffer, AfterChunk, AfterComplete;
    if acts != [] {
      var k := |acts| - 1;
      RunProgresses(sha, job, disk, run[..k + 1], acts[..k]);
      assert acts[k] in acts && Enabled(job, run[k], acts[k]);
      StepProgresses(sha, job, disk, run[k], acts[k]);
    }
  }

  /** Every fault-free run ends: it changes the state at most 4 * size + 8 times, and
      where nothing can change any more the sender has finished and the receiver has
      the source, if what it adopted was a prefix of it, or has failed and deleted
      the `.part`, if not. */
  lemma EveryRunEnds(sha: Bytes -> Bytes, job: Job, disk: Disk, run: seq<Sys>, acts: seq<Action>)
    requires NoSecondPreimage(sha, job.src) && disk.Valid()
    requires IsRun(sha, job, disk, run, acts) && forall a | a in acts :: Fine(job, a)
    ensures Changes(run) <= 4 * |job.src| + 8
    ensures var s := run[|acts|];
      (forall a | Enabled(job, s, a) && Fine(job, a) :: Apply(sha, job, s, a) == s) ==> Ended(job, disk, s)
  {
    hide Sanitize, PartPath, AfterOffer, AfterChunk, AfterComplete;
    RunProgresses(sha, job, disk, run, acts);
    var s := run[|acts|];
    if s.phase.Stream? && Streaming(sha, job, disk, s) {
      FlowPayload(sha, job, s.wire, Head(job, s), s.phase.next);
    }
    if !Ended(job, disk, s) {
      var a := NeverStuck(sha, job, disk, s);
    }
  }
}
