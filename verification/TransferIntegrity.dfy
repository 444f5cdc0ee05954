/**
 What a receiver guarantees against ANY peer: over every sequence of messages,
 restarts and I/O results, as long as live transfers do not share paths, a
 transfer is reported complete only with the bytes it received. The path
 condition is shown to be exact.
 */
module TransferIntegrity {
  import opened Prelude
  import opened FileXfer

  /** One thing that happens to a receiver: a message is handled, or the process
      restarts and only the disk survives. */
  datatype Input = Deliver(msg: Msg, io: Io) | Restart

  function Step(sha: Bytes -> Bytes, m: Receiver, i: Input): Receiver {
    match i
    case Deliver(msg, io) => Handle(sha, m, msg, io)
    case Restart => Receiver(map[], m.disk, [], [])
  }

  function Run(sha: Bytes -> Bytes, m: Receiver, ins: seq<Input>): Receiver {
    if ins == [] then m
    else Step(sha, Run(sha, m, ins[..|ins| - 1]), ins[|ins| - 1])
  }

  // ---------------------------------------------------------------- invariant

  /** The handle is still where its path says, with its cursor within the file. If the
      cursor was put where it belongs, then unless a read or a write has fallen short
      it stands where the absorbed bytes end, and the file begins with them. If not, the
      file stays too short for what is written from its start. */
  ghost predicate Intact(d: Disk, st: Recv) {
    && d.Has(st.partPath) && d.names[st.partPath] == st.file
    && st.pos <= |d.data[st.file]|
    && st.partPath != st.finalPath
    && |st.absorbed| <= st.written
    && st.lastAck <= st.written
    && if st.skew == 0 then PlacedWell(d.data[st.file], st) else PlacedAtStart(d.data[st.file], st)
  }

  ghost predicate PlacedWell(data: Bytes, st: Recv)
    requires st.pos <= |data|
  {
    st.written <= st.pos && (|st.absorbed| == st.pos ==> data[..st.pos] == st.absorbed)
  }

  ghost predicate PlacedAtStart(data: Bytes, st: Recv) {
    && st.skew <= st.written <= st.pos + st.skew
    && st.skew <= |data| && (st.skew < st.size ==> |data| == if st.pos > st.skew then st.pos else st.skew)
    && (st.pos == 0 && |st.absorbed| == st.skew ==> data[..st.skew] == st.absorbed)
  }

  /** Same `.part`, or one transfer's final path is the other's `.part`. */
  predicate Clash(name1: string, name2: string) {
    || PartPath(name1) == PartPath(name2)
    || Sanitize(name1) == PartPath(name2)
    || Sanitize(name2) == PartPath(name1)
  }

  predicate PathsClash(a: Recv, partPath: string, finalPath: string) {
    a.partPath == partPath || a.finalPath == partPath || finalPath == a.partPath
  }

  ghost predicate Inv(m: Receiver) {
    && m.disk.Valid()
    && (forall t | t in m.recvs :: Intact(m.disk, m.recvs[t]))
    && (forall t, u | t in m.recvs && u in m.recvs && t != u ::
          !PathsClash(m.recvs[t], m.recvs[u].partPath, m.recvs[u].finalPath))
  }

  /** An offer may not clash with another live transfer; nothing else is asked. */
  ghost predicate Admissible(m: Receiver, i: Input) {
    i.Deliver? && i.msg.Offer? ==>
      forall t | t in m.recvs && t != i.msg.tid ::
        !PathsClash(m.recvs[t], PartPath(i.msg.name), Sanitize(i.msg.name))
  }

  ghost predicate ClashFree(sha: Bytes -> Bytes, m: Receiver, ins: seq<Input>) {
    ins != [] ==>
      && ClashFree(sha, m, ins[..|ins| - 1])
      && Admissible(Run(sha, m, ins[..|ins| - 1]), ins[|ins| - 1])
  }

  /** One transfer changes, the others' files do not. */
  lemma ReplaceKeepsInv(m: Receiver, m': Receiver, tid: string, st: Recv)
    requires Inv(m) && m'.disk.Valid()
    requires m'.recvs == m.recvs[tid := st] && Intact(m'.disk, st)
    requires forall t | t in m.recvs && t != tid ::
      Same(m.disk, m'.disk, m.recvs[t].partPath) && !PathsClash(m.recvs[t], st.partPath, st.finalPath)
    ensures Inv(m')
  {
    forall t | t in m'.recvs ensures Intact(m'.disk, m'.recvs[t]) {
      if t != tid {
        assert Intact(m.disk, m.recvs[t]);
      }
    }
  }

  /** One transfer ends, the others' files do not change. */
  lemma ForgetKeepsInv(m: Receiver, m': Receiver, tid: string)
    requires Inv(m) && m'.disk.Valid() && m'.recvs == m.recvs - {tid}
    requires forall t | t in m.recvs && t != tid :: Same(m.disk, m'.disk, m.recvs[t].partPath)
    ensures Inv(m')
  {
    forall t | t in m'.recvs ensures Intact(m'.disk, m'.recvs[t]) {
      assert Intact(m.disk, m.recvs[t]);
    }
  }

  /** An accepted offer resumes at the leftover's length, cuts off what is beyond the
      offered size and starts there, as far as the disk obeys. */
  lemma OfferAdopts(m: Receiver, tid: string, name: string, size: nat, io: Io)
    requires m.disk.Valid() && io.mkdir && io.open
    ensures
      var part, leftover := PartPath(name), m.disk.Read(PartPath(name));
      var resume, m' := if io.stat then Min(|leftover|, size) else 0, AfterOffer(m, tid, name, size, io);
      && m'.disk.Valid() && (forall q | q != part :: Same(m.disk, m'.disk, q))
      && m'.disk.Has(part) && m'.disk.Read(part) == (if io.cut then leftover[..resume] else leftover)
      && (m.disk.Has(part) ==> m'.disk.names[part] == m.disk.names[part])
      && m'.recvs == m.recvs[tid := Recv(m'.disk.names[part], if io.seek then resume else 0, part, Sanitize(name), resume,
                                         size, resume, leftover[..Min(resume, io.readable)], if io.seek then 0 else resume)]
      && m'.out == m.out + [Ack(tid, resume)] && m'.events == m.events + [Offered(tid, name, size)]
  {
    hide Disk.Open, Disk.SetLen, Sanitize, PartPath;
    OpenShortened(m.disk, PartPath(name), Resume(m.disk.Read(PartPath(name)), size, io), io.cut);
  }

  /** How a transfer ends when its digest arrives. */
  lemma CompleteOutcome(sha: Bytes -> Bytes, m: Receiver, tid: string, digest: Bytes, io: Io)
    requires tid in m.recvs && m.disk.Valid() && Intact(m.disk, m.recvs[tid])
    ensures
      var st, m' := m.recvs[tid], AfterComplete(sha, m, tid, digest, io);
      && m'.recvs == m.recvs - {tid} && m'.out == m.out && m'.disk.Valid()
      && (forall q | q != st.partPath && q != st.finalPath :: Same(m.disk, m'.disk, q))
      && if st.written == st.size && sha(st.absorbed) == digest && io.rename then
           && m'.events == m.events + [Completed(tid, st.finalPath)]
           && m'.disk.Has(st.finalPath) && m'.disk.Read(st.finalPath) == m.disk.Read(st.partPath)
           && !m'.disk.Has(st.partPath)
         else
           && Same(m.disk, m'.disk, st.finalPath)
           && if st.written != st.size then
                m'.events == m.events + [Failed(tid, "short transfer")] && !m'.disk.Has(st.partPath)
              else if sha(st.absorbed) != digest then
                m'.events == m.events + [Failed(tid, "integrity check failed")] && !m'.disk.Has(st.partPath)
              else
                m'.events == m.events + [Failed(tid, "finalize")] && m'.disk == m.disk
  {
    hide Disk.Remove, Disk.Rename;
    var st, m' := m.recvs[tid], AfterComplete(sha, m, tid, digest, io);
    RemoveForgets(m.disk, st.partPath);
    RenameMoves(m.disk, st.partPath, st.finalPath);
  }

  /** Where an offer of a plain name is written and ends up, whatever folder and dots it
      comes with. */
  lemma OfferedPaths(m: Receiver, tid: string, name: string, size: nat, io: Io,
      folder: string, before: string, base: string, after: string)
    requires m.disk.Valid() && io.mkdir && io.open && IsOffered(name, folder, before, base, after)
    ensures var m' := AfterOffer(m, tid, name, size, io);
      tid in m'.recvs && m'.recvs[tid].finalPath == base && m'.recvs[tid].partPath == base + ".part"
  {
    hide AfterOffer;
    SanitizeKeepsPlain(folder, before, base, after);
    OfferAdopts(m, tid, name, size, io);
  }

  lemma OfferRefused(m: Receiver, tid: string, name: string, size: nat, io: Io)
    requires !(io.mkdir && io.open)
    ensures AfterOffer(m, tid, name, size, io) ==
      m.(events := m.events + [Failed(tid, if io.mkdir then "open .part" else "mkdir")])
  {
  }

  lemma OfferKeepsInv(m: Receiver, tid: string, name: string, size: nat, io: Io)
    requires Inv(m) && io.mkdir && io.open
    requires forall t | t in m.recvs && t != tid :: !PathsClash(m.recvs[t], PartPath(name), Sanitize(name))
    ensures Inv(AfterOffer(m, tid, name, size, io))
  {
    hide AfterOffer, Sanitize, PartPath;
    PartIsNotFinal(name);
    OfferAdopts(m, tid, name, size, io);
    var m' := AfterOffer(m, tid, name, size, io);
    ReplaceKeepsInv(m, m', tid, m'.recvs[tid]);
  }

  /** A chunk at the cursor is written to the `.part` there, as far as the disk takes it. */
  lemma ChunkWrites(m: Receiver, tid: string, data: Bytes, io: Io)
    requires tid in m.recvs && m.disk.Valid() && Intact(m.disk, m.recvs[tid])
    ensures
      var st, wrote := m.recvs[tid], Min(io.wrote, |data|);
      var m' := AfterChunk(m, tid, st.written, data, io);
      && m'.disk.Valid() && (forall q | q != st.partPath :: Same(m.disk, m'.disk, q))
      && m'.disk.Has(st.partPath) && m'.disk.names[st.partPath] == st.file
      && m'.disk.Read(st.partPath) == Overwrite(m.disk.Read(st.partPath), st.pos, data[..wrote])
      && tid in m'.recvs && m'.recvs == m.recvs[tid := m'.recvs[tid]]
      && m'.recvs[tid] == (
           if wrote < |data| then st.(pos := st.pos + wrote)
           else st.(pos := st.pos + wrote, written := st.written + |data|, absorbed := st.absorbed + data,
                    lastAck := m'.recvs[tid].lastAck))
      && m'.recvs[tid].lastAck <= m'.recvs[tid].written
  {
    hide Disk.Write, Overwrite;
    WriteChanges(m.disk, m.recvs[tid].partPath, m.recvs[tid].pos, data[..Min(io.wrote, |data|)]);
  }

  lemma ChunkKeepsInv(m: Receiver, tid: string, offset: nat, data: Bytes, io: Io)
    requires Inv(m)
    ensures Inv(AfterChunk(m, tid, offset, data, io))
  {
    if tid in m.recvs && offset == m.recvs[tid].written {
      hide AfterChunk, Overwrite;
      ChunkWrites(m, tid, data, io);
      var m' := AfterChunk(m, tid, offset, data, io);
      WriteKeepsIntact(m.disk, m'.disk, m.recvs[tid], m'.recvs[tid], data, Min(io.wrote, |data|));
      hide Intact;
      ReplaceKeepsInv(m, m', tid, m'.recvs[tid]);
    }
  }

  lemma WriteKeepsIntact(d: Disk, d': Disk, st: Recv, st': Recv, data: Bytes, wrote: nat)
    requires Intact(d, st) && wrote <= |data|
    requires d'.Has(st.partPath) && d'.names[st.partPath] == st.file
    requires d'.Read(st.partPath) == Overwrite(d.Read(st.partPath), st.pos, data[..wrote])
    requires st' == if wrote < |data| then st.(pos := st.pos + wrote)
                    else st.(pos := st.pos + wrote, written := st.written + |data|,
                             absorbed := st.absorbed + data, lastAck := st'.lastAck)
    requires st'.lastAck <= st'.written
    ensures Intact(d', st')
  {
    hide Overwrite;
    OverwriteShape(d.Read(st.partPath), st.pos, data[..wrote]);
    assert data[..|data|] == data;
    assert wrote == 0 ==> data[..wrote] == [];
  }

  lemma CompleteKeepsInv(sha: Bytes -> Bytes, m: Receiver, tid: string, digest: Bytes, io: Io)
    requires Inv(m)
    ensures Inv(AfterComplete(sha, m, tid, digest, io))
  {
    if tid in m.recvs {
      hide AfterComplete;
      CompleteOutcome(sha, m, tid, digest, io);
      ForgetKeepsInv(m, AfterComplete(sha, m, tid, digest, io), tid);
    }
  }

  /** Every input keeps the invariant. */
  lemma StepKeepsInv(sha: Bytes -> Bytes, m: Receiver, i: Input)
    requires Inv(m) && Admissible(m, i)
    ensures Inv(Step(sha, m, i))
  {
    hide Sanitize, PartPath;
    hide AfterOffer, AfterChunk, AfterComplete;
    match i
    case Restart =>
    case Deliver(msg, io) =>
      match msg
      case Offer(tid, name, size) =>
        if io.mkdir && io.open {
          OfferKeepsInv(m, tid, name, size, io);
        } else {
          OfferRefused(m, tid, name, size, io);
        }
      case Chunk(tid, offset, data) => ChunkKeepsInv(m, tid, offset, data, io);
      case Complete(tid, digest) => CompleteKeepsInv(sha, m, tid, digest, io);
      case Ack(_, _) =>
      case Cancel(tid, reason) => ForgetKeepsInv(m, AfterCancel(m, tid, reason), tid);
  }

  lemma {:induction false} RunKeepsInv(sha: Bytes -> Bytes, m: Receiver, ins: seq<Input>)
    requires Inv(m) && ClashFree(sha, m, ins)
    ensures Inv(Run(sha, m, ins))
  {
    if ins != [] {
      RunKeepsInv(sha, m, ins[..|ins| - 1]);
      StepKeepsInv(sha, Run(sha, m, ins[..|ins| - 1]), ins[|ins| - 1]);
    }
  }

  // ---------------------------------------------------------------- integrity

  /** Handling Complete reports the transfer, rather than failing or ignoring it. */
  ghost predicate Completes(sha: Bytes -> Bytes, m: Receiver, tid: string, digest: Bytes, io: Io) {
    tid in m.recvs &&
    AfterComplete(sha, m, tid, digest, io).events == m.events + [Completed(tid, m.recvs[tid].finalPath)]
  }

  lemma CompletesWhen(sha: Bytes -> Bytes, m: Receiver, tid: string, digest: Bytes, io: Io)
    requires tid in m.recvs
    ensures
      var st, m' := m.recvs[tid], AfterComplete(sha, m, tid, digest, io);
      Completes(sha, m, tid, digest, io) <==>
      st.written == st.size && sha(st.absorbed) == digest && io.rename && st.partPath in m.disk.names
  {
    var st, m' := m.recvs[tid], AfterComplete(sha, m, tid, digest, io);
    assert m'.events[|m.events|].Completed? <==>
           st.written == st.size && sha(st.absorbed) == digest && io.rename && st.partPath in m.disk.names;
  }

  ghost predicate NoSecondPreimage(sha: Bytes -> Bytes, src: Bytes) {
    forall x :: sha(x) == sha(src) ==> x == src
  }

  /** Whatever a peer sends, however messages and restarts interleave, and whatever I/O
      fails, unless the seek after an offer and another read or write of the same transfer
      do: a transfer that is reported complete against the digest of `src` is byte-equal to
      `src` if and only if, before the digest arrived, the offered size was the source's and
      the `.part` was as long as the count of bytes written. The code checks neither. */
  lemma CompletedMeansReceived(sha: Bytes -> Bytes, disk: Disk, ins: seq<Input>, src: Bytes, tid: string, io: Io)
    requires disk.Valid() && NoSecondPreimage(sha, src)
    requires ClashFree(sha, Receiver(map[], disk, [], []), ins)
    requires Completes(sha, Run(sha, Receiver(map[], disk, [], []), ins), tid, sha(src), io)
    requires var st := Run(sha, Receiver(map[], disk, [], []), ins).recvs[tid];
      st.skew == 0 || (st.pos + st.skew == st.written && st.written == |st.absorbed|)
    ensures
      var m := Run(sha, Receiver(map[], disk, [], []), ins);
      var st := m.recvs[tid];
      AfterComplete(sha, m, tid, sha(src), io).disk.Read(st.finalPath) == src <==>
      st.size == |src| && |m.disk.Read(st.partPath)| == st.written
  {
    hide Run, ClashFree;
    var m := Run(sha, Receiver(map[], disk, [], []), ins);
    RunKeepsInv(sha, Receiver(map[], disk, [], []), ins);
    CompletesWhen(sha, m, tid, sha(src), io);
    assert Intact(m.disk, m.recvs[tid]);
    CompleteOutcome(sha, m, tid, sha(src), io);
    hide AfterComplete;
    PartIsSource(m.disk.Read(m.recvs[tid].partPath), m.recvs[tid], src);
  }

  lemma PartIsSource(data: Bytes, st: Recv, src: Bytes)
    requires st.written == st.size && st.absorbed == src && st.pos <= |data| && |src| <= st.written
    requires if st.skew == 0 then PlacedWell(data, st)
             else PlacedAtStart(data, st) && st.pos + st.skew == st.written && st.written == |src|
    ensures data == src <==> st.size == |src| && |data| == st.written
  {
    assert data[..|data|] == data;
  }

  const NOWHERE: Receiver := Receiver(map[], Disk(map[], map[], 0), [], [])

  /** All that is checked when a digest arrives. */
  lemma Accepted(sha: Bytes -> Bytes, m: Receiver, tid: string, src: Bytes, io: Io)
    requires tid in m.recvs && m.disk.Valid() && Intact(m.disk, m.recvs[tid]) && io.rename
    requires m.recvs[tid].written == m.recvs[tid].size && m.recvs[tid].absorbed == src
    ensures Completes(sha, m, tid, sha(src), io)
    ensures AfterComplete(sha, m, tid, sha(src), io).disk.Read(m.recvs[tid].finalPath) == m.disk.Read(m.recvs[tid].partPath)
  {
    CompletesWhen(sha, m, tid, sha(src), io);
    CompleteOutcome(sha, m, tid, sha(src), io);
    hide AfterComplete;
  }

  /** The same chunk twice, the first time not all of it written. */
  lemma RetriedChunk(m: Receiver, tid: string, data: Bytes, short: Io, io: Io)
    requires tid in m.recvs && m.disk.Valid() && Intact(m.disk, m.recvs[tid]) && short.wrote < |data| <= io.wrote
    ensures
      var st := m.recvs[tid];
      var m' := AfterChunk(AfterChunk(m, tid, st.written, data, short), tid, st.written, data, io);
      && m'.disk.Valid() && tid in m'.recvs && Intact(m'.disk, m'.recvs[tid])
      && m'.disk.Read(st.partPath) ==
           Overwrite(Overwrite(m.disk.Read(st.partPath), st.pos, data[..short.wrote]), st.pos + short.wrote, data)
      && m'.recvs[tid] == st.(pos := st.pos + short.wrote + |data|, written := st.written + |data|,
                              absorbed := st.absorbed + data, lastAck := m'.recvs[tid].lastAck)
  {
    var st := m.recvs[tid];
    var m1 := AfterChunk(m, tid, st.written, data, short);
    hide AfterChunk, Overwrite;
    ChunkWrites(m, tid, data, short);
    WriteKeepsIntact(m.disk, m1.disk, st, m1.recvs[tid], data, short.wrote);
    ChunkWrites(m1, tid, data, io);
    assert data[..|data|] == data;
    WriteKeepsIntact(m1.disk, AfterChunk(m1, tid, st.written, data, io).disk, m1.recvs[tid],
                     AfterChunk(m1, tid, st.written, data, io).recvs[tid], data, |data|);
  }

  lemma OfferedNowhere(tid: string, size: nat, io: Io)
    requires io.mkdir && io.open && io.cut && io.seek
    ensures var m := AfterOffer(NOWHERE, tid, "a", size, io);
      && m.disk.Valid() && tid in m.recvs && Intact(m.disk, m.recvs[tid])
      && var st := m.recvs[tid];
      && m.disk.Read(st.partPath) == [] == st.absorbed && st.pos == st.written == st.skew == 0 && st.size == size
  {
    hide Sanitize, PartPath, AfterOffer;
    OfferAdopts(NOWHERE, tid, "a", size, io);
    PartIsNotFinal("a");
  }

  lemma RetriedBytes(was: Bytes, x: Byte, y: Byte)
    requires |was| <= 1
    ensures Overwrite(Overwrite(was, 0, [x]), 1, [x, y]) == [x, x, y]
  {
  }

  /** A peer that sends the same chunk again after a short write: the receiver has kept
      the transfer and the moved cursor, and completes with a byte too many. */
  lemma ShortWriteBreaks(sha: Bytes -> Bytes, tid: string)
    ensures
      var ins := [Deliver(Offer(tid, "a", 2), Works(2, 2)), Deliver(Chunk(tid, 0, [1, 2]), Works(2, 1)),
                  Deliver(Chunk(tid, 0, [1, 2]), Works(2, 2))];
      var m := Run(sha, NOWHERE, ins);
      && ClashFree(sha, NOWHERE, ins) && Completes(sha, m, tid, sha([1, 2]), Works(2, 2))
      && AfterComplete(sha, m, tid, sha([1, 2]), Works(2, 2)).disk.Read(m.recvs[tid].finalPath) == [1, 1, 2]
  {
    var data: Bytes := [1, 2];
    hide Sanitize, PartPath, AfterOffer, AfterChunk, AfterComplete, Overwrite;
    var o, c1, c2 := Deliver(Offer(tid, "a", 2), Works(2, 2)), Deliver(Chunk(tid, 0, data), Works(2, 1)),
      Deliver(Chunk(tid, 0, data), Works(2, 2));
    var m1 := AfterOffer(NOWHERE, tid, "a", 2, Works(2, 2));
    OfferedNowhere(tid, 2, Works(2, 2));
    hide Intact;
    var m3 := AfterChunk(AfterChunk(m1, tid, 0, data, Works(2, 1)), tid, 0, data, Works(2, 2));
    RetriedChunk(m1, tid, data, Works(2, 1), Works(2, 2));
    assert data[..1] == [1];
    RetriedBytes([], 1, 2);
    RunThree(sha, NOWHERE, o, c1, c2);
    Accepted(sha, m3, tid, data, Works(2, 2));
  }

  /** A disk on which an earlier attempt at "a" has left some bytes. */
  function Left(bytes: Bytes): Receiver {
    Receiver(map[], Disk(map[PartPath("a") := 0], map[0 := bytes], 1), [], [])
  }

  /** A `.part` that is not shortened: an empty file is completed with the byte left over. */
  lemma IgnoredShorteningBreaks(sha: Bytes -> Bytes, tid: string, io: Io)
    requires io == Works(0, 0).(cut := false)
    ensures
      var m := Step(sha, Left([7]), Deliver(Offer(tid, "a", 0), io));
      && Completes(sha, m, tid, sha([]), io)
      && AfterComplete(sha, m, tid, sha([]), io).disk.Read(m.recvs[tid].finalPath) == [7]
  {
    hide Sanitize, PartPath, AfterOffer, AfterComplete;
    var m := AfterOffer(Left([7]), tid, "a", 0, io);
    OfferAdopts(Left([7]), tid, "a", 0, io);
    PartIsNotFinal("a");
    Accepted(sha, m, tid, [], io);
  }

  /** A cursor that is not moved: resuming after the first byte of [1, 2] overwrites it. */
  lemma IgnoredSeekBreaks(sha: Bytes -> Bytes, tid: string, io: Io)
    requires io == Works(1, 1).(seek := false)
    ensures
      var m := Step(sha, Step(sha, Left([1]), Deliver(Offer(tid, "a", 2), io)), Deliver(Chunk(tid, 1, [2]), io));
      && Completes(sha, m, tid, sha([1, 2]), io)
      && AfterComplete(sha, m, tid, sha([1, 2]), io).disk.Read(m.recvs[tid].finalPath) == [2]
  {
    hide Sanitize, PartPath, AfterOffer, AfterChunk, AfterComplete;
    var one: Bytes := [1];
    var m1 := AfterOffer(Left(one), tid, "a", 2, io);
    OfferAdopts(Left(one), tid, "a", 2, io);
    PartIsNotFinal("a");
    assert one[..1] == one;
    var m2 := AfterChunk(m1, tid, 1, [2], io);
    assert Intact(m1.disk, m1.recvs[tid]);
    ChunkWrites(m1, tid, [2], io);
    assert m2.disk.Read(m2.recvs[tid].partPath) == [2] && m2.recvs[tid].absorbed == [1, 2];
    Accepted(sha, m2, tid, [1, 2], io);
  }

  /** Where the seek has failed and a write falls short as well, no count decides: after one
      byte `b` is resumed and the chunk [2, 3] sent twice, the lengths are as they should be,
      and the file is [2, 2, 3] against the digest of [b, 2, 3]. */
  lemma BytesDecide(sha: Bytes -> Bytes, tid: string, b: Byte, io: Io)
    requires io == Works(1, 2).(seek := false)
    ensures
      var ins := [Deliver(Offer(tid, "a", 3), io), Deliver(Chunk(tid, 1, [2, 3]), io.(wrote := 1)), Deliver(Chunk(tid, 1, [2, 3]), io)];
      var m := Run(sha, Left([b]), ins);
      && ClashFree(sha, Left([b]), ins) && Completes(sha, m, tid, sha([b, 2, 3]), io)
      && |m.disk.Read(m.recvs[tid].partPath)| == m.recvs[tid].written == m.recvs[tid].size == m.recvs[tid].pos == 3
      && AfterComplete(sha, m, tid, sha([b, 2, 3]), io).disk.Read(m.recvs[tid].finalPath) == [2, 2, 3]
  {
    hide Sanitize, PartPath, AfterOffer, AfterChunk, AfterComplete, Overwrite;
    var one: Bytes, more: Bytes := [b], [2, 3];
    var o, c1, c2 := Deliver(Offer(tid, "a", 3), io), Deliver(Chunk(tid, 1, more), io.(wrote := 1)), Deliver(Chunk(tid, 1, more), io);
    var m1 := AfterOffer(Left(one), tid, "a", 3, io);
    OfferAdopts(Left(one), tid, "a", 3, io);
    PartIsNotFinal("a");
    assert one[..1] == one;
    assert Intact(m1.disk, m1.recvs[tid]);
    var m3 := AfterChunk(AfterChunk(m1, tid, 1, more, io.(wrote := 1)), tid, 1, more, io);
    RetriedChunk(m1, tid, more, io.(wrote := 1), io);
    assert more[..1] == [2];
    RetriedBytes(one, 2, 3);
    hide Intact;
    RunThree(sha, Left(one), o, c1, c2);
    Accepted(sha, m3, tid, [b, 2, 3], io);
  }

  lemma RunThree(sha: Bytes -> Bytes, m: Receiver, a: Input, b: Input, c: Input)
    ensures Run(sha, m, [a, b, c]) == Step(sha, Step(sha, Step(sha, m, a), b), c)
    ensures ClashFree(sha, m, [a, b, c]) <==>
      Admissible(m, a) && Admissible(Step(sha, m, a), b) && Admissible(Step(sha, Step(sha, m, a), b), c)
  {
    hide Step, Admissible;
    var one, two, three := [a], [a, b], [a, b, c];
    assert one[..0] == [] && two[..1] == one && three[..2] == two;
    assert Run(sha, m, one) == Step(sha, m, a);
    assert Run(sha, m, two) == Step(sha, Step(sha, m, a), b);
    assert ClashFree(sha, m, one) <==> Admissible(m, a);
    assert ClashFree(sha, m, two) <==> Admissible(m, a) && Admissible(Step(sha, m, a), b);
  }

  // ---------------------------------------------------------------- without I/O faults

  ghost predicate FaultFree(i: Input) {
    i.Deliver? ==>
      match i.msg
      case Offer(_, _, size) => i.io.readable >= size && i.io.cut && i.io.seek
      case Chunk(_, _, data) => i.io.wrote >= |data|
      case _ => true
  }

  /** The rolling hasher has absorbed exactly the file, which is `written` long. */
  ghost predicate Exact(m: Receiver) {
    Inv(m) && forall t | t in m.recvs ::
      var st := m.recvs[t];
      st.skew == 0 && |st.absorbed| == st.written == st.pos == |m.disk.Read(st.partPath)|
  }

  /** What one input does to the table of live transfers, disk aside: at most the
      transfer it names changes, and keeps its paths unless it is offered afresh. */
  lemma StepOnTable(sha: Bytes -> Bytes, m: Receiver, i: Input)
    requires i.Deliver?
    ensures
      var recvs, recvs' := m.recvs, Step(sha, m, i).recvs;
      match i.msg
      case Offer(tid, name, size) =>
        recvs' == recvs ||
        (tid in recvs' && recvs' == recvs[tid := recvs'[tid]] &&
         recvs'[tid].partPath == PartPath(name) && recvs'[tid].finalPath == Sanitize(name) &&
         recvs'[tid].size == size && recvs'[tid].written <= size)
      case Chunk(tid, _, data) =>
        recvs' == recvs ||
        (tid in recvs && tid in recvs' && recvs' == recvs[tid := recvs'[tid]] &&
         recvs'[tid].partPath == recvs[tid].partPath && recvs'[tid].finalPath == recvs[tid].finalPath &&
         (i.io.wrote >= |data| ==>
            recvs'[tid].written == recvs[tid].written + |data| && recvs'[tid].pos == recvs[tid].pos + |data| &&
            recvs'[tid].absorbed == recvs[tid].absorbed + data))
      case Ack(_, _) => recvs' == recvs
      case Complete(tid, _) => recvs' == recvs - {tid}
      case Cancel(tid, _) => recvs' == recvs - {tid}
  {
    hide Sanitize, PartPath;
  }

  /** One transfer changes and stays exact, the others' files do not change. */
  lemma ReplaceKeepsExact(m: Receiver, m': Receiver, tid: string)
    requires Exact(m) && Inv(m') && tid in m'.recvs && m'.recvs == m.recvs[tid := m'.recvs[tid]]
    requires forall q | q != m'.recvs[tid].partPath :: Same(m.disk, m'.disk, q)
    requires var st := m'.recvs[tid]; st.skew == 0 && |st.absorbed| == st.written == st.pos == |m'.disk.Read(st.partPath)|
    ensures Exact(m')
  {
    hide Intact;
    forall t | t in m.recvs && t != tid ensures Same(m.disk, m'.disk, m.recvs[t].partPath) {
      assert t in m'.recvs && !PathsClash(m'.recvs[t], m'.recvs[tid].partPath, m'.recvs[tid].finalPath);
    }
  }

  lemma OfferKeepsExact(m: Receiver, tid: string, name: string, size: nat, io: Io)
    requires Exact(m) && Inv(AfterOffer(m, tid, name, size, io)) && io.readable >= size && io.cut && io.seek
    ensures Exact(AfterOffer(m, tid, name, size, io))
  {
    hide AfterOffer, Sanitize, PartPath, Inv;
    if io.mkdir && io.open {
      InvDisk(m);
      OfferAdopts(m, tid, name, size, io);
      ReplaceKeepsExact(m, AfterOffer(m, tid, name, size, io), tid);
    } else {
      OfferRefused(m, tid, name, size, io);
    }
  }

  lemma InvDisk(m: Receiver)
    requires Inv(m)
    ensures m.disk.Valid() && forall t | t in m.recvs :: Intact(m.disk, m.recvs[t])
  {
  }

  lemma ChunkKeepsExact(m: Receiver, tid: string, offset: nat, data: Bytes, io: Io)
    requires Exact(m) && Inv(AfterChunk(m, tid, offset, data, io)) && io.wrote >= |data|
    ensures Exact(AfterChunk(m, tid, offset, data, io))
  {
    hide Inv;
    if tid in m.recvs && offset == m.recvs[tid].written {
      InvDisk(m);
      hide AfterChunk, Overwrite;
      ChunkWrites(m, tid, data, io);
      OverwriteShape(m.disk.Read(m.recvs[tid].partPath), m.recvs[tid].pos, data);
      assert data[..|data|] == data;
      ReplaceKeepsExact(m, AfterChunk(m, tid, offset, data, io), tid);
    }
  }

  lemma CompleteKeepsExact(sha: Bytes -> Bytes, m: Receiver, tid: string, digest: Bytes, io: Io)
    requires Exact(m) && Inv(AfterComplete(sha, m, tid, digest, io))
    ensures Exact(AfterComplete(sha, m, tid, digest, io))
  {
    if tid in m.recvs {
      hide AfterComplete;
      CompleteOutcome(sha, m, tid, digest, io);
      hide Intact;
      var m' := AfterComplete(sha, m, tid, digest, io);
      forall t | t in m'.recvs ensures Same(m.disk, m'.disk, m.recvs[t].partPath) {
        assert !PathsClash(m.recvs[t], m.recvs[tid].partPath, m.recvs[tid].finalPath);
      }
    }
  }

  lemma StepKeepsExact(sha: Bytes -> Bytes, m: Receiver, i: Input)
    requires Exact(m) && Admissible(m, i) && FaultFree(i)
    ensures Exact(Step(sha, m, i))
  {
    StepKeepsInv(sha, m, i);
    hide Inv, Sanitize, PartPath, AfterOffer, AfterChunk, AfterComplete;
    if i.Deliver? {
      match i.msg
      case Offer(tid, name, size) => OfferKeepsExact(m, tid, name, size, i.io);
      case Chunk(tid, offset, data) => ChunkKeepsExact(m, tid, offset, data, i.io);
      case Complete(tid, digest) => CompleteKeepsExact(sha, m, tid, digest, i.io);
      case Ack(_, _) =>
      case Cancel(_, _) =>
    }
  }

  /** Without I/O faults the hasher always equals the hash of the first `written`
      bytes of the `.part`, which has no further bytes. */
  lemma {:induction false} HasherFollowsFile(sha: Bytes -> Bytes, m: Receiver, ins: seq<Input>)
    requires Exact(m) && ClashFree(sha, m, ins) && forall i | i in ins :: FaultFree(i)
    ensures Exact(Run(sha, m, ins))
    ensures forall t | t in Run(sha, m, ins).recvs ::
      var m' := Run(sha, m, ins);
      m'.disk.Read(m'.recvs[t].partPath) == m'.recvs[t].absorbed && |m'.recvs[t].absorbed| == m'.recvs[t].written
  {
    if ins != [] {
      var init, last := ins[..|ins| - 1], ins[|ins| - 1];
      HasherFollowsFile(sha, m, init);
      StepKeepsExact(sha, Run(sha, m, init), last);
    }
    var m' := Run(sha, m, ins);
    forall t | t in m'.recvs ensures m'.disk.Read(m'.recvs[t].partPath) == m'.recvs[t].absorbed {
      assert Intact(m'.disk, m'.recvs[t]);
      var data := m'.disk.Read(m'.recvs[t].partPath);
      assert data[..|data|] == data;
    }
  }

  // ---------------------------------------------------------------- the path condition is exact

  /** All offers of `tid1` use `name1`, all offers of `tid2` use `name2`, no other offers. */
  ghost predicate TwoTransfers(ins: seq<Input>, tid1: string, name1: string, tid2: string, name2: string) {
    forall i | i in ins && i.Deliver? && i.msg.Offer? ::
      (i.msg.tid == tid1 && i.msg.name == name1) || (i.msg.tid == tid2 && i.msg.name == name2)
  }

  /** Every transfer completed after `ins` leaves a file with the bytes it received. */
  ghost predicate Faithful(sha: Bytes -> Bytes, ins: seq<Input>) {
    forall tid, digest, io ::
      var m := Run(sha, NOWHERE, ins);
      Completes(sha, m, tid, digest, io) ==>
        AfterComplete(sha, m, tid, digest, io).disk.Read(m.recvs[tid].finalPath) == m.recvs[tid].absorbed
  }

  ghost predicate UsesPaths(m: Receiver, tid1: string, name1: string, tid2: string, name2: string) {
    forall t | t in m.recvs ::
      || (t == tid1 && m.recvs[t].partPath == PartPath(name1) && m.recvs[t].finalPath == Sanitize(name1))
      || (t == tid2 && m.recvs[t].partPath == PartPath(name2) && m.recvs[t].finalPath == Sanitize(name2))
  }

  lemma StepKeepsPaths(sha: Bytes -> Bytes, m: Receiver, i: Input,
      tid1: string, name1: string, tid2: string, name2: string)
    requires UsesPaths(m, tid1, name1, tid2, name2) && TwoTransfers([i], tid1, name1, tid2, name2)
    ensures UsesPaths(Step(sha, m, i), tid1, name1, tid2, name2)
  {
    hide Sanitize, PartPath;
    assert i in [i];
    if i.Deliver? {
      StepOnTable(sha, m, i);
    }
  }

  lemma {:induction false} TwoTransfersClashFree(sha: Bytes -> Bytes, m: Receiver, ins: seq<Input>,
      tid1: string, name1: string, tid2: string, name2: string)
    requires m.recvs == map[] && tid1 != tid2 && !Clash(name1, name2)
    requires TwoTransfers(ins, tid1, name1, tid2, name2)
    ensures ClashFree(sha, m, ins) && UsesPaths(Run(sha, m, ins), tid1, name1, tid2, name2)
  {
    hide Sanitize, PartPath;
    if ins != [] {
      var init, last := ins[..|ins| - 1], ins[|ins| - 1];
      TwoTransfersClashFree(sha, m, init, tid1, name1, tid2, name2);
      assert last in ins && last in [last];
      StepKeepsPaths(sha, Run(sha, m, init), last, tid1, name1, tid2, name2);
    }
  }

  lemma RunSnoc(sha: Bytes -> Bytes, m: Receiver, ins: seq<Input>, i: Input)
    ensures Run(sha, m, ins + [i]) == Step(sha, Run(sha, m, ins), i)
  {
    assert (ins + [i])[..|ins|] == ins;
  }

  /** Both transfers are offered and receive one byte each, 1 and 2. */
  function SideBySide(tid1: string, name1: string, tid2: string, name2: string): seq<Input> {
    var io := Works(1, 1);
    [Deliver(Offer(tid1, name1, 1), io)] + [Deliver(Offer(tid2, name2, 1), io)]
      + [Deliver(Chunk(tid1, 0, [1]), io)] + [Deliver(Chunk(tid2, 0, [2]), io)]
  }

  lemma SideBySideRun(sha: Bytes -> Bytes, tid1: string, name1: string, tid2: string, name2: string) returns (m: Receiver)
    requires tid1 != tid2
    ensures m == Run(sha, NOWHERE, SideBySide(tid1, name1, tid2, name2))
    ensures OneByteEach(m, tid1, name1, tid2, name2)
  {
    hide Sanitize, PartPath, AfterOffer, AfterChunk;
    var io := Works(1, 1);
    var p1, p2 := PartPath(name1), PartPath(name2);
    var start := NOWHERE;
    var o1, o2 := Deliver(Offer(tid1, name1, 1), io), Deliver(Offer(tid2, name2, 1), io);
    var c1, c2 := Deliver(Chunk(tid1, 0, [1]), io), Deliver(Chunk(tid2, 0, [2]), io);
    RunSnoc(sha, start, [], o1);
    RunSnoc(sha, start, [o1], o2);
    RunSnoc(sha, start, [o1] + [o2], c1);
    RunSnoc(sha, start, [o1] + [o2] + [c1], c2);
    var m1 := AfterOffer(start, tid1, name1, 1, io);
    OfferAdopts(start, tid1, name1, 1, io);
    var m2 := AfterOffer(m1, tid2, name2, 1, io);
    OfferAdopts(m1, tid2, name2, 1, io);
    assert p1 != p2 ==> Same(m1.disk, m2.disk, p1) && Same(start.disk, m1.disk, p2);
    assert m2.disk.Has(p1) && m2.disk.names[p1] == m1.disk.names[p1] && m2.disk.Read(p1) == [];
    assert m2.recvs[tid1] == m1.recvs[tid1] && m2.recvs[tid1].absorbed == [] && m2.recvs[tid2].absorbed == [];
    m := AfterChunk(AfterChunk(m2, tid1, 0, [1], io), tid2, 0, [2], io);
    BothWrite(m2, tid1, tid2, io);
  }

  /** The state the two transfers are in after one byte each. */
  ghost predicate OneByteEach(m: Receiver, tid1: string, name1: string, tid2: string, name2: string) {
    && m.disk.Valid() && tid1 in m.recvs && tid2 in m.recvs
    && var a, b := m.recvs[tid1], m.recvs[tid2];
    && a.absorbed == [1] && a.written == a.size == 1 && a.partPath == PartPath(name1) && a.finalPath == Sanitize(name1)
    && b.absorbed == [2] && b.written == b.size == 1 && b.partPath == PartPath(name2) && b.finalPath == Sanitize(name2)
    && m.disk.Has(a.partPath) && m.disk.Has(b.partPath) && m.disk.Read(b.partPath) == [2]
    && m.disk.names[b.partPath] == b.file && b.pos == b.lastAck == 1
  }

  /** The second write lands at the start of its file, over whatever is there. */
  lemma BothWrite(m: Receiver, tid1: string, tid2: string, io: Io)
    requires tid1 != tid2 && tid1 in m.recvs && tid2 in m.recvs && io.wrote == 1 && m.disk.Valid()
    requires m.recvs[tid1].pos == m.recvs[tid1].written == 0 && m.recvs[tid1].absorbed == [] && m.recvs[tid1].size == 1
    requires m.recvs[tid2].pos == m.recvs[tid2].written == 0 && m.recvs[tid2].absorbed == [] && m.recvs[tid2].size == 1
    requires m.disk.Has(m.recvs[tid1].partPath) && m.disk.names[m.recvs[tid1].partPath] == m.recvs[tid1].file
    requires m.disk.Has(m.recvs[tid2].partPath) && m.disk.names[m.recvs[tid2].partPath] == m.recvs[tid2].file
    requires m.disk.Read(m.recvs[tid1].partPath) == [] && m.disk.Read(m.recvs[tid2].partPath) == []
    ensures
      var m' := AfterChunk(AfterChunk(m, tid1, 0, [1], io), tid2, 0, [2], io);
      && m'.disk.Valid() && m'.disk.names == m.disk.names && m'.recvs.Keys == m.recvs.Keys
      && m'.disk.Has(m.recvs[tid1].partPath) && m'.disk.Has(m.recvs[tid2].partPath)
      && m'.disk.Read(m.recvs[tid2].partPath) == [2]
      && m'.recvs[tid1] == m.recvs[tid1].(pos := 1, written := 1, absorbed := [1], lastAck := 1)
      && m'.recvs[tid2] == m.recvs[tid2].(pos := 1, written := 1, absorbed := [2], lastAck := 1)
  {
    hide Sanitize, PartPath;
    assert [1 as Byte][..1] == [1] && [2 as Byte][..1] == [2];
  }

  /** For plain names: two clash if they are the same, or one is the other with `.part`. */
  lemma ClashesWhen(name1: string, base1: string, name2: string, base2: string)
    requires exists folder, before, after :: IsOffered(name1, folder, before, base1, after)
    requires exists folder, before, after :: IsOffered(name2, folder, before, base2, after)
    ensures Clash(name1, name2) <==> base1 == base2 || base1 == base2 + ".part" || base2 == base1 + ".part"
  {
    var f, b, a :| IsOffered(name1, f, b, base1, a);
    SanitizeKeepsPlain(f, b, base1, a);
    var g, c, d :| IsOffered(name2, g, c, base2, d);
    SanitizeKeepsPlain(g, c, base2, d);
    hide Sanitize;
    var p1, p2 := base1 + ".part", base2 + ".part";
    assert p1[..|base1|] == base1 && p2[..|base2|] == base2;
  }

  predicate IsOffered(name: string, folder: string, before: string, base: string, after: string) {
    name == folder + before + base + after && IsFolder(folder) && IsDots(before) && IsDots(after) && IsPlain(base)
  }

  /** Clashing names break integrity, without any fault and whatever `sha` is. */
  lemma ClashBreaks(sha: Bytes -> Bytes, tid1: string, name1: string, tid2: string, name2: string) returns (ins: seq<Input>)
    requires tid1 != tid2 && Clash(name1, name2)
    ensures TwoTransfers(ins, tid1, name1, tid2, name2) && forall i | i in ins :: FaultFree(i)
    ensures !Faithful(sha, ins)
  {
    hide Sanitize, PartPath, Faithful, FaultFree;
    if Sanitize(name1) == PartPath(name2) {
      ins := FirstBroken(sha, tid2, name2, tid1, name1);
    } else {
      ins := FirstBroken(sha, tid1, name1, tid2, name2);
    }
  }

  /** The first transfer is broken by the second, whose chunk or whose completed file
      takes the place of its `.part`. */
  lemma FirstBroken(sha: Bytes -> Bytes, tid1: string, name1: string, tid2: string, name2: string) returns (ins: seq<Input>)
    requires tid1 != tid2
    requires PartPath(name1) == PartPath(name2) || Sanitize(name2) == PartPath(name1)
    ensures TwoTransfers(ins, tid1, name1, tid2, name2) && forall i | i in ins :: FaultFree(i)
    ensures !Faithful(sha, ins)
  {
    hide Sanitize, PartPath, AfterOffer, AfterChunk, AfterComplete;
    var io := Works(1, 1);
    var start := NOWHERE;
    ins := SideBySide(tid1, name1, tid2, name2);
    var m := SideBySideRun(sha, tid1, name1, tid2, name2);
    PartIsNotFinal(name1);
    PartIsNotFinal(name2);
    if PartPath(name1) != PartPath(name2) {
      var fin := Deliver(Complete(tid2, sha([2])), io);
      RunSnoc(sha, start, ins, fin);
      ins := ins + [fin];
      FileMoves(sha, m, tid2, io);
      m := Step(sha, m, fin);
    }
    SecondBytes(sha, m, tid1, io);
    assert Completes(sha, m, tid1, sha([1]), io);
  }

  /** The second transfer completes: its byte is now at its final path. */
  lemma FileMoves(sha: Bytes -> Bytes, m: Receiver, tid: string, io: Io)
    requires tid in m.recvs && m.disk.Valid() && io.rename
    requires var st := m.recvs[tid];
      st.absorbed == [2] && st.written == st.size && st.partPath != st.finalPath &&
      m.disk.Has(st.partPath) && m.disk.Read(st.partPath) == [2]
    ensures var st, m' := m.recvs[tid], AfterComplete(sha, m, tid, sha([2]), io);
      && m'.recvs == m.recvs - {tid} && m'.disk.Valid()
      && m'.disk.Has(st.finalPath) && m'.disk.Read(st.finalPath) == [2]
  {
    RenameMoves(m.disk, m.recvs[tid].partPath, m.recvs[tid].finalPath);
  }

  /** Completing a transfer whose `.part` holds another one's byte. */
  lemma SecondBytes(sha: Bytes -> Bytes, m: Receiver, tid: string, io: Io)
    requires tid in m.recvs && m.disk.Valid() && io.rename
    requires var st := m.recvs[tid];
      st.absorbed == [1] && st.written == st.size && st.partPath != st.finalPath &&
      m.disk.Has(st.partPath) && m.disk.Read(st.partPath) == [2]
    ensures Completes(sha, m, tid, sha([1]), io)
    ensures AfterComplete(sha, m, tid, sha([1]), io).disk.Read(m.recvs[tid].finalPath) == [2]
  {
    CompletesWhen(sha, m, tid, sha([1]), io);
    RenameMoves(m.disk, m.recvs[tid].partPath, m.recvs[tid].finalPath);
  }

  /** Two transfers side by side are safe from each other on every fault-free run
      if and only if their names do not clash. */
  lemma NamesSafeExactly(sha: Bytes -> Bytes, tid1: string, name1: string, tid2: string, name2: string)
    requires tid1 != tid2
    ensures
      (forall ins | TwoTransfers(ins, tid1, name1, tid2, name2) && (forall i | i in ins :: FaultFree(i)) ::
        Faithful(sha, ins))
      <==> !Clash(name1, name2)
  {
    hide Sanitize, PartPath;
    if Clash(name1, name2) {
      var ins := ClashBreaks(sha, tid1, name1, tid2, name2);
    } else {
      forall ins | TwoTransfers(ins, tid1, name1, tid2, name2) && (forall i | i in ins :: FaultFree(i))
        ensures Faithful(sha, ins)
      {
        var start := NOWHERE;
        TwoTransfersClashFree(sha, start, ins, tid1, name1, tid2, name2);
        HasherFollowsFile(sha, start, ins);
        var m := Run(sha, start, ins);
        forall tid, digest, io | Completes(sha, m, tid, digest, io)
          ensures AfterComplete(sha, m, tid, digest, io).disk.Read(m.recvs[tid].finalPath) == m.recvs[tid].absorbed
        {
          CompletesWhen(sha, m, tid, digest, io);
        }
      }
    }
  }

  // ---------------------------------------------------------------- sessions

  /** One source offered under one name, again and again: whole-size offers when no
      other transfer is live, honest chunks, cancellations and restarts. */
  ghost predicate SessionInput(m: Receiver, name: string, src: Bytes, i: Input) {
    i.Deliver? ==>
      match i.msg
      case Offer(tid, n, size) => n == name && size == |src| && m.recvs.Keys <= {tid} && i.io.readable >= size && i.io.stat && i.io.cut && i.io.seek
      case Chunk(_, offset, data) => offset + |data| <= |src| && data == src[offset..offset + |data|] && i.io.wrote >= |data|
      case Ack(_, _) => true
      case Complete(_, _) => false
      case Cancel(_, _) => true
  }

  ghost predicate Session(sha: Bytes -> Bytes, m: Receiver, name: string, src: Bytes, ins: seq<Input>) {
    ins != [] ==>
      && Session(sha, m, name, src, ins[..|ins| - 1])
      && SessionInput(Run(sha, m, ins[..|ins| - 1]), name, src, ins[|ins| - 1])
  }

  /** The `.part` holds a prefix of the source and is what any live transfer writes. */
  ghost predicate Resumable(m: Receiver, name: string, src: Bytes) {
    && Exact(m) && m.disk.Read(PartPath(name)) <= src
    && (forall t, u | t in m.recvs && u in m.recvs :: t == u)
    && forall t | t in m.recvs :: m.recvs[t].partPath == PartPath(name) && m.recvs[t].size == |src|
  }

  lemma SessionStep(sha: Bytes -> Bytes, m: Receiver, name: string, src: Bytes, i: Input)
    requires Resumable(m, name, src) && SessionInput(m, name, src, i)
    ensures Resumable(Step(sha, m, i), name, src)
    ensures m.disk.Read(PartPath(name)) <= Step(sha, m, i).disk.Read(PartPath(name))
  {
    hide Sanitize, PartPath, AfterOffer, AfterChunk, AfterComplete;
    assert Admissible(m, i) && FaultFree(i);
    StepKeepsExact(sha, m, i);
    if i.Deliver? {
      match i.msg
      case Offer(tid, n, size) => OfferAcksPart(sha, m, name, src, tid, i.io);
      case Chunk(tid, offset, data) => ChunkExtendsPart(m, name, src, tid, offset, data, i.io);
      case Ack(_, _) =>
      case Complete(_, _) =>
      case Cancel(tid, _) =>
    }
  }

  lemma ChunkExtendsPart(m: Receiver, name: string, src: Bytes, tid: string, offset: nat, data: Bytes, io: Io)
    requires Resumable(m, name, src) && io.wrote >= |data|
    requires offset + |data| <= |src| && data == src[offset..offset + |data|]
    ensures
      var part, m' := m.disk.Read(PartPath(name)), AfterChunk(m, tid, offset, data, io);
      && part <= m'.disk.Read(PartPath(name)) <= src && m'.recvs.Keys == m.recvs.Keys
      && forall t | t in m'.recvs :: m'.recvs[t].partPath == PartPath(name) && m'.recvs[t].size == |src|
  {
    hide Sanitize, PartPath, Overwrite;
    if tid in m.recvs && offset == m.recvs[tid].written {
      InvDisk(m);
      var part := m.disk.Read(PartPath(name));
      ChunkWrites(m, tid, data, io);
      OverwriteShape(part, m.recvs[tid].pos, data);
      hide AfterChunk, Exact;
      assert data[..|data|] == data;
      assert part == src[..offset] && part + data == src[..offset + |data|];
      var m' := AfterChunk(m, tid, offset, data, io);
      assert m'.disk.Read(PartPath(name)) == part + data;
    }
  }

  /** An accepted offer leaves the `.part` as it is and is acked at exactly its length. */
  lemma OfferAcksPart(sha: Bytes -> Bytes, m: Receiver, name: string, src: Bytes, tid: string, io: Io)
    requires Resumable(m, name, src) && m.recvs.Keys <= {tid} && io.stat && io.cut && io.seek
    ensures
      var part, m' := m.disk.Read(PartPath(name)), Step(sha, m, Deliver(Offer(tid, name, |src|), io));
      && m'.disk.Read(PartPath(name)) == part
      && m'.recvs.Keys <= {tid}
      && (forall t | t in m'.recvs :: m'.recvs[t].partPath == PartPath(name) && m'.recvs[t].size == |src|)
      && (io.mkdir && io.open ==>
            m'.out == m.out + [Ack(tid, |part|)] && tid in m'.recvs && m'.recvs[tid].written == |part|)
  {
    hide Sanitize, PartPath, AfterOffer;
    if io.mkdir && io.open {
      OfferAdopts(m, tid, name, |src|, io);
    } else {
      OfferRefused(m, tid, name, |src|, io);
    }
  }

  lemma {:induction false} SessionKeepsResumable(sha: Bytes -> Bytes, m: Receiver, name: string, src: Bytes, ins: seq<Input>)
    requires Resumable(m, name, src) && Session(sha, m, name, src, ins)
    ensures Resumable(Run(sha, m, ins), name, src)
  {
    hide Sanitize, PartPath;
    if ins != [] {
      SessionKeepsResumable(sha, m, name, src, ins[..|ins| - 1]);
      SessionStep(sha, Run(sha, m, ins[..|ins| - 1]), name, src, ins[|ins| - 1]);
    }
  }

  lemma Prefixes(a: Bytes, b: Bytes, c: Bytes)
    requires a <= b <= c
    ensures a <= c
  {
  }

  /** Over any run of sessions with one source the `.part` only ever grows, and
      stays a prefix of the source. */
  lemma {:induction false} PartGrows(sha: Bytes -> Bytes, m: Receiver, name: string, src: Bytes, first: seq<Input>, more: seq<Input>)
    requires Resumable(m, name, src) && Session(sha, m, name, src, first + more)
    ensures Session(sha, m, name, src, first)
    ensures Run(sha, m, first).disk.Read(PartPath(name)) <= Run(sha, m, first + more).disk.Read(PartPath(name)) <= src
    decreases |more|
  {
    hide Sanitize, PartPath, Step, SessionInput, Exact;
    SessionKeepsResumable(sha, m, name, src, first + more);
    assert Run(sha, m, first + more).disk.Read(PartPath(name)) <= src;
    hide Resumable;
    if more != [] {
      var init, last := more[..|more| - 1], more[|more| - 1];
      var all := first + more;
      assert all[..|all| - 1] == first + init && all[|all| - 1] == last;
      PartGrows(sha, m, name, src, first, init);
      SessionKeepsResumable(sha, m, name, src, first + init);
      SessionStep(sha, Run(sha, m, first + init), name, src, last);
      Prefixes(Run(sha, m, first).disk.Read(PartPath(name)), Run(sha, m, first + init).disk.Read(PartPath(name)),
               Run(sha, m, all).disk.Read(PartPath(name)));
    } else {
      assert first + more == first;
    }
  }
}
