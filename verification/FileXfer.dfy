/**
 The receiving half of a resumable file transfer: the handlers of `FileTransfers`
 over a disk with open handles.

 A handle stays on its inode when the path it was opened under is renamed or
 removed, so two transfers that share a path really do interfere. SHA-256 is a
 parameter `sha`; the rolling hasher is represented by the bytes it has absorbed.
 I/O results the code reacts to arrive as an `Io` value.
 */
module FileXfer {
  import opened Prelude

  const CHUNK: nat := 16 * 1024
  const WINDOW: nat := 1024 * 1024
  const ACK_EVERY: nat := 256 * 1024

  // ---------------------------------------------------------------- disk

  /** Directory entries, inode contents, and the next unused inode number. */
  datatype Disk = Disk(names: map<string, nat>, data: map<nat, Bytes>, next: nat) {
    /** Entries point at existing inodes, and no inode has two names. */
    ghost predicate Valid() {
      && (forall p | p in names :: names[p] in data)
      && (forall i | i in data :: i < next)
      && (forall p, q | p in names && q in names && names[p] == names[q] :: p == q)
    }

    predicate Has(p: string) {
      p in names && names[p] in data
    }

    function Read(p: string): Bytes {
      if Has(p) then data[names[p]] else []
    }

    /** Open for writing, creating an empty file when there is none. */
    function Open(p: string): Disk {
      if Has(p) then this
      else Disk(names[p := next], data[next := []], next + 1)
    }

    function SetLen(i: nat, n: nat): Disk
      requires i in data && n <= |data[i]|
    {
      this.(data := data[i := data[i][..n]])
    }

    /** Write `bytes` at offset `pos` of inode `i`. */
    function Write(i: nat, pos: nat, bytes: Bytes): Disk {
      var was := if i in data then data[i] else [];
      this.(data := data[i := Overwrite(was, pos, bytes)], next := if i < next then next else i + 1)
    }

    function Remove(p: string): Disk {
      this.(names := names - {p})
    }

    /** `rename`: replaces whatever `q` named. */
    function Rename(p: string, q: string): Disk
      requires p in names
    {
      this.(names := (names - {p})[q := names[p]])
    }
  }

  /** A write over what is there; a hole reads as zeros. */
  function Overwrite(was: Bytes, pos: nat, bytes: Bytes): Bytes {
    var head := if pos <= |was| then was[..pos] else was + seq(pos - |was|, _ => 0 as Byte);
    var tail := if pos + |bytes| <= |was| then was[pos + |bytes|..] else [];
    head + bytes + tail
  }

  lemma OverwriteShape(was: Bytes, pos: nat, bytes: Bytes)
    requires pos <= |was|
    ensures var r, end := Overwrite(was, pos, bytes), pos + |bytes|;
      && |r| == (if |was| > end then |was| else end) && r[..end] == was[..pos] + bytes && r[end..] == was[Min(end, |was|)..]
      && (pos == |was| ==> r == was + bytes) && (bytes == [] ==> r == was)
  {
  }

  /** `p` still names the same inode with the same contents, or still nothing. */
  ghost predicate Same(d: Disk, d': Disk, p: string) {
    d'.Has(p) == d.Has(p) && (d.Has(p) ==> d'.names[p] == d.names[p] && d'.Read(p) == d.Read(p))
  }

  /** Every disk operation touches the files it names and no others. */
  lemma OpenShortened(d: Disk, p: string, n: nat, cut: bool)
    requires d.Valid() && n <= |d.Read(p)|
    ensures var i := d.Open(p).names[p];
            var d' := if cut then d.Open(p).SetLen(i, n) else d.Open(p);
            d'.Valid() && d'.Has(p) && d'.names[p] == i && d'.Read(p) == (if cut then d.Read(p)[..n] else d.Read(p)) &&
            (d.Has(p) ==> i == d.names[p]) && forall q | q != p :: Same(d, d', q)
  {
  }

  lemma WriteChanges(d: Disk, p: string, pos: nat, bytes: Bytes)
    requires d.Valid() && d.Has(p)
    ensures var d' := d.Write(d.names[p], pos, bytes);
            d'.Valid() && d'.Has(p) && d'.names[p] == d.names[p] && d'.Read(p) == Overwrite(d.Read(p), pos, bytes) &&
            forall q | q != p :: Same(d, d', q)
  {
    hide Overwrite;
  }

  lemma RemoveForgets(d: Disk, p: string)
    requires d.Valid()
    ensures d.Remove(p).Valid() && !d.Remove(p).Has(p) && forall q | q != p :: Same(d, d.Remove(p), q)
  {
  }

  lemma RenameMoves(d: Disk, p: string, q: string)
    requires d.Valid() && d.Has(p) && p != q
    ensures var d' := d.Rename(p, q);
            d'.Valid() && d'.Has(q) && d'.Read(q) == d.Read(p) && !d'.Has(p) &&
            forall r | r != p && r != q :: Same(d, d', r)
  {
  }

  // ---------------------------------------------------------------- messages and state

  datatype Msg =
    | Offer(tid: string, name: string, size: nat)
    | Chunk(tid: string, offset: nat, data: Bytes)
    | Ack(tid: string, offset: nat)
    | Complete(tid: string, sha256: Bytes)
    | Cancel(tid: string, reason: string)

  datatype Event =
    | Offered(tid: string, name: string, size: nat)
    | Progress(tid: string, transferred: nat, total: nat)
    | Completed(tid: string, path: string)
    | Failed(tid: string, reason: string)

  /** What the operating system answers while one message is handled: whether the
      directory, looking up, opening, shortening and seeking in the `.part` and the
      final rename work, how many bytes of the leftover can be read back, and how
      many bytes of a chunk reach the disk. */
  datatype Io = Io(mkdir: bool, stat: bool, open: bool, cut: bool, seek: bool, readable: nat, wrote: nat, rename: bool)

  /** Nothing fails, and so many bytes are read and written. */
  function Works(readable: nat, wrote: nat): Io {
    Io(true, true, true, true, true, readable, wrote, true)
  }

  /** One incoming transfer. `pos` is the cursor of the open handle `file`, `skew`
      remembers how far from the resume point it was when the offer was accepted. */
  datatype Recv = Recv(file: nat, pos: nat, partPath: string, finalPath: string,
                       written: nat, size: nat, lastAck: nat, absorbed: Bytes, skew: nat)

  /** The receiver: live transfers, disk, and everything sent and reported so far. */
  datatype Receiver = Receiver(recvs: map<string, Recv>, disk: Disk, out: seq<Msg>, events: seq<Event>) {
    function Fail(tid: string, reason: string): Receiver {
      this.(events := events + [Failed(tid, reason)])
    }
  }

  // ---------------------------------------------------------------- file names

  /** The part of `s` after its last separator. */
  function BaseName(s: string): string {
    if s == [] then []
    else if s[|s| - 1] == '/' || s[|s| - 1] == '\\' then []
    else BaseName(s[..|s| - 1]) + [s[|s| - 1]]
  }

  function TrimDots(s: string): string {
    if s == [] then s
    else if s[0] == '.' then TrimDots(s[1..])
    else if s[|s| - 1] == '.' then TrimDots(s[..|s| - 1])
    else s
  }

  /** The name an offered file gets inside the download directory. */
  function Sanitize(name: string): string {
    var base := TrimDots(BaseName(name));
    if base == [] then "file" else base
  }

  function PartPath(name: string): string {
    Sanitize(name) + ".part"
  }

  // ---------------------------------------------------------------- handlers as functions

  function AfterOffer(m: Receiver, tid: string, name: string, size: nat, io: Io): Receiver {
    if !io.mkdir then m.Fail(tid, "mkdir")
    else if !io.open then m.Fail(tid, "open .part")
    else Adopt(m, tid, PartPath(name), Sanitize(name), size, io)
         .(events := m.events + [Offered(tid, name, size)])
  }

  /** How much of a leftover is taken over. */
  function Resume(leftover: Bytes, size: nat, io: Io): nat {
    Min(if io.stat then |leftover| else 0, size)
  }

  /** Take over what an earlier attempt left in `partPath`, and say so to the sender.
      Failing to shorten the file or to move the cursor goes unnoticed. */
  function Adopt(m: Receiver, tid: string, partPath: string, finalPath: string, size: nat, io: Io): Receiver {
    var leftover := m.disk.Read(partPath);
    var resume := Resume(leftover, size, io);
    var disk := m.disk.Open(partPath);
    var file := disk.names[partPath];
    Receiver(
      m.recvs[tid := Recv(file, if io.seek then resume else 0, partPath, finalPath, resume, size, resume,
                          leftover[..Min(resume, io.readable)], if io.seek then 0 else resume)],
      if io.cut then disk.SetLen(file, resume) else disk,
      m.out + [Ack(tid, resume)],
      m.events)
  }

  function AfterChunk(m: Receiver, tid: string, offset: nat, data: Bytes, io: Io): Receiver {
    if tid !in m.recvs then m
    else
      var st := m.recvs[tid];
      if offset < st.written then m
      else if offset > st.written then m.Fail(tid, "chunk gap")
      else
        var wrote := Min(io.wrote, |data|);
        var disk := m.disk.Write(st.file, st.pos, data[..wrote]);
        if wrote < |data| then
          m.(recvs := m.recvs[tid := st.(pos := st.pos + wrote)], disk := disk).Fail(tid, "write")
        else
          var written := st.written + |data|;
          var acks := written - st.lastAck >= ACK_EVERY || written == st.size;
          var st' := st.(pos := st.pos + wrote, written := written, absorbed := st.absorbed + data,
                         lastAck := if acks then written else st.lastAck);
          Receiver(m.recvs[tid := st'], disk,
                   if acks then m.out + [Ack(tid, written)] else m.out,
                   m.events + [Progress(tid, written, st.size)])
  }

  function AfterComplete(sha: Bytes -> Bytes, m: Receiver, tid: string, digest: Bytes, io: Io): Receiver {
    if tid !in m.recvs then m
    else
      var st := m.recvs[tid];
      var m' := m.(recvs := m.recvs - {tid});
      if st.written != st.size then
        m'.(disk := m.disk.Remove(st.partPath)).Fail(tid, "short transfer")
      else if sha(st.absorbed) != digest then
        m'.(disk := m.disk.Remove(st.partPath)).Fail(tid, "integrity check failed")
      else if !io.rename || st.partPath !in m.disk.names then
        m'.Fail(tid, "finalize")
      else
        m'.(disk := m.disk.Rename(st.partPath, st.finalPath),
            events := m.events + [Completed(tid, st.finalPath)])
  }

  function AfterCancel(m: Receiver, tid: string, reason: string): Receiver {
    m.(recvs := m.recvs - {tid}).Fail(tid, reason)
  }

  /** `handle`, as far as the receiving side is concerned. */
  function Handle(sha: Bytes -> Bytes, m: Receiver, msg: Msg, io: Io): Receiver {
    match msg
    case Offer(tid, name, size) => AfterOffer(m, tid, name, size, io)
    case Chunk(tid, offset, data) => AfterChunk(m, tid, offset, data, io)
    case Ack(_, _) => m
    case Complete(tid, digest) => AfterComplete(sha, m, tid, digest, io)
    case Cancel(tid, reason) => AfterCancel(m, tid, reason)
  }

  // ---------------------------------------------------------------- transfer ids

  function Decimal(n: nat): string {
    if n < 10 then ["0123456789"[n]] else Decimal(n / 10) + ["0123456789"[n % 10]]
  }

  function TransferId(counter: nat, name: string): string {
    "tx-" + Decimal(counter) + "-" + name
  }

  predicate AllDigits(s: string) {
    forall i | 0 <= i < |s| :: '0' <= s[i] <= '9'
  }

  /** What a string of decimal digits stands for. */
  function Value(s: string): nat
    requires AllDigits(s)
  {
    if s == [] then 0 else Value(s[..|s| - 1]) * 10 + (s[|s| - 1] as int - '0' as int)
  }

  lemma DigitReads(d: nat)
    requires d < 10
    ensures var c := "0123456789"[d]; '0' <= c <= '9' && c as int - '0' as int == d
  {
    var digits := "0123456789";
    assert digits[0] == '0' && digits[1] == '1' && digits[2] == '2' && digits[3] == '3' && digits[4] == '4';
    assert digits[5] == '5' && digits[6] == '6' && digits[7] == '7' && digits[8] == '8' && digits[9] == '9';
  }

  /** A counter is written in the usual way: reading it back gives the counter. */
  lemma {:induction false} DecimalReads(n: nat)
    ensures |Decimal(n)| > 0 && AllDigits(Decimal(n)) && Value(Decimal(n)) == n
  {
    DigitReads(n % 10);
    if n >= 10 {
      DecimalReads(n / 10);
      assert Decimal(n)[..|Decimal(n)| - 1] == Decimal(n / 10);
    } else {
      assert Decimal(n)[..0] == [];
    }
  }

  lemma SameUpToDash(d1: string, name1: string, d2: string, name2: string)
    requires AllDigits(d1) && AllDigits(d2) && "tx-" + d1 + "-" + name1 == "tx-" + d2 + "-" + name2
    ensures d1 == d2 && name1 == name2
  {
    var id1, id2 := "tx-" + d1 + "-" + name1, "tx-" + d2 + "-" + name2;
    assert forall i | 0 <= i < |d1| :: id1[3 + i] == d1[i];
    assert forall i | 0 <= i < |d2| :: id2[3 + i] == d2[i];
    assert id1[3..3 + |d1|] == d1 && id1[3 + |d1|] == '-' && id1[4 + |d1|..] == name1;
    assert id2[3..3 + |d2|] == d2 && id2[3 + |d2|] == '-' && id2[4 + |d2|..] == name2;
  }

  /** Ids made by one manager are unique without a clock: they determine the
      counter, and so differ for any two files it sends, also of the same name. */
  lemma TransferIdUnique(c1: nat, name1: string, c2: nat, name2: string)
    requires TransferId(c1, name1) == TransferId(c2, name2)
    ensures c1 == c2 && name1 == name2
  {
    DecimalReads(c1);
    DecimalReads(c2);
    hide Decimal, Value;
    var d1, d2 := Decimal(c1), Decimal(c2);
    SameUpToDash(d1, name1, d2, name2);
  }

  /** What stands before the last separator of a path, that included. */
  predicate IsFolder(s: string) {
    s == [] || s[|s| - 1] == '/' || s[|s| - 1] == '\\'
  }

  predicate IsDots(s: string) {
    forall i | 0 <= i < |s| :: s[i] == '.'
  }

  predicate HasSeparator(s: string) {
    '/' in s || '\\' in s
  }

  /** A file name as people write them: no separator, no dot at either end. */
  predicate IsPlain(s: string) {
    s != [] && !HasSeparator(s) && s[0] != '.' && s[|s| - 1] != '.'
  }

  lemma {:induction false} BaseNameOf(folder: string, base: string)
    requires IsFolder(folder) && !HasSeparator(base)
    ensures BaseName(folder + base) == base
  {
    if base != [] {
      var n := |base| - 1;
      assert (folder + base)[..|folder| + n] == folder + base[..n];
      BaseNameOf(folder, base[..n]);
    } else {
      assert folder + base == folder;
    }
  }

  lemma {:induction false} TrimDotsOf(before: string, base: string, after: string)
    requires IsDots(before) && IsDots(after) && (base == [] || (base[0] != '.' && base[|base| - 1] != '.'))
    ensures TrimDots(before + base + after) == base
    decreases |before| + |after|
  {
    var s := before + base + after;
    if before != [] {
      assert s[1..] == before[1..] + base + after;
      TrimDotsOf(before[1..], base, after);
    } else if base == [] && after != [] {
      assert s[1..] == before + base + after[1..];
      TrimDotsOf(before, base, after[1..]);
    } else if after != [] {
      var n := |after| - 1;
      assert s[..|s| - 1] == before + base + after[..n];
      TrimDotsOf(before, base, after[..n]);
    } else {
      assert s == base;
    }
  }

  /** A plain name is kept, whatever folder and dots an offer puts around it. */
  lemma SanitizeKeepsPlain(folder: string, before: string, base: string, after: string)
    requires IsFolder(folder) && IsDots(before) && IsDots(after) && IsPlain(base)
    ensures Sanitize(folder + before + base + after) == base
    ensures PartPath(folder + before + base + after) == base + ".part"
  {
    NoSeparators(before);
    NoSeparators(after);
    assert folder + before + base + after == folder + (before + base + after);
    BaseNameOf(folder, before + base + after);
    TrimDotsOf(before, base, after);
  }

  lemma NoSeparators(dots: string)
    requires IsDots(dots)
    ensures !HasSeparator(dots)
  {
  }

  /** Where only dots follow the last separator there is no name to keep. */
  lemma SanitizeDefault(folder: string, dots: string)
    requires IsFolder(folder) && IsDots(dots)
    ensures Sanitize(folder + dots) == "file"
  {
    NoSeparators(dots);
    BaseNameOf(folder, dots);
    TrimDotsOf(dots, [], []);
    assert dots + [] + [] == dots;
  }

  /** Every offered name is of one of these two kinds. */
  lemma EveryName(name: string) returns (folder: string, before: string, base: string, after: string)
    ensures name == folder + before + base + after && IsFolder(folder) && IsDots(before) && IsDots(after)
    ensures IsPlain(base) || (base == [] && after == [])
  {
    var rest: string;
    folder, rest := SplitFolder(name);
    before, base, after := SplitDots(rest);
    assert folder + (before + base + after) == folder + before + base + after;
  }

  lemma {:induction false} SplitFolder(name: string) returns (folder: string, rest: string)
    ensures name == folder + rest && IsFolder(folder) && !HasSeparator(rest)
  {
    if IsFolder(name) {
      folder, rest := name, [];
    } else {
      var n := |name| - 1;
      folder, rest := SplitFolder(name[..n]);
      rest := rest + [name[n]];
    }
  }

  lemma {:induction false} SplitDots(s: string) returns (before: string, base: string, after: string)
    requires !HasSeparator(s)
    ensures s == before + base + after && IsDots(before) && IsDots(after)
    ensures IsPlain(base) || (base == [] && after == [])
    decreases |s|
  {
    if s == [] {
      before, base, after := [], [], [];
    } else if s[0] == '.' {
      before, base, after := SplitDots(s[1..]);
      before := ['.'] + before;
    } else if s[|s| - 1] == '.' {
      before, base, after := SplitDots(s[..|s| - 1]);
      assert (before + base + after)[0] == s[0];
      after := after + ['.'];
    } else {
      before, base, after := [], s, [];
    }
  }

  /** A sanitized name stays inside the download directory: it is a plain non-empty
      name, neither `.` nor `..`, and sanitizing it again changes nothing. */
  lemma SanitizeIsPlain(name: string)
    ensures
      var s := Sanitize(name);
      s != [] && '/' !in s && '\\' !in s && s[0] != '.' && s[|s| - 1] != '.' && Sanitize(s) == s
  {
    BaseNamePlain(name);
    TrimDotsPlain(BaseName(name));
    NoSeparator(Sanitize(name));
  }

  lemma PartIsNotFinal(name: string)
    ensures PartPath(name) != Sanitize(name)
  {
    assert |PartPath(name)| > |Sanitize(name)|;
  }

  lemma {:induction false} BaseNamePlain(s: string)
    ensures '/' !in BaseName(s) && '\\' !in BaseName(s)
  {
    if s != [] {
      BaseNamePlain(s[..|s| - 1]);
    }
  }

  lemma {:induction false} NoSeparator(s: string)
    requires '/' !in s && '\\' !in s
    ensures BaseName(s) == s
  {
    if s != [] {
      NoSeparator(s[..|s| - 1]);
    }
  }

  lemma {:induction false} TrimDotsPlain(s: string)
    ensures TrimDots(s) != [] ==> TrimDots(s)[0] != '.' && TrimDots(s)[|TrimDots(s)| - 1] != '.'
    ensures forall c | c in TrimDots(s) :: c in s
  {
    if s != [] {
      if s[0] == '.' {
        TrimDotsPlain(s[1..]);
      } else if s[|s| - 1] == '.' {
        TrimDotsPlain(s[..|s| - 1]);
      }
    }
  }

  // ---------------------------------------------------------------- messages that come twice, too early or too late

  /** A chunk that has been written has no effect when it comes again. */
  lemma ChunkTwice(m: Receiver, tid: string, offset: nat, data: Bytes, io: Io, again: Io)
    requires data != [] && io.wrote >= |data|
    requires tid in m.recvs ==> offset <= m.recvs[tid].written
    ensures var once := AfterChunk(m, tid, offset, data, io); AfterChunk(once, tid, offset, data, again) == once
  {
  }

  /** A chunk that comes too early is refused, and all else stays as it is. */
  lemma EarlyChunk(m: Receiver, tid: string, offset: nat, data: Bytes, io: Io)
    requires tid in m.recvs && offset > m.recvs[tid].written
    ensures AfterChunk(m, tid, offset, data, io) == m.(events := m.events + [Failed(tid, "chunk gap")])
  {
  }

  /** A chunk in order reports how much there is now; it is acked at the end, and
      otherwise when 256 KiB have come since the last ack. A write that fails is reported. */
  lemma ChunkAnswers(m: Receiver, tid: string, data: Bytes, io: Io)
    requires tid in m.recvs
    ensures
      var st := m.recvs[tid]; var m', total := AfterChunk(m, tid, st.written, data, io), st.written + |data|;
      if io.wrote >= |data| then
        && m'.events == m.events + [Progress(tid, total, st.size)]
        && m'.out == if total == st.size || total - st.lastAck >= 262144 then m.out + [Ack(tid, total)] else m.out
      else m'.events == m.events + [Failed(tid, "write")] && m'.out == m.out
  {
  }

  /** After a cancellation nothing that still comes for the transfer has an effect, until it
      is offered again; its `.part` and all other transfers stay. */
  lemma CancelEnds(sha: Bytes -> Bytes, m: Receiver, tid: string, reason: string, later: Msg, io: Io)
    requires later.tid == tid && (later.Chunk? || later.Complete? || later.Ack?)
    ensures
      var m' := Handle(sha, m, Cancel(tid, reason), io);
      && m'.disk == m.disk && m'.out == m.out && m'.recvs == m.recvs - {tid}
      && m'.events == m.events + [Failed(tid, reason)]
      && Handle(sha, m', later, io) == m'
  {
  }

  // ---------------------------------------------------------------- the manager

  /** The disk, shared by every manager that runs on this machine. */
  class FileSystem {
    var disk: Disk
    constructor (disk: Disk)
      ensures this.disk == disk
    {
      this.disk := disk;
    }
  }

  /** Shared between the manager and one outbound send thread. */
  class SendShared {
    var acked: nat
    var started: bool
    var cancel: bool
    constructor ()
      ensures acked == 0 && !started && !cancel
    {
      acked, started, cancel := 0, false, false;
    }
  }

  /** Read back the first `resume` bytes of a leftover, in reads of at most CHUNK
      bytes that may be short; stops early when no more than `readable` bytes come. */
  method HashPrefix(content: Bytes, resume: nat, readable: nat) returns (absorbed: Bytes)
    requires resume <= |content|
    ensures absorbed == content[..Min(resume, readable)]
  {
    absorbed := [];
    var left := resume;
    while left > 0
      invariant left + |absorbed| == resume && |absorbed| <= Min(resume, readable)
      invariant absorbed == content[..|absorbed|]
    {
      var want := Min(left, CHUNK);
      var available := Min(want, readable - |absorbed|);
      if available == 0 {
        break;
      }
      var n :| 1 <= n <= available;
      absorbed := absorbed + content[|absorbed|..|absorbed| + n];
      left := left - n;
    }
  }

  class FileTransfers {
    const sha: Bytes -> Bytes
    const fs: FileSystem
    var recvs: map<string, Recv>
    var sends: map<string, SendShared>
    var counter: nat
    var out: seq<Msg>
    var events: seq<Event>

    constructor (sha: Bytes -> Bytes, fs: FileSystem)
      ensures this.sha == sha && this.fs == fs && sends == map[] && counter == 0
      ensures State() == Receiver(map[], fs.disk, [], [])
    {
      this.sha, this.fs := sha, fs;
      recvs, sends, counter, out, events := map[], map[], 0, [], [];
    }

    ghost function State(): Receiver
      reads this, fs
    {
      Receiver(recvs, fs.disk, out, events)
    }

    /** Start sending: a fresh id, untouched shared state, and the offer. */
    method SendFile(name: string, size: nat) returns (tid: string, shared: SendShared)
      modifies this`sends, this`counter, this`out
      ensures counter == old(counter) + 1 && tid == TransferId(counter, name)
      ensures fresh(shared) && shared.acked == 0 && !shared.started && !shared.cancel
      ensures sends == old(sends)[tid := shared]
      ensures out == old(out) + [Offer(tid, name, size)]
    {
      counter := counter + 1;
      tid := TransferId(counter, name);
      shared := new SendShared();
      sends := sends[tid := shared];
      out := out + [Offer(tid, name, size)];
    }

    method Fail(tid: string, reason: string)
      modifies this`events
      ensures events == old(events) + [Failed(tid, reason)]
    {
      events := events + [Failed(tid, reason)];
    }

    method OnOffer(tid: string, name: string, size: nat, io: Io)
      modifies this`recvs, this`out, this`events, fs
      ensures State() == AfterOffer(old(State()), tid, name, size, io)
    {
      var finalPath, partPath := Sanitize(name), PartPath(name);
      if !io.mkdir {
        Fail(tid, "mkdir");
        return;
      }
      var existing := if io.stat then |fs.disk.Read(partPath)| else 0;
      var resume := Min(existing, size);
      var hasher: Bytes := [];
      if resume > 0 {
        hasher := HashPrefix(fs.disk.Read(partPath), resume, io.readable);
      }
      if !io.open {
        Fail(tid, "open .part");
        return;
      }
      fs.disk := fs.disk.Open(partPath);
      var file := fs.disk.names[partPath];
      if io.cut {
        fs.disk := fs.disk.SetLen(file, resume);
      }
      var pos := 0;
      if io.seek {
        pos := resume;
      }
      recvs := recvs[tid := Recv(file, pos, partPath, finalPath, resume, size, resume, hasher, resume - pos)];
      events := events + [Offered(tid, name, size)];
      out := out + [Ack(tid, resume)];
    }

    method OnChunk(tid: string, offset: nat, data: Bytes, io: Io)
      modifies this`recvs, this`out, this`events, fs
      ensures State() == AfterChunk(old(State()), tid, offset, data, io)
    {
      if tid !in recvs {
        return;
      }
      var st := recvs[tid];
      if offset != st.written {
        if offset < st.written {
          return;
        }
        Fail(tid, "chunk gap");
        return;
      }
      var wrote := Min(io.wrote, |data|);
      fs.disk := fs.disk.Write(st.file, st.pos, data[..wrote]);
      st := st.(pos := st.pos + wrote);
      recvs := recvs[tid := st];
      if wrote < |data| {
        Fail(tid, "write");
        return;
      }
      st := st.(absorbed := st.absorbed + data, written := st.written + |data|);
      recvs := recvs[tid := st];
      events := events + [Progress(tid, st.written, st.size)];
      if st.written - st.lastAck >= ACK_EVERY || st.written == st.size {
        recvs := recvs[tid := st.(lastAck := st.written)];
        out := out + [Ack(tid, st.written)];
      }
    }

    method OnComplete(tid: string, digest: Bytes, io: Io)
      modifies this`recvs, this`events, fs
      ensures State() == AfterComplete(sha, old(State()), tid, digest, io)
    {
      if tid !in recvs {
        return;
      }
      var st := recvs[tid];
      recvs := recvs - {tid};
      if st.written != st.size {
        Fail(tid, "short transfer");
        fs.disk := fs.disk.Remove(st.partPath);
        return;
      }
      if sha(st.absorbed) != digest {
        Fail(tid, "integrity check failed");
        fs.disk := fs.disk.Remove(st.partPath);
        return;
      }
      if !io.rename || st.partPath !in fs.disk.names {
        Fail(tid, "finalize");
        return;
      }
      fs.disk := fs.disk.Rename(st.partPath, st.finalPath);
      events := events + [Completed(tid, st.finalPath)];
    }

    /** An ack reaches the send thread through the shared object; an ack for an
        unknown or cancelled transfer has no effect. */
    method OnAck(tid: string, offset: nat)
      modifies if tid in sends then {sends[tid]} else {}
      ensures tid in sends ==> sends[tid].acked == offset && sends[tid].started && sends[tid].cancel == old(sends[tid].cancel)
    {
      if tid in sends {
        sends[tid].acked := offset;
        sends[tid].started := true;
      }
    }

    method OnCancel(tid: string, reason: string)
      modifies this`sends, this`recvs, this`events, if tid in sends then {sends[tid]} else {}
      ensures tid in old(sends) ==> old(sends)[tid].cancel
      ensures sends == old(sends) - {tid}
      ensures State() == AfterCancel(old(State()), tid, reason)
    {
      if tid in sends {
        sends[tid].cancel := true;
        sends := sends - {tid};
      }
      recvs := recvs - {tid};
      Fail(tid, reason);
    }

    /** Cancel on our own side: tell the peer, keep the `.part`. */
    method CancelTransfer(tid: string, reason: string)
      modifies this`sends, this`recvs, this`out, if tid in sends then {sends[tid]} else {}
      ensures tid in old(sends) ==> old(sends)[tid].cancel
      ensures sends == old(sends) - {tid}
      ensures State() == old(State()).(recvs := old(recvs) - {tid}, out := old(out) + [Cancel(tid, reason)])
    {
      if tid in sends {
        sends[tid].cancel := true;
        sends := sends - {tid};
      }
      recvs := recvs - {tid};
      out := out + [Cancel(tid, reason)];
    }
  }
}
