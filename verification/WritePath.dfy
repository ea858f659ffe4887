/** The buffered write path as a value: what each event does to the engine. */
module WritePath {
  // IO completes in any order and may fail; a write reaches the disk when it completes.

  import opened Types
  import opened Bytes
  import opened EntryFormat
  import opened IndexRule
  import opened Sequence
  import opened BufferRules
  import opened BufferRuns

  const FILE_HEADER: nat := PAGE_SIZE
  const MAX_BATCH: nat := 16
  /** The index entry holds file ids of 10 bits, page offsets of 21 and page counts of 16. */
  const FILE_IDS: nat := 0x400
  const PAGE_OFFSETS: nat := 0x20_0000
  const PAGE_COUNTS: nat := 0x1_0000

  datatype Config = Config(fileSize: nat, tagOf: Key -> u8, crc: Checksum)

  datatype Status = Success | NoSpace | IoError | InternalError

  datatype Answer = Answer(id: nat, status: Status)

  /** A stretch of pages of a blob. */
  datatype Span = Span(blob: nat, first: nat, pages: nat)

  datatype File = File(id: nat, blob: nat, isSealed: bool, end: nat, isOpen: bool)

  /** A record in an append buffer. */
  datatype PendingWrite = PendingWrite(id: nat, key: Key, sequence: u32, offset: nat, pages: u16, tag: u8)

  /** A record in a buffer of its own, waiting for backpressure to end or for a file. */
  datatype Queued = Queued(id: nat, key: Key, data: seq<Byte>, size: u32, sequence: u32, pages: u16, tag: u8)

  /** A write in flight: that of an append buffer, or that of one record. */
  datatype Io =
    | BufferIo(buffer: nat, fileId: nat, base: u32, span: Span)
    | DirectIo(id: nat, fileId: nat, entry: IndexEntry, span: Span, data: seq<Byte>)

  /** A record whose write has completed, with the index entry it gets. */
  datatype Landing = Landing(id: nat, fileId: nat, entry: IndexEntry, span: Span)

  /** Where the record an index entry stands for was written. */
  datatype Home = Home(id: nat, fileId: nat, span: Span)

  type PageBytes = s: seq<Byte> | |s| == PAGE_SIZE witness Zeros(PAGE_SIZE)

  /** What the pages of the blobs hold. */
  type Disk = map<(nat, nat), PageBytes>

  /**
   The engine. The requests accepted so far, by their number, and the homes of the index entries are history:
   no step depends on them.
   */
  datatype State = State(
    files: seq<File>,
    nextFileId: nat,
    nextBlob: nat,
    activeId: nat,
    allocating: Option<nat>,
    m: Manager,
    contents: seq<seq<Byte>>,
    pend: seq<seq<PendingWrite>>,
    waitQ: seq<Queued>,
    pendQ: seq<Queued>,
    ios: seq<Io>,
    foreground: int,
    index: Index,
    sequence: u32,
    disk: Disk,
    answers: seq<Answer>,
    requests: seq<Rec>,
    homes: map<Key, Home>)

  ghost predicate WellFormed(s: State) {
    && IdsOk(s.m) && |s.contents| == |s.pend| == |s.m.buffers|
    && (forall i :: 0 <= i < |s.ios| && s.ios[i].BufferIo? ==> s.ios[i].buffer < |s.m.buffers|)
    && (s.allocating.Some? ==> s.allocating.value < |s.files|)
  }

  // ---------------------------------------------------------------------------------------------
  // The disk
  // ---------------------------------------------------------------------------------------------

  function Page(data: seq<Byte>, k: nat): PageBytes
    requires (k + 1) * PAGE_SIZE <= |data|
  {
    data[k * PAGE_SIZE..(k + 1) * PAGE_SIZE]
  }

  /** The first n pages of the data written at a span. */
  function WriteTo(disk: Disk, at: Span, data: seq<Byte>, n: nat): Disk
    requires n * PAGE_SIZE <= |data|
  {
    if n == 0 then disk else WriteTo(disk, at, data, n - 1)[(at.blob, at.first + n - 1) := Page(data, n - 1)]
  }

  /** A page nobody wrote reads as zeros. */
  function ReadPage(disk: Disk, blob: nat, page: nat): PageBytes {
    if (blob, page) in disk then disk[(blob, page)] else Zeros(PAGE_SIZE)
  }

  function ReadTo(disk: Disk, at: Span, n: nat): (r: seq<Byte>)
    ensures |r| == n * PAGE_SIZE
  {
    if n == 0 then [] else ReadTo(disk, at, n - 1) + ReadPage(disk, at.blob, at.first + n - 1)
  }

  // ---------------------------------------------------------------------------------------------
  // Files
  // ---------------------------------------------------------------------------------------------

  /** The position of the first file with an id. */
  function FileAt(files: seq<File>, id: nat): (r: Option<nat>)
    ensures r.Some? ==> r.value < |files| && files[r.value].id == id
  {
    if files == [] then None else
      match FileAt(files[..|files| - 1], id)
      case Some(i) => Some(i)
      case None => if files[|files| - 1].id == id then Some(|files| - 1) else None
  }

  /** There is no open active file with room for size more bytes. */
  predicate NeedsFile(s: State, cfg: Config, size: nat) {
    match FileAt(s.files, s.activeId)
    case None => true
    case Some(i) => !s.files[i].isOpen || s.files[i].end + size > cfg.fileSize
  }

  function SealActive(s: State): (r: State)
    requires WellFormed(s)
    ensures WellFormed(r)
  {
    match FileAt(s.files, s.activeId)
    case None => s
    case Some(i) => s.(files := s.files[i := s.files[i].(isSealed := true)])
  }

  function AddFile(s: State, isOpen: bool): (r: State)
    requires WellFormed(s)
    ensures WellFormed(r)
  {
    s.(files := s.files + [File(s.nextFileId, s.nextBlob, false, FILE_HEADER, isOpen)],
       nextFileId := s.nextFileId + 1, nextBlob := s.nextBlob + 1)
  }

  /** The stretch of pages that a write of size bytes takes at the end of file i. */
  function SpanAtEnd(s: State, i: nat, size: nat): Span
    requires i < |s.files|
  {
    Span(s.files[i].blob, s.files[i].end / PAGE_SIZE, size / PAGE_SIZE)
  }

  function Extend(s: State, i: nat, size: nat): (r: State)
    requires WellFormed(s) && i < |s.files|
    ensures WellFormed(r)
  {
    s.(files := s.files[i := s.files[i].(end := s.files[i].end + size)])
  }

  // ---------------------------------------------------------------------------------------------
  // A request
  // ---------------------------------------------------------------------------------------------

  /** Memory with data written over it at an offset. */
  function Overwrite(memory: seq<Byte>, at: nat, data: seq<Byte>): (r: seq<Byte>)
    ensures |r| >= at + |data|
  {
    (if at <= |memory| then memory[..at] else memory + Zeros(at - |memory|)) + data
      + (if at + |data| <= |memory| then memory[at + |data|..] else [])
  }

  /** A manager with more buffers: the engine's lists grow with them. */
  function WithManager(s: State, m: Manager): (r: State)
    requires WellFormed(s) && IdsOk(m) && |s.m.buffers| <= |m.buffers|
    ensures WellFormed(r) && r.m == m
  {
    var more := |m.buffers| - |s.m.buffers|;
    s.(m := m, contents := s.contents + seq(more, _ => []), pend := s.pend + seq(more, _ => []))
  }

  function NextSequence(s: State): u32 {
    (s.sequence + 1) % TWO32
  }

  /** The record of the next request, which becomes part of the history. */
  function Accept(s: State, key: Key, value: seq<Byte>): (r: State)
    requires WellFormed(s)
    ensures WellFormed(r)
  {
    s.(sequence := NextSequence(s), requests := s.requests + [Rec(key, NextSequence(s), false, value)])
  }

  /** The record goes into the active buffer at the offset reserved for it. */
  function Buffered(s: State, cfg: Config, at: nat): (r: State)
    requires WellFormed(s) && s.m.active.Some? && s.requests != []
    ensures WellFormed(r)
  {
    var id, b := |s.requests| - 1, s.m.active.value;
    var rec := s.requests[id];
    s.(contents := s.contents[b := Overwrite(s.contents[b], at, Build(rec, cfg.crc))],
       pend := s.pend[b := s.pend[b] + [PendingWrite(id, rec.key, rec.sequence, at,
                                                     Size(rec) / PAGE_SIZE % PAGE_COUNTS, cfg.tagOf(rec.key))]])
  }

  /** The record goes into a buffer of its own, at the end of the wait queue. */
  function Waiting(s: State, cfg: Config): (r: State)
    requires WellFormed(s) && s.requests != []
    ensures WellFormed(r)
  {
    var id := |s.requests| - 1;
    var rec := s.requests[id];
    s.(waitQ := s.waitQ + [Queued(id, rec.key, Build(rec, cfg.crc), Size(rec) % TWO32, rec.sequence,
                                  Size(rec) / PAGE_SIZE % PAGE_COUNTS, cfg.tagOf(rec.key))])
  }

  function Flush(s: State): (r: State)
    requires WellFormed(s)
    ensures WellFormed(r)
  {
    s.(m := SubmitCurrent(s.m))
  }

  lemma ReserveShape(m: Manager, len: nat, memory: bool)
    requires IdsOk(m)
    ensures var (m', at, _) := ReserveReporting(m, len, memory);
      && IdsOk(m') && |m.buffers| <= |m'.buffers| && (at.Some? ==> m'.active.Some?)
      && ReserveWithBackpressure(m, len, memory) == (m', at)
  {
    BackpressureKeepsIds(m, memory);
  }

  /** The request waits, if memory for its record can be had; otherwise it is refused. */
  function PutAside(s: State, cfg: Config, key: Key, value: seq<Byte>, dma: bool): (r: State)
    requires WellFormed(s)
    ensures WellFormed(r)
  {
    if dma then Waiting(Accept(s, key, value), cfg) else s
  }

  /** The request goes into the active buffer, which is submitted if that fills it. */
  function PutInBuffer(s: State, cfg: Config, key: Key, value: seq<Byte>, at: nat): (r: State)
    requires WellFormed(s) && s.m.active.Some?
    ensures WellFormed(r)
  {
    var s1 := Buffered(Accept(s, key, value), cfg, at);
    if s1.m.buffers[s1.m.active.value].IsFull() then Flush(s1) else s1
  }

  /**
   A put of a value: refused if the value is empty or memory for a queued record cannot be had. A reservation
   that fails reports backpressure, so the request is queued whatever the reason.
   */
  function PutBuffered(s: State, cfg: Config, key: Key, value: seq<Byte>, memory: bool, dma: bool): (r: State)
    requires WellFormed(s)
    ensures WellFormed(r)
  {
    if value == [] then s else
      ReserveShape(s.m, SizeFor(|value|), memory);
      var (m1, at) := ReserveWithBackpressure(s.m, SizeFor(|value|), memory);
      var s1 := WithManager(s, m1);
      if at == None then PutAside(s1, cfg, key, value, dma) else PutInBuffer(s1, cfg, key, value, at.value)
  }

  /** The put with all its branches: one is for a buffer that is full without backpressure. */
  function PutWithRetry(s: State, cfg: Config, key: Key, value: seq<Byte>, memory: bool, again: bool, dma: bool): State
    requires WellFormed(s)
  {
    if value == [] then s else
      var size := SizeFor(|value|);
      ReserveShape(s.m, size, memory);
      var (m1, at, error) := ReserveReporting(s.m, size, memory);
      var s1 := WithManager(s, m1);
      if at.Some? then PutInBuffer(s1, cfg, key, value, at.value)
      else if error == BACKPRESSURE then PutAside(s1, cfg, key, value, dma)
      else
        var s2 := Flush(s1);
        ReserveShape(s2.m, size, again);
        var (m2, at2, _) := ReserveReporting(s2.m, size, again);
        var s3 := WithManager(s2, m2);
        if at2.Some? then PutInBuffer(s3, cfg, key, value, at2.value) else PutAside(s3, cfg, key, value, dma)
  }

  /** That branch is never taken. */
  lemma RetryIsNeverTaken(s: State, cfg: Config, key: Key, value: seq<Byte>, memory: bool, again: bool, dma: bool)
    requires WellFormed(s)
    ensures PutWithRetry(s, cfg, key, value, memory, again, dma) == PutBuffered(s, cfg, key, value, memory, dma)
  {
    hide ReserveReporting, ReserveWithBackpressure, WithManager, Buffered, Waiting, Accept, Flush;
    FailureIsBackpressure(s.m, SizeFor(|value|), memory);
  }

  // ---------------------------------------------------------------------------------------------
  // Submitting append buffers
  // ---------------------------------------------------------------------------------------------

  function Answers(pws: seq<PendingWrite>, status: Status): (r: seq<Answer>)
    ensures |r| == |pws|
  {
    seq(|pws|, i requires 0 <= i < |pws| => Answer(pws[i].id, status))
  }

  function QueueAnswers(qs: seq<Queued>, status: Status): (r: seq<Answer>)
    ensures |r| == |qs|
  {
    seq(|qs|, i requires 0 <= i < |qs| => Answer(qs[i].id, status))
  }

  /** All requests of a buffer are answered with an error, and the buffer is returned. */
  function FailBuffer(s: State, b: nat): (r: State)
    requires WellFormed(s) && b < |s.m.buffers|
    ensures WellFormed(r)
  {
    s.(answers := s.answers + Answers(s.pend[b], NoSpace), pend := s.pend[b := []], m := ReturnBuffer(s.m, b))
  }

  /** The used part of a buffer is written at the end of file i. */
  function LaunchBuffer(s: State, b: nat, i: nat): (r: State)
    requires WellFormed(s) && b < |s.m.buffers| && i < |s.files|
    ensures WellFormed(r)
  {
    var used := s.m.buffers[b].used;
    var span := SpanAtEnd(s, i, used);
    Extend(s, i, used).(ios := s.ios + [BufferIo(b, s.files[i].id, span.first % TWO32, span)],
                        foreground := s.foreground + 1)
  }

  /** alloc tells whether a new file can be had if one is needed. */
  function SubmitBuffer(s: State, cfg: Config, b: nat, alloc: bool): (r: State)
    requires WellFormed(s) && b < |s.m.buffers|
    ensures WellFormed(r) && |r.m.buffers| == |s.m.buffers|
  {
    if s.m.buffers[b].used == 0 then s
    else if !NeedsFile(s, cfg, s.m.buffers[b].used) then LaunchBuffer(s, b, FileAt(s.files, s.activeId).value)
    else if !alloc then FailBuffer(SealActive(s), b)
    else
      var s1 := AddFile(SealActive(s), true);
      LaunchBuffer(s1.(activeId := s.nextFileId), b, |s.files|)
  }

  function SubmitTo(s: State, cfg: Config, batch: seq<nat>, allocs: seq<bool>, n: nat): (r: State)
    requires WellFormed(s) && n <= |batch| && forall i :: 0 <= i < |batch| ==> batch[i] < |s.m.buffers|
    ensures WellFormed(r) && |r.m.buffers| == |s.m.buffers|
  {
    if n == 0 then s else
      SubmitBuffer(SubmitTo(s, cfg, batch, allocs, n - 1), cfg, batch[n - 1], n <= |allocs| && allocs[n - 1])
  }

  /** The poll's batch: up to 16 buffers leave the submit ring and are written. */
  function SubmitPending(s: State, cfg: Config, allocs: seq<bool>): (r: State)
    requires WellFormed(s)
    ensures WellFormed(r)
  {
    var (m1, batch) := TakePending(s.m, MAX_BATCH);
    SubmitTo(s.(m := m1), cfg, batch, allocs, |batch|)
  }

  // ---------------------------------------------------------------------------------------------
  // IO completions
  // ---------------------------------------------------------------------------------------------

  function LandingOf(io: Io, pw: PendingWrite): Landing
    requires io.BufferIo?
  {
    var page := pw.offset / PAGE_SIZE;
    Landing(pw.id, io.fileId,
            IndexEntry(pw.key, io.fileId % FILE_IDS, (io.base + page) % PAGE_OFFSETS, false, pw.sequence, pw.pages,
                pw.tag),
            Span(io.span.blob, io.span.first + page, pw.pages))
  }

  /** The records a completed write was for. */
  function LandingsOf(s: State, io: Io): (r: seq<Landing>)
    requires io.BufferIo? ==> io.buffer < |s.pend|
  {
    if io.DirectIo? then [Landing(io.id, io.fileId, io.entry, io.span)]
    else seq(|s.pend[io.buffer]|, i requires 0 <= i < |s.pend[io.buffer]| => LandingOf(io, s.pend[io.buffer][i]))
  }

  /** The bytes a write writes: for an append buffer what the buffer holds by then. */
  function DataOf(s: State, io: Io): seq<Byte>
    requires io.BufferIo? ==> io.buffer < |s.contents|
  {
    if io.DirectIo? then io.data else s.contents[io.buffer]
  }

  /** The disk after a failed write: anything may be on the pages it was to write. */
  function Scribble(disk: Disk, at: Span, junk: Disk): Disk {
    disk + map p | p in junk && p.0 == at.blob && at.first <= p.1 < at.first + at.pages :: junk[p]
  }

  /** One record is indexed if its write succeeded, and its request is answered. */
  function Land(s: State, l: Landing, ok: bool): (r: State)
    requires WellFormed(s)
    ensures WellFormed(r)
  {
    var key := l.entry.key;
    var kept := !ok || (key in s.index && !SequenceNewer(l.entry.sequence, s.index[key].sequence));
    s.(index := if ok then Upsert(s.index, key, l.entry) else s.index,
       homes := if kept then s.homes else s.homes[key := Home(l.id, l.fileId, l.span)],
       answers := s.answers + [Answer(l.id, if ok then Success else IoError)])
  }

  function LandTo(s: State, ls: seq<Landing>, ok: bool, n: nat): (r: State)
    requires WellFormed(s) && n <= |ls|
    ensures WellFormed(r) && r.m == s.m
  {
    if n == 0 then s else Land(LandTo(s, ls, ok, n - 1), ls[n - 1], ok)
  }

  function WithoutIo(ios: seq<Io>, i: nat): seq<Io>
    requires i < |ios|
  {
    ios[..i] + ios[i + 1..]
  }

  /** Leaving out a write that is not the last keeps the last one where it is. */
  lemma WithoutLast(ios: seq<Io>, i: nat)
    requires i < |ios| - 1
    ensures var n := |ios| - 1; WithoutIo(ios, i) == WithoutIo(ios[..n], i) + [ios[n]]
  {
    var n := |ios| - 1;
    var front := ios[..n];
    assert ios[..i] == front[..i];
    assert ios[i + 1..] == front[i + 1..] + [ios[n]];
  }

  function Returned(s: State, b: nat): (r: State)
    requires WellFormed(s) && b < |s.m.buffers|
    ensures WellFormed(r)
  {
    s.(m := ReturnBuffer(s.m, b))
  }

  /** A write succeeds only within the blob, and with all the bytes it was to write. */
  predicate CanSucceed(s: State, cfg: Config, i: nat)
    requires WellFormed(s) && i < |s.ios|
  {
    var at := s.ios[i].span;
    (at.first + at.pages) * PAGE_SIZE <= cfg.fileSize && at.pages * PAGE_SIZE <= |DataOf(s, s.ios[i])|
  }

  /** Write i leaves the flight; on success its bytes are on the disk. Its records are yet to be landed. */
  function Detach(s: State, cfg: Config, i: nat, ok: bool, junk: Disk): (r: State)
    requires WellFormed(s) && i < |s.ios| && (ok ==> CanSucceed(s, cfg, i))
    ensures WellFormed(r) && r.m == s.m
  {
    var io := s.ios[i];
    s.(ios := WithoutIo(s.ios, i), foreground := s.foreground - 1,
       disk := if ok then WriteTo(s.disk, io.span, DataOf(s, io), io.span.pages) else Scribble(s.disk, io.span, junk),
       pend := if io.BufferIo? then s.pend[io.buffer := []] else s.pend)
  }

  function Complete(s: State, cfg: Config, i: nat, ok: bool, junk: Disk): (r: State)
    requires WellFormed(s) && i < |s.ios| && (ok ==> CanSucceed(s, cfg, i))
    ensures WellFormed(r)
  {
    var io, ls := s.ios[i], LandingsOf(s, s.ios[i]);
    var s1 := LandTo(Detach(s, cfg, i, ok, junk), ls, ok, |ls|);
    if io.BufferIo? then Returned(s1, io.buffer) else s1
  }

  // ---------------------------------------------------------------------------------------------
  // The wait queue and new files
  // ---------------------------------------------------------------------------------------------

  /** A queued record is written at the end of file i. */
  function LaunchDirect(s: State, q: Queued, i: nat): (r: State)
    requires WellFormed(s) && i < |s.files|
    ensures WellFormed(r)
  {
    var span := SpanAtEnd(s, i, q.size);
    var entry := IndexEntry(q.key, s.files[i].id % FILE_IDS, span.first % PAGE_OFFSETS, false, q.sequence, q.pages,
        q.tag);
    Extend(s, i, q.size).(ios := s.ios + [DirectIo(q.id, s.files[i].id, entry, span, q.data)],
                          foreground := s.foreground + 1)
  }

  /** The record waits for the file that is being allocated; the first to do so starts that. */
  function AwaitFile(s: State, q: Queued): (r: State)
    requires WellFormed(s)
    ensures WellFormed(r)
  {
    var s1 := s.(pendQ := s.pendQ + [q]);
    if s.allocating.Some? then s1 else AddFile(SealActive(s1), false).(allocating := Some(|s.files|))
  }

  function Drain(s: State, cfg: Config): (r: State)
    requires WellFormed(s)
    ensures WellFormed(r)
    decreases |s.waitQ|
  {
    if s.waitQ == [] then s else
      var q, s1 := s.waitQ[0], s.(waitQ := s.waitQ[1..]);
      Drain(if NeedsFile(s1, cfg, q.size) || s1.allocating.Some? then AwaitFile(s1, q)
            else LaunchDirect(s1, q, FileAt(s1.files, s1.activeId).value), cfg)
  }

  function ProcessWaitQueue(s: State, cfg: Config): (r: State)
    requires WellFormed(s)
    ensures WellFormed(r)
  {
    if s.m.backpressure then s else Drain(s, cfg)
  }

  function LaunchTo(s: State, qs: seq<Queued>, i: nat, n: nat): (r: State)
    requires WellFormed(s) && i < |s.files| && n <= |qs|
    ensures WellFormed(r) && |r.files| == |s.files|
  {
    if n == 0 then s else LaunchDirect(LaunchTo(s, qs, i, n - 1), qs[n - 1], i)
  }

  /** All records waiting for a file are written to the active one, without a check that they fit. */
  function FlushQueue(s: State): (r: State)
    requires WellFormed(s)
    ensures WellFormed(r)
  {
    match FileAt(s.files, s.activeId)
    case Some(i) =>
      if s.files[i].isOpen then LaunchTo(s.(pendQ := []), s.pendQ, i, |s.pendQ|)
      else s.(answers := s.answers + QueueAnswers(s.pendQ, InternalError), pendQ := [])
    case None => s.(answers := s.answers + QueueAnswers(s.pendQ, InternalError), pendQ := [])
  }

  /** The last file is taken back, whichever it is, and the waiting requests are answered. */
  function AllocationFailed(s: State): (r: State)
    requires WellFormed(s) && s.allocating.Some? && s.nextFileId > 0
    ensures WellFormed(r)
  {
    s.(allocating := None, files := s.files[..|s.files| - 1], nextFileId := s.nextFileId - 1,
       answers := s.answers + QueueAnswers(s.pendQ, NoSpace), pendQ := [])
  }

  /** The new file is open; the last file, whichever it is, becomes the active one. */
  function AllocationDone(s: State): (r: State)
    requires WellFormed(s) && s.allocating.Some?
    ensures WellFormed(r)
  {
    var at := s.allocating.value;
    FlushQueue(s.(allocating := None, files := s.files[at := s.files[at].(isOpen := true)],
                  activeId := s.files[|s.files| - 1].id))
  }

  // ---------------------------------------------------------------------------------------------
  // Reading
  // ---------------------------------------------------------------------------------------------

  datatype GetResult = Found(value: seq<Byte>) | NotFound | ReadError | Corrupt | TooLarge | PastBuffer

  /** What a read finds for an index entry; PastBuffer is a record whose value does not lie within the pages read. */
  function GetFrom(found: Option<IndexEntry>, s: State, room: nat): GetResult {
    match found
    case None => NotFound
    case Some(e) =>
      match FileAt(s.files, e.fileId)
      case None => ReadError
      case Some(i) =>
        if !s.files[i].isOpen then ReadError else
          var data := ReadTo(s.disk, Span(s.files[i].blob, e.offsetIndex, e.pageCount), e.pageCount);
          if |data| < PREFIX_SIZE then PastBuffer
          else if MagicAt(data, 0) != ENTRY_MAGIC then Corrupt
          else if LengthAt(data, 0) > room then TooLarge
          else if PREFIX_SIZE + LengthAt(data, 0) > |data| then PastBuffer
          else Found(data[PREFIX_SIZE..PREFIX_SIZE + LengthAt(data, 0)])
  }

  function Get(s: State, key: Key, room: nat): GetResult {
    GetFrom(Find(s.index, key), s, room)
  }

  // ---------------------------------------------------------------------------------------------
  // Events
  // ---------------------------------------------------------------------------------------------

  datatype Event =
    | Putting(key: Key, value: seq<Byte>, memory: bool, dma: bool)
    | Flushing
    | SubmittingPending(allocs: seq<bool>)
    | Completing(i: nat, ok: bool, junk: Disk)
    | ProcessingWaitQueue
    | Allocated(ok: bool)

  ghost predicate Enabled(s: State, cfg: Config, e: Event)
    requires WellFormed(s)
  {
    match e
    case Putting(_, value, _, _) => |value| < TWO32
    case Completing(i, ok, _) => i < |s.ios| && (ok ==> CanSucceed(s, cfg, i))
    case Allocated(ok) => s.allocating.Some? && s.nextFileId > 0
    case _ => true
  }

  function Step(s: State, cfg: Config, e: Event): (r: State)
    requires WellFormed(s) && Enabled(s, cfg, e)
    ensures WellFormed(r)
  {
    match e
    case Putting(key, value, memory, dma) => PutBuffered(s, cfg, key, value, memory, dma)
    case Flushing => Flush(s)
    case SubmittingPending(allocs) => SubmitPending(s, cfg, allocs)
    case Completing(i, ok, junk) => Complete(s, cfg, i, ok, junk)
    case ProcessingWaitQueue => ProcessWaitQueue(s, cfg)
    case Allocated(ok) => if ok then AllocationDone(s) else AllocationFailed(s)
  }
}
