/** The write path in place: the engine's fields and the methods that update them. */
module WritePathEngine {
  import opened Types
  import opened Bytes
  import opened EntryFormat
  import opened IndexRule
  import opened Sequence
  import opened BufferRules
  import BufferRuns
  import opened WritePath
  import opened WritePathInvariant
  import opened WritePathRuns
  import opened WritePathReads
  import WritePathRequests
  import WritePathResults

  class Engine {
    const cfg: Config
    var files: seq<File>
    var nextFileId: nat
    var nextBlob: nat
    var activeId: nat
    var allocating: Option<nat>
    var buffers: Manager
    var contents: seq<seq<Byte>>
    var pend: seq<seq<PendingWrite>>
    var waitQ: seq<Queued>
    var pendQ: seq<Queued>
    var ios: seq<Io>
    var foreground: int
    var index: Index
    var sequence: u32
    var disk: Disk
    var answers: seq<Answer>
    /** Names the requests in place of their callbacks. */
    var accepted: nat
    ghost var requests: seq<Rec>
    ghost var homes: map<Key, Home>

    ghost function Value(): State
      reads this
    {
      State(files, nextFileId, nextBlob, activeId, allocating, buffers, contents, pend, waitQ, pendQ, ios, foreground,
            index, sequence, disk, answers, requests, homes)
    }

    ghost predicate Valid()
      reads this
      ensures Valid() ==> WellFormed(Value())
    {
      WellFormed(Value()) && accepted == |requests|
    }

    constructor (cfg: Config, bufferSize: nat, count: nat)
      requires 0 < count <= MAX_BUFFERS
      ensures this.cfg == cfg && Valid() && Value() == WritePathResults.Start(bufferSize, count, 0)
    {
      this.cfg := cfg;
      files, nextFileId, nextBlob, activeId, allocating := [File(0, 0, false, FILE_HEADER, true)], 1, 1, 0, None;
      buffers := Initialize(bufferSize, count);
      contents, pend := seq(count, _ => []), seq(count, _ => []);
      waitQ, pendQ, ios, foreground := [], [], [], 0;
      index, sequence, disk, answers, accepted := map[], 0, map[], [], 0;
      requests, homes := [], map[];
      new;
      assert Value() == WritePathResults.Start(bufferSize, count, 0);
    }

    // -------------------------------------------------------------------------------------------
    // Files
    // -------------------------------------------------------------------------------------------

    /** The position of the first file with an id. */
    method GetFile(id: nat) returns (r: Option<nat>)
      ensures r == FileAt(files, id)
    {
      for i := 0 to |files|
        invariant FileAt(files[..i], id) == None
      {
        assert files[..i + 1][..i] == files[..i];
        if files[i].id == id {
          FirstFound(files, id, i);
          return Some(i);
        }
      }
      assert files[..|files|] == files;
      return None;
    }

    lemma {:induction false} FirstFound(files: seq<File>, id: nat, i: nat)
      requires i < |files| && FileAt(files[..i], id) == None && files[i].id == id
      ensures FileAt(files, id) == Some(i)
      decreases |files|
    {
      var n := |files| - 1;
      if i < n {
        assert files[..n][..i] == files[..i];
        FirstFound(files[..n], id, i);
      }
    }

    /** The active file, and whether another is needed to write size bytes. */
    method CheckFile(size: nat) returns (need: bool, file: Option<nat>)
      ensures need == NeedsFile(Value(), cfg, size) && file == FileAt(files, activeId)
    {
      file := GetFile(activeId);
      need := file == None || !files[file.value].isOpen || files[file.value].end + size > cfg.fileSize;
    }

    method Seal(file: Option<nat>)
      requires Valid() && file == FileAt(files, activeId)
      modifies `files
      ensures Valid() && Value() == SealActive(old(Value()))
    {
      if file.Some? {
        files := files[file.value := files[file.value].(isSealed := true)];
      }
    }

    method PushFile(isOpen: bool)
      requires Valid()
      modifies `files, `nextFileId, `nextBlob
      ensures Valid() && Value() == AddFile(old(Value()), isOpen)
    {
      files := files + [File(nextFileId, nextBlob, false, FILE_HEADER, isOpen)];
      nextFileId, nextBlob := nextFileId + 1, nextBlob + 1;
    }

    // -------------------------------------------------------------------------------------------
    // Puts
    // -------------------------------------------------------------------------------------------

    /** Runs the backpressure check and the reservation, and makes room for the lists of a new buffer. */
    method ReserveSpace(size: nat, memory: bool) returns (at: Option<nat>)
      requires Valid()
      modifies `buffers, `contents, `pend
      ensures Valid()
      ensures var (m1, r) := BufferRuns.ReserveWithBackpressure(old(buffers), size, memory);
        && IdsOk(m1) && |old(buffers).buffers| <= |m1.buffers|
        && at == r && Value() == WithManager(old(Value()), m1)
    {
      ReserveShape(buffers, size, memory);
      hide BufferRuns.ReserveWithBackpressure;
      var was := |buffers.buffers|;
      var (m1, r) := BufferRuns.ReserveWithBackpressure(buffers, size, memory);
      at := r;
      buffers := m1;
      var more := |m1.buffers| - was;
      contents, pend := contents + seq(more, _ => []), pend + seq(more, _ => []);
    }

    method AllocateSequence() returns (next: u32)
      modifies `sequence
      ensures next == sequence == NextSequence(old(Value()))
    {
      sequence := if sequence + 1 == TWO32 then 0 else sequence + 1;
      next := sequence;
    }

    /** Gives the request the next sequence number. */
    method AcceptRequest(key: Key, value: seq<Byte>) returns (id: nat, rec: Rec)
      requires Valid()
      modifies `sequence, `accepted, `requests
      ensures Valid() && Value() == Accept(old(Value()), key, value)
      ensures id == |requests| - 1 && rec == requests[id]
    {
      id := accepted;
      var s := AllocateSequence();
      rec := Rec(key, s, false, value);
      accepted := accepted + 1;
      requests := requests + [rec];
    }

    /** The record goes into a buffer of its own, at the end of the wait queue. */
    method QueueRecord(id: nat, rec: Rec)
      requires Valid() && requests != [] && id == |requests| - 1 && rec == requests[id]
      modifies `waitQ
      ensures Valid() && Value() == Waiting(old(Value()), cfg)
    {
      hide Build, Size;
      waitQ := waitQ + [Queued(id, rec.key, Build(rec, cfg.crc), Size(rec) % TWO32, rec.sequence,
                               Size(rec) / PAGE_SIZE % PAGE_COUNTS, cfg.tagOf(rec.key))];
    }

    /** The record goes into the active buffer, at the place reserved for it. */
    method BufferRecord(id: nat, rec: Rec, at: nat)
      requires Valid() && requests != [] && id == |requests| - 1 && rec == requests[id] && buffers.active.Some?
      modifies `contents, `pend
      ensures Valid() && Value() == Buffered(old(Value()), cfg, at)
    {
      hide Build, Overwrite, Size;
      var b := buffers.active.value;
      contents := contents[b := Overwrite(contents[b], at, Build(rec, cfg.crc))];
      pend := pend[b := pend[b] + [PendingWrite(id, rec.key, rec.sequence, at, Size(rec) / PAGE_SIZE % PAGE_COUNTS,
                                                cfg.tagOf(rec.key))]];
    }

    /** A put is refused at once if its value is empty or memory for a queued record cannot be had. */
    method Put(key: Key, value: seq<Byte>, memory: bool, dma: bool) returns (refused: bool)
      requires Valid()
      modifies this
      ensures Valid() && Value() == PutBuffered(old(Value()), cfg, key, value, memory, dma)
      ensures refused <==> |requests| == |old(requests)|
    {
      hide BufferRuns.ReserveWithBackpressure, Waiting, Buffered, WithManager;
      if value == [] {
        return true;
      }
      var size := SizeFor(|value|);
      ReserveShape(buffers, size, memory);
      var at := ReserveSpace(size, memory);
      if at == None && !dma {
        return true;
      }
      var id, rec := AcceptRequest(key, value);
      if at == None {
        QueueRecord(id, rec);
      } else {
        BufferRecord(id, rec, at.value);
        if buffers.buffers[buffers.active.value].used >= FLUSH_THRESHOLD {
          FlushCurrent();
        }
      }
      return false;
    }

    method FlushCurrent()
      requires Valid()
      modifies `buffers
      ensures Valid() && Value() == Flush(old(Value()))
    {
      buffers := SubmitCurrent(buffers);
    }

    // -------------------------------------------------------------------------------------------
    // Submitting append buffers
    // -------------------------------------------------------------------------------------------

    /** Answers every request of a buffer with an error and returns the buffer. */
    method FailAll(b: nat)
      requires Valid() && b < |buffers.buffers|
      modifies `answers, `pend, `buffers
      ensures Valid() && Value() == FailBuffer(old(Value()), b)
    {
      ghost var was := Value();
      var pws := pend[b];
      for i := 0 to |pws|
        invariant Valid() && Value() == was.(answers := was.answers + Answers(pws, NoSpace)[..i])
      {
        answers := answers + [Answer(pws[i].id, NoSpace)];
      }
      assert answers == was.answers + Answers(pws, NoSpace);
      pend := pend[b := []];
      buffers := ReturnBuffer(buffers, b);
      assert Value() == FailBuffer(was, b);
    }

    /** Writes the used part of a buffer at the end of a file. */
    method StartBufferWrite(b: nat, i: nat)
      requires Valid() && b < |buffers.buffers| && i < |files|
      modifies `files, `ios, `foreground
      ensures Valid() && Value() == LaunchBuffer(old(Value()), b, i)
    {
      var used, f := buffers.buffers[b].used, files[i];
      var page := f.end / PAGE_SIZE;
      files := files[i := f.(end := f.end + used)];
      foreground := foreground + 1;
      ios := ios + [BufferIo(b, f.id, page % TWO32, Span(f.blob, page, used / PAGE_SIZE))];
    }

    method SubmitBufferIo(b: nat, alloc: bool)
      requires Valid() && b < |buffers.buffers|
      modifies this
      ensures Valid() && Value() == SubmitBuffer(old(Value()), cfg, b, alloc)
      ensures |buffers.buffers| == |old(buffers).buffers|
    {
      if buffers.buffers[b].used == 0 {
        return;
      }
      hide FileAt;
      var need, file := CheckFile(buffers.buffers[b].used);
      if need {
        Seal(file);
        if !alloc {
          FailAll(b);
          return;
        }
        PushFile(true);
        activeId := files[|files| - 1].id;
        file := Some(|files| - 1);
      }
      StartBufferWrite(b, file.value);
    }

    /** The poll's batch of buffers. */
    method SubmitBatch(allocs: seq<bool>)
      requires Valid()
      modifies this
      ensures Valid() && Value() == SubmitPending(old(Value()), cfg, allocs)
    {
      hide SubmitTo;
      var (m1, batch) := TakePending(buffers, MAX_BATCH);
      buffers := m1;
      SubmitAll(batch, allocs);
    }

    method SubmitAll(batch: seq<nat>, allocs: seq<bool>)
      requires Valid() && forall i :: 0 <= i < |batch| ==> batch[i] < |buffers.buffers|
      modifies this
      ensures Valid() && Value() == SubmitTo(old(Value()), cfg, batch, allocs, |batch|)
    {
      ghost var start := Value();
      for i := 0 to |batch|
        invariant Valid() && |buffers.buffers| == |start.m.buffers|
        invariant Value() == SubmitTo(start, cfg, batch, allocs, i)
      {
        hide SubmitBuffer, WellFormed;
        SubmitBufferIo(batch[i], i < |allocs| && allocs[i]);
      }
    }

    // -------------------------------------------------------------------------------------------
    // IO completions
    // -------------------------------------------------------------------------------------------

    /** Indexes a record if its write succeeded, and answers its request. */
    method LandOne(l: Landing, ok: bool)
      requires Valid()
      modifies `index, `homes, `answers
      ensures Valid() && Value() == Land(old(Value()), l, ok)
    {
      var key := l.entry.key;
      if ok {
        if key !in index || SequenceNewer(l.entry.sequence, index[key].sequence) {
          index := index[key := l.entry];
          homes := homes[key := Home(l.id, l.fileId, l.span)];
        }
      }
      answers := answers + [Answer(l.id, if ok then Success else IoError)];
    }

    method OnBufferIoComplete(i: nat, ok: bool, junk: Disk)
      requires Valid() && i < |ios| && ios[i].BufferIo? && (ok ==> CanSucceed(Value(), cfg, i))
      modifies this
      ensures Valid() && Value() == Complete(old(Value()), cfg, i, ok, junk)
    {
      hide LandingsOf, LandTo, Detach, Returned;
      var io := ios[i];
      var pws := pend[io.buffer];
      BufferLandings(Value(), io);
      End(i, ok, junk);
      LandAll(io, pws, ok, LandingsOf(old(Value()), io));
      ReturnOne(io.buffer);
    }

    method ReturnOne(b: nat)
      requires Valid() && b < |buffers.buffers|
      modifies `buffers
      ensures Valid() && Value() == Returned(old(Value()), b)
    {
      buffers := ReturnBuffer(buffers, b);
    }

    lemma BufferLandings(s: State, io: Io)
      requires io.BufferIo? && io.buffer < |s.pend|
      ensures |LandingsOf(s, io)| == |s.pend[io.buffer]|
      ensures forall k :: 0 <= k < |s.pend[io.buffer]| ==> LandingsOf(s, io)[k] == LandingOf(io, s.pend[io.buffer][k])
    {
    }

    method LandAll(io: Io, pws: seq<PendingWrite>, ok: bool, ghost ls: seq<Landing>)
      requires Valid() && io.BufferIo? && |ls| == |pws|
      requires forall k :: 0 <= k < |pws| ==> ls[k] == LandingOf(io, pws[k])
      modifies `index, `homes, `answers
      ensures Valid() && Value() == LandTo(old(Value()), ls, ok, |ls|)
    {
      ghost var start := Value();
      for k := 0 to |pws|
        invariant Valid() && Value() == LandTo(start, ls, ok, k)
      {
        hide WellFormed, Land, LandingOf;
        LandOne(LandingOf(io, pws[k]), ok);
      }
    }

    method OnDirectIoComplete(i: nat, ok: bool, junk: Disk)
      requires Valid() && i < |ios| && ios[i].DirectIo? && (ok ==> CanSucceed(Value(), cfg, i))
      modifies this
      ensures Valid() && Value() == Complete(old(Value()), cfg, i, ok, junk)
    {
      var io := ios[i];
      End(i, ok, junk);
      ghost var l := Landing(io.id, io.fileId, io.entry, io.span);
      assert LandTo(Value(), [l], ok, 1) == Land(LandTo(Value(), [l], ok, 0), l, ok);
      LandOne(Landing(io.id, io.fileId, io.entry, io.span), ok);
    }

    /** The write leaves the flight, having written its bytes or left junk. */
    method End(i: nat, ok: bool, junk: Disk)
      requires Valid() && i < |ios| && (ok ==> CanSucceed(Value(), cfg, i))
      modifies `ios, `foreground, `disk, `pend
      ensures Valid() && Value() == Detach(old(Value()), cfg, i, ok, junk)
    {
      hide WriteTo, Scribble;
      var io := ios[i];
      foreground := foreground - 1;
      var data := if io.DirectIo? then io.data else contents[io.buffer];
      disk := if ok then WriteTo(disk, io.span, data, io.span.pages) else Scribble(disk, io.span, junk);
      if io.BufferIo? {
        pend := pend[io.buffer := []];
      }
      ios := ios[..i] + ios[i + 1..];
    }

    // -------------------------------------------------------------------------------------------
    // The wait queue and new files
    // -------------------------------------------------------------------------------------------

    /** Writes a queued record at the end of a file. */
    method StartDirectWrite(q: Queued, i: nat)
      requires Valid() && i < |files|
      modifies `files, `ios, `foreground
      ensures Valid() && Value() == LaunchDirect(old(Value()), q, i)
    {
      var f := files[i];
      var page := f.end / PAGE_SIZE;
      var entry := IndexEntry(q.key, f.id % FILE_IDS, page % PAGE_OFFSETS, false, q.sequence, q.pages, q.tag);
      files := files[i := f.(end := f.end + q.size)];
      foreground := foreground + 1;
      ios := ios + [DirectIo(q.id, f.id, entry, Span(f.blob, page, q.size / PAGE_SIZE), q.data)];
    }

    method QueueForFile(q: Queued, file: Option<nat>)
      requires Valid() && file == FileAt(files, activeId)
      modifies this
      ensures Valid() && Value() == AwaitFile(old(Value()), q)
    {
      hide FileAt;
      pendQ := pendQ + [q];
      if allocating == None {
        Seal(file);
        PushFile(false);
        allocating := Some(|files| - 1);
      }
    }

    method DrainWaitQueue()
      requires Valid()
      modifies this
      ensures Valid() && Value() == ProcessWaitQueue(old(Value()), cfg)
    {
      ghost var was := Value();
      while waitQ != []
        invariant Valid() && buffers.backpressure == was.m.backpressure
        invariant ProcessWaitQueue(Value(), cfg) == ProcessWaitQueue(was, cfg)
        decreases |waitQ|
      {
        WritePathRequests.DrainUnfolds(Value(), cfg);
        if buffers.backpressure {
          return;
        }
        DrainFirst();
      }
      WritePathRequests.DrainUnfolds(Value(), cfg);
    }

    method DrainFirst()
      requires Valid() && waitQ != []
      modifies this
      ensures Valid() && Value() == WritePathRequests.DrainOne(old(Value()), cfg)
      ensures buffers == old(buffers)
    {
      hide FileAt;
      var q := waitQ[0];
      waitQ := waitQ[1..];
      var need, file := CheckFile(q.size);
      if need || allocating.Some? {
        WritePathRequests.AwaitFileMoves(Value(), q, 0);
        QueueForFile(q, file);
      } else {
        StartDirectWrite(q, file.value);
      }
    }

    /** Answers every record that waits for a file with an error. */
    method FailQueue(status: Status)
      requires Valid()
      modifies `answers, `pendQ
      ensures Valid()
      ensures Value() == old(Value()).(answers := old(answers) + QueueAnswers(old(pendQ), status), pendQ := [])
    {
      ghost var was := Value();
      var queue := pendQ;
      for i := 0 to |queue|
        invariant Valid() && Value() == was.(answers := was.answers + QueueAnswers(queue, status)[..i])
      {
        answers := answers + [Answer(queue[i].id, status)];
      }
      pendQ := [];
    }

    method ProcessPendingWriteQueue()
      requires Valid()
      modifies this
      ensures Valid() && Value() == FlushQueue(old(Value()))
    {
      hide FileAt;
      var file := GetFile(activeId);
      if file == None || !files[file.value].isOpen {
        FailQueue(InternalError);
        return;
      }
      var queue := pendQ;
      pendQ := [];
      ghost var start := Value();
      for i := 0 to |queue|
        invariant Valid() && |files| == |start.files| && Value() == LaunchTo(start, queue, file.value, i)
      {
        hide WellFormed, LaunchDirect;
        StartDirectWrite(queue[i], file.value);
      }
    }

    method TakeFileBack()
      requires Valid() && allocating.Some? && nextFileId > 0
      modifies `allocating, `files, `nextFileId, `answers, `pendQ
      ensures Valid() && Value() == AllocationFailed(old(Value()))
    {
      allocating := None;
      files := files[..|files| - 1];
      nextFileId := nextFileId - 1;
      FailQueue(NoSpace);
    }

    method OnNewFileAllocated(ok: bool)
      requires Valid() && allocating.Some? && nextFileId > 0
      modifies this
      ensures Valid() && Value() == if ok then AllocationDone(old(Value())) else AllocationFailed(old(Value()))
    {
      hide FlushQueue;
      if !ok {
        TakeFileBack();
        return;
      }
      var at := allocating.value;
      allocating := None;
      files := files[at := files[at].(isOpen := true)];
      activeId := files[|files| - 1].id;
      assert files[|files| - 1].id == old(files)[|files| - 1].id;
      ProcessPendingWriteQueue();
    }

    // -------------------------------------------------------------------------------------------
    // Reading
    // -------------------------------------------------------------------------------------------

    method Read(key: Key, room: nat) returns (r: GetResult)
      ensures r == Get(Value(), key, room)
    {
      hide FileAt, ReadTo, Field;
      if key !in index || index[key].deleted {
        return NotFound;
      }
      var e := index[key];
      var file := GetFile(e.fileId);
      if file == None || !files[file.value].isOpen {
        return ReadError;
      }
      var data := ReadTo(disk, Span(files[file.value].blob, e.offsetIndex, e.pageCount), e.pageCount);
      if |data| < PREFIX_SIZE {
        return PastBuffer;
      }
      if MagicAt(data, 0) != ENTRY_MAGIC {
        return Corrupt;
      }
      var len := LengthAt(data, 0);
      if len > room {
        return TooLarge;
      }
      if PREFIX_SIZE + len > |data| {
        return PastBuffer;
      }
      return Found(data[PREFIX_SIZE..PREFIX_SIZE + len]);
    }

    // -------------------------------------------------------------------------------------------
    // Whole runs
    // -------------------------------------------------------------------------------------------

    /** One event of any kind. */
    method Handle(e: Event)
      requires Valid() && Enabled(Value(), cfg, e)
      modifies this
      ensures Valid() && Value() == Step(old(Value()), cfg, e)
    {
      hide PutBuffered, Flush, SubmitPending, Complete, ProcessWaitQueue, AllocationDone, AllocationFailed, WellFormed,
          CanSucceed;
      match e
      case Putting(key, value, memory, dma) =>
        var _ := Put(key, value, memory, dma);
      case Flushing =>
        FlushCurrent();
      case SubmittingPending(allocs) =>
        SubmitBatch(allocs);
      case Completing(i, ok, junk) =>
        if ios[i].BufferIo? {
          OnBufferIoComplete(i, ok, junk);
        } else {
          OnDirectIoComplete(i, ok, junk);
        }
      case ProcessingWaitQueue =>
        DrainWaitQueue();
      case Allocated(ok) =>
        OnNewFileAllocated(ok);
    }

    /**
     Any list of events that can happen. Requests stay conserved, and the indexed records whole unless a failed
     allocation takes back a file in use.
     */
    method Drive(es: seq<Event>)
      requires Valid() && Runs(Value(), cfg, es)
      modifies this
      ensures Valid() && Value() == After(old(Value()), cfg, es)
      ensures WritePathRequests.Conserved(old(Value())) ==> WritePathRequests.Conserved(Value())
      ensures Inv(old(Value()), cfg) && SafeRun(old(Value()), cfg, es) ==> Inv(Value(), cfg)
    {
      ghost var start := Value();
      hide WellFormed, Step, Enabled, Inv, WritePathRequests.Conserved, SafeRun;
      if WritePathRequests.Conserved(start) {
        WritePathResults.RunKeepsConserved(start, cfg, es);
      }
      if Inv(start, cfg) && SafeRun(start, cfg, es) {
        RunKeepsInv(start, cfg, es);
      }
      var i := 0;
      while i < |es|
        invariant i <= |es| && Valid() && Runs(Value(), cfg, es[i..])
        invariant After(Value(), cfg, es[i..]) == After(start, cfg, es)
      {
        assert es[i..][1..] == es[i + 1..];
        Handle(es[i]);
        i := i + 1;
      }
    }
  }

  /**
   An engine that is set up, driven through a safe run and asked for a key answers for the record of the last accepted
   put of the key that was acknowledged, or finds nothing if there is none.
   */
  method Serve(cfg: Config, bufferSize: nat, count: nat, es: seq<Event>, key: Key, room: nat) returns (r: GetResult)
    requires 0 < count <= MAX_BUFFERS
    requires var s := WritePathResults.Start(bufferSize, count, 0); Runs(s, cfg, es) && SafeRun(s, cfg, es)
    requires var s := After(WritePathResults.Start(bufferSize, count, 0), cfg, es);
      |s.requests| < HALF && WithinLimits(s, cfg)
    ensures var s := After(WritePathResults.Start(bufferSize, count, 0), cfg, es);
      && (r == NotFound <==> forall j: nat :: !LastAcknowledged(s, key, j))
      && forall j: nat :: LastAcknowledged(s, key, j) ==> r == Reading(s.requests[j], room)
  {
    hide *;
    var engine := new Engine(cfg, bufferSize, count);
    engine.Drive(es);
    r := engine.Read(key, room);
    WritePathResults.ReadsAfterRun(cfg, bufferSize, count, 0, es, key, room);
  }
}
