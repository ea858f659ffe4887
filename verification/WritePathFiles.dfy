/** Which files the write path writes to, and what a file allocated by others goes through meanwhile. */
module WritePathFiles {
  // A compaction allocates its destination while the engine polls: the new file is at the end of the list, and the
  // end of an asynchronous allocation takes the last file of the list for its own.

  import opened Types
  import opened BufferRules
  import opened WritePath
  import opened WritePathInvariant
  import opened WritePathRuns
  import opened WritePathFlight
  import opened WritePathSafety
  import WritePathBuffers
  import WritePathResults
  import WritePathLoss
  import WritePathRequests
  import BufferRuns
  import EntryFormat

  // ---------------------------------------------------------------------------------------------
  // The files that are written
  // ---------------------------------------------------------------------------------------------

  /** From s to r only the active file of s and new files become active or are written. */
  ghost predicate OwnFiles(s: State, r: State) {
    && s.nextFileId <= r.nextFileId
    && (r.activeId == s.activeId || r.activeId >= s.nextFileId)
    && forall io :: io in r.ios ==> io in s.ios || io.fileId == s.activeId || io.fileId >= s.nextFileId
  }

  lemma OwnThen(s: State, t: State, r: State)
    requires OwnFiles(s, t) && OwnFiles(t, r)
    ensures OwnFiles(s, r)
  {
  }

  lemma SubmitBufferOwn(s: State, cfg: Config, b: nat, alloc: bool)
    requires WellFormed(s) && b < |s.m.buffers|
    ensures OwnFiles(s, SubmitBuffer(s, cfg, b, alloc))
  {
    hide FileAt;
    SealFrame(s);
  }

  lemma {:induction false} SubmitToOwn(s: State, cfg: Config, batch: seq<nat>, allocs: seq<bool>, n: nat)
    requires WellFormed(s) && n <= |batch| && forall i :: 0 <= i < |batch| ==> batch[i] < |s.m.buffers|
    ensures OwnFiles(s, SubmitTo(s, cfg, batch, allocs, n))
    decreases n
  {
    hide SubmitBuffer, WellFormed;
    if n > 0 {
      SubmitToOwn(s, cfg, batch, allocs, n - 1);
      var t := SubmitTo(s, cfg, batch, allocs, n - 1);
      SubmitBufferOwn(t, cfg, batch[n - 1], n <= |allocs| && allocs[n - 1]);
      OwnThen(s, t, SubmitBuffer(t, cfg, batch[n - 1], n <= |allocs| && allocs[n - 1]));
    }
  }

  lemma DrainOneOwn(s: State, cfg: Config)
    requires WellFormed(s) && s.waitQ != []
    ensures OwnFiles(s, WritePathRequests.DrainOne(s, cfg))
  {
    hide FileAt;
    SealFrame(s.(waitQ := s.waitQ[1..], pendQ := s.pendQ + [s.waitQ[0]]));
  }

  lemma {:induction false} DrainOwn(s: State, cfg: Config)
    requires WellFormed(s)
    ensures OwnFiles(s, Drain(s, cfg))
    decreases |s.waitQ|
  {
    WritePathRequests.DrainUnfolds(s, cfg);
    hide Drain, WellFormed;
    if s.waitQ != [] {
      var r := WritePathRequests.DrainOne(s, cfg);
      DrainOneOwn(s, cfg);
      DrainOwn(r, cfg);
      OwnThen(s, r, Drain(r, cfg));
    }
  }

  lemma {:induction false} LandToOwn(s: State, ls: seq<Landing>, ok: bool, n: nat)
    requires WellFormed(s) && n <= |ls|
    ensures var r := LandTo(s, ls, ok, n);
      r.ios == s.ios && r.activeId == s.activeId && r.nextFileId == s.nextFileId
    decreases n
  {
    hide WellFormed;
    if n > 0 {
      LandToOwn(s, ls, ok, n - 1);
    }
  }

  lemma CompleteOwn(s: State, cfg: Config, i: nat, ok: bool, junk: Disk)
    requires WellFormed(s) && i < |s.ios| && (ok ==> CanSucceed(s, cfg, i))
    ensures OwnFiles(s, Complete(s, cfg, i, ok, junk))
  {
    hide LandTo, LandingsOf, WriteTo, Scribble, CanSucceed;
    LandToOwn(Detach(s, cfg, i, ok, junk), LandingsOf(s, s.ios[i]), ok, |LandingsOf(s, s.ios[i])|);
  }

  lemma PutOwn(s: State, cfg: Config, key: Key, value: seq<u8>, memory: bool, dma: bool)
    requires WellFormed(s)
    ensures OwnFiles(s, PutBuffered(s, cfg, key, value, memory, dma))
  {
    hide BufferRuns.ReserveWithBackpressure;
    ReserveShape(s.m, EntryFormat.SizeFor(|value|), memory);
  }

  lemma {:induction false} LaunchToOwn(s: State, qs: seq<Queued>, i: nat, n: nat)
    requires WellFormed(s) && i < |s.files| && n <= |qs| && s.files[i].id == s.activeId
    ensures var r := LaunchTo(s, qs, i, n);
      OwnFiles(s, r) && r.activeId == s.activeId && r.files[i].id == s.files[i].id
    decreases n
  {
    hide WellFormed;
    if n > 0 {
      LaunchToOwn(s, qs, i, n - 1);
    }
  }

  /** The state in which the records that waited are written once a file has been allocated. */
  function Chosen(s: State): State
    requires WellFormed(s) && s.allocating.Some?
  {
    var at := s.allocating.value;
    s.(allocating := None, files := s.files[at := s.files[at].(isOpen := true)],
       activeId := s.files[|s.files| - 1].id)
  }

  lemma DoneOwn(s: State)
    requires WellFormed(s) && s.allocating.Some?
    ensures AllocationDone(s).activeId == s.files[|s.files| - 1].id
    ensures OwnFiles(Chosen(s), AllocationDone(s))
  {
    hide FileAt, LaunchTo;
    var s1 := Chosen(s);
    var a := FileAt(s1.files, s1.activeId);
    if a.Some? && s1.files[a.value].isOpen {
      LaunchToOwn(s1.(pendQ := []), s1.pendQ, a.value, |s1.pendQ|);
    }
  }

  /** Every event but a successful allocation keeps to the active file and to new ones. */
  lemma StepOwn(s: State, cfg: Config, e: Event)
    requires WellFormed(s) && Enabled(s, cfg, e) && !e.Allocated?
    ensures OwnFiles(s, Step(s, cfg, e))
  {
    hide OwnFiles, PutBuffered, SubmitTo, Complete, Drain;
    match e
    case Putting(key, value, memory, dma) => PutOwn(s, cfg, key, value, memory, dma);
    case Flushing => SameOwn(s, Flush(s));
    case SubmittingPending(allocs) =>
      var (m1, batch) := TakePending(s.m, MAX_BATCH);
      SubmitToOwn(s.(m := m1), cfg, batch, allocs, |batch|);
      SameOwn(s, s.(m := m1));
      OwnThen(s, s.(m := m1), SubmitTo(s.(m := m1), cfg, batch, allocs, |batch|));
    case Completing(i, ok, junk) => CompleteOwn(s, cfg, i, ok, junk);
    case ProcessingWaitQueue =>
      SameOwn(s, s);
      DrainOwn(s, cfg);
  }

  lemma SameOwn(s: State, r: State)
    requires r.ios == s.ios && r.activeId == s.activeId && r.nextFileId == s.nextFileId
    ensures OwnFiles(s, r)
  {
  }

  /**
   A file of another owner, such as the destination of a compaction, becomes the active file in a step if and only if
   the step is the end of a successful allocation and the file is the last of the list then.
   */
  lemma BecomesActiveIff(s: State, cfg: Config, e: Event, d: nat)
    requires Inv(s, cfg) && Enabled(s, cfg, e) && d < |s.files| && s.files[d].id != s.activeId
    ensures Step(s, cfg, e).activeId == s.files[d].id <==> e == Allocated(true) && d == |s.files| - 1
  {
    IdsBelow(s, cfg, d);
    hide Inv, Step, AllocationDone, AllocationFailed;
    if e == Allocated(true) {
      DoneOwn(s);
      DoneIs(s, cfg);
    } else if e == Allocated(false) {
      FailedIs(s, cfg);
    } else {
      StepOwn(s, cfg, e);
    }
  }

  lemma IdsBelow(s: State, cfg: Config, d: nat)
    requires Inv(s, cfg) && d < |s.files|
    ensures s.files[d].id < s.nextFileId
    ensures s.files[|s.files| - 1].id == s.files[d].id <==> d == |s.files| - 1
    ensures WellFormed(s)
  {
    hide ManagerInv, BuffersOk, IosOk, HomesOk, Undisturbed, QueueOk;
    if d < |s.files| - 1 {
      assert s.files[d].id < s.files[|s.files| - 1].id;
    }
  }

  lemma DoneIs(s: State, cfg: Config)
    requires WellFormed(s) && Enabled(s, cfg, Allocated(true))
    ensures s.allocating.Some? && Step(s, cfg, Allocated(true)) == AllocationDone(s)
  {
  }

  lemma FailedIs(s: State, cfg: Config)
    requires WellFormed(s) && Enabled(s, cfg, Allocated(false))
    ensures var r := Step(s, cfg, Allocated(false));
      s.allocating.Some? && r == AllocationFailed(s) && r.activeId == s.activeId && r.ios == s.ios
  {
  }

  /** And it is written in a step only under the same condition. */
  lemma WrittenOnlyIf(s: State, cfg: Config, e: Event, d: nat, io: Io)
    requires Inv(s, cfg) && Enabled(s, cfg, e) && d < |s.files| && s.files[d].id != s.activeId
    requires io in Step(s, cfg, e).ios && io !in s.ios && io.fileId == s.files[d].id
    ensures e == Allocated(true) && d == |s.files| - 1
  {
    IdsBelow(s, cfg, d);
    hide Inv, Step, AllocationDone, AllocationFailed;
    if e == Allocated(true) {
      DoneOwn(s);
      DoneIs(s, cfg);
      hide WellFormed;
    } else if e == Allocated(false) {
      FailedIs(s, cfg);
    } else {
      StepOwn(s, cfg, e);
    }
  }

  // ---------------------------------------------------------------------------------------------
  // A synchronous allocation, and an asynchronous one that ends inside it
  // ---------------------------------------------------------------------------------------------

  /** The file is in the list before its blob is allocated and opened; meanwhile the engine polls. */
  function Begin(s: State): (r: State)
    requires WellFormed(s)
    ensures WellFormed(r)
  {
    AddFile(s, false)
  }

  /** The file that was begun, by its id, is open; its caller has a pointer to it. */
  function EndWell(s: State, id: nat): (r: State)
    requires WellFormed(s)
    ensures WellFormed(r)
  {
    match FileAt(s.files, id)
    case None => s
    case Some(i) => s.(files := s.files[i := s.files[i].(isOpen := true)])
  }

  /** It could not be had: the last file is taken back. */
  function EndBadly(s: State): (r: State)
    requires WellFormed(s) && |s.files| > 0 && s.nextFileId > 0 && s.allocating != Some(|s.files| - 1)
    ensures WellFormed(r)
  {
    s.(files := s.files[..|s.files| - 1], nextFileId := s.nextFileId - 1)
  }

  lemma BeginKeeps(s: State, cfg: Config)
    requires Inv(s, cfg)
    ensures var r := Begin(s);
      && Inv(r, cfg) && |r.files| == |s.files| + 1 && r.files[|s.files|].id == s.nextFileId
      && !r.files[|s.files|].isOpen && r.nextFileId == s.nextFileId + 1 && r.allocating == s.allocating
      && r.pendQ == s.pendQ && r.answers == s.answers
      && FileAt(r.files, s.nextFileId) == Some(|s.files|)
  {
    hide ManagerInv, Addressed, FileAt;
    AddFileKeeps(s, cfg, false);
    WritePathBuffers.SameManager(s, Begin(s), []);
    IdsInOrder(Begin(s), cfg);
    FileAtPlace(Begin(s).files, |s.files|);
  }

  lemma IdsInOrder(s: State, cfg: Config)
    requires Addressed(s, cfg)
    ensures forall i, j :: 0 <= i < j < |s.files| ==> s.files[i].id < s.files[j].id
  {
    hide BuffersOk, IosOk, HomesOk, Undisturbed, QueueOk;
  }

  /** Without anything in between, a failure leaves the state as it was, but for the number of the next blob. */
  lemma BeginThenBad(s: State, cfg: Config)
    requires Inv(s, cfg)
    ensures var r := Begin(s);
      |r.files| > 0 && r.nextFileId > 0 && r.allocating != Some(|r.files| - 1)
      && EndBadly(r) == s.(nextBlob := s.nextBlob + 1)
  {
    assert Begin(s).files[..|s.files|] == s.files;
  }

  /** An asynchronous allocation that ends well inside takes the file that was begun, which is not open yet. */
  lemma DoneInsideIs(s: State, cfg: Config)
    requires Inv(s, cfg) && s.allocating.Some?
    ensures var t := Begin(s);
      AllocationDone(t) == Chosen(t).(answers := s.answers + QueueAnswers(s.pendQ, InternalError), pendQ := [])
    ensures var r := Chosen(Begin(s));
      && r.activeId == s.nextFileId && r.allocating == None && |r.files| == |s.files| + 1
      && FileAt(r.files, s.nextFileId) == Some(|s.files|) && r.files[|s.files|].end == FILE_HEADER
  {
    BeginKeeps(s, cfg);
    var t, at := Begin(s), s.allocating.value;
    hide Inv, FileAt, QueueAnswers;
    FileAtUpdate(t.files, at, t.files[at].(isOpen := true), s.nextFileId);
  }

  lemma EndWellKeeps(s: State, cfg: Config, id: nat)
    requires Inv(s, cfg) && s.allocating == None
    ensures Inv(EndWell(s, id), cfg)
  {
    hide ManagerInv, BuffersOk, IosOk, HomesOk, Undisturbed, QueueOk, FileAt;
    match FileAt(s.files, id)
    case None =>
    case Some(i) =>
      var f := s.files[i].(isOpen := true);
      UpdateGrows(s.files, i, f);
      FilesGrowKeep(s, cfg, s.files[i := f]);
      WritePathBuffers.SameManager(s, EndWell(s, id), []);
  }

  /**
   So that file becomes the active one. The requests that wait are answered with an error, although a file was had for
   them; the invariant is kept; and once the file is open, foreground writes go to it as long as they fit.
   */
  lemma DoneInside(s: State, cfg: Config, size: nat)
    requires Inv(s, cfg) && s.allocating.Some?
    ensures var r := AllocationDone(Begin(s));
      && Inv(r, cfg) && r.activeId == s.nextFileId && r.pendQ == []
      && r.answers == s.answers + QueueAnswers(s.pendQ, InternalError)
      && Inv(EndWell(r, s.nextFileId), cfg)
      && (NeedsFile(EndWell(r, s.nextFileId), cfg, size) <==> FILE_HEADER + size > cfg.fileSize)
  {
    var t := Begin(s);
    BeginKeeps(s, cfg);
    AllocationDoneKeeps(t, cfg);
    DoneInsideIs(s, cfg);
    var r := AllocationDone(t);
    hide AllocationDone, Inv, FileAt, QueueAnswers, Begin, Chosen;
    EndWellKeeps(r, cfg, s.nextFileId);
    OpenHasRoom(r, cfg, |s.files|, size);
  }

  lemma OpenHasRoom(s: State, cfg: Config, i: nat, size: nat)
    requires WellFormed(s) && FileAt(s.files, s.activeId) == Some(i) && s.files[i].end == FILE_HEADER
    ensures NeedsFile(EndWell(s, s.activeId), cfg, size) <==> FILE_HEADER + size > cfg.fileSize
  {
    hide FileAt;
    FileAtUpdate(s.files, i, s.files[i].(isOpen := true), s.activeId);
  }

  /**
   One that fails inside takes back the file that was begun: its caller goes on with a file that is not in the list.
   If that fails as well, another file is taken back, and the invariant is kept if and only if that one is unused.
   */
  lemma FailedInside(s: State, cfg: Config)
    requires Inv(s, cfg) && s.allocating.Some? && s.nextFileId > 0
    ensures var r := AllocationFailed(Begin(s));
      && Inv(r, cfg) && r.files == s.files && FileAt(r.files, s.nextFileId) == None
      && |r.files| > 0 && r.nextFileId == s.nextFileId && r.allocating == None
      && (Inv(EndBadly(r), cfg) <==> LastUnused(r))
  {
    var t := Begin(s);
    BeginKeeps(s, cfg);
    UnopenedUnused(t, cfg);
    AllocationFailedKeepsIff(t, cfg);
    BeginThenBad(s, cfg);
    var r := AllocationFailed(t);
    assert r.files == s.files && r.pendQ == [];
    NewIdNowhere(s, cfg);
    BadIffUnused(r, cfg, s.allocating.value);
  }

  lemma NewIdNowhere(s: State, cfg: Config)
    requires Inv(s, cfg)
    ensures FileAt(s.files, s.nextFileId) == None
  {
    var a := FileAt(s.files, s.nextFileId);
    if a.Some? {
      IdsBelow(s, cfg, a.value);
    }
    hide *;
  }

  /** Taking the last file back at the end of a synchronous allocation. */
  lemma BadIffUnused(r: State, cfg: Config, at: nat)
    requires Inv(r, cfg) && r.allocating == None && r.pendQ == [] && at < |r.files| && !r.files[at].isOpen
    requires r.nextFileId > 0
    ensures Inv(EndBadly(r), cfg) <==> LastUnused(r)
  {
    AllocatingAgain(r, cfg, at);
    BadIsFailed(r, at);
    hide Inv, EndBadly, AllocationFailed;
    AllocationFailedKeepsIff(r.(allocating := Some(at)), cfg);
  }

  lemma BadIsFailed(r: State, at: nat)
    requires WellFormed(r) && r.allocating == None && r.pendQ == [] && at < |r.files| && r.nextFileId > 0
    ensures AllocationFailed(r.(allocating := Some(at))) == EndBadly(r)
  {
    assert QueueAnswers([], NoSpace) == [];
    assert r.answers + [] == r.answers;
  }

  lemma AllocatingAgain(r: State, cfg: Config, at: nat)
    requires Inv(r, cfg) && at < |r.files| && !r.files[at].isOpen
    ensures Inv(r.(allocating := Some(at)), cfg)
  {
    hide BuffersOk, IosOk, HomesOk, Undisturbed, QueueOk, FilesOk;
    WritePathBuffers.SameManager(r, r.(allocating := Some(at)), []);
  }

  // ---------------------------------------------------------------------------------------------
  // From the start
  // ---------------------------------------------------------------------------------------------

  /**
   After this run from the start a file is awaited. If a file is allocated for another owner then, from the beginning
   to the end, it becomes the active one when the awaited file is there.
   */
  lemma DestinationBecomesActive(cfg: Config)
    requires cfg.fileSize == WritePathLoss.SMALL_FILE
    ensures var s := WritePathResults.Start(PAGE_SIZE, 1, 0);
      && Runs(s, cfg, WritePathLoss.AWAITING_RUN)
      && var t := After(s, cfg, WritePathLoss.AWAITING_RUN);
         var r := EndWell(Begin(t), t.nextFileId);
        && r.activeId != t.nextFileId && Enabled(r, cfg, Allocated(true))
        && Step(r, cfg, Allocated(true)).activeId == t.nextFileId
  {
    WritePathLoss.FileIsAwaited(cfg);
    var t := After(WritePathResults.Start(PAGE_SIZE, 1, 0), cfg, WritePathLoss.AWAITING_RUN);
    hide Runs, After, Step, Enabled, WellFormed;
    AddedBecomesActive(cfg, t);
  }

  lemma AddedBecomesActive(cfg: Config, t: State)
    requires WellFormed(t) && t.files == [WritePathLoss.FULL, WritePathLoss.UNOPENED] && t.activeId == 0
    requires t.nextFileId == 2 && t.allocating == Some(1)
    ensures var r := EndWell(Begin(t), 2);
      r.activeId != 2 && Enabled(r, cfg, Allocated(true)) && Step(r, cfg, Allocated(true)).activeId == 2
  {
    LastOpened(t);
    var r := EndWell(Begin(t), 2);
    DoneOwn(r);
    hide WellFormed, EndWell, Begin, AllocationDone, Chosen;
  }

  lemma LastOpened(t: State)
    requires WellFormed(t) && |t.files| == 2 && t.files[0].id != t.nextFileId && t.files[1].id != t.nextFileId
    ensures var r := EndWell(Begin(t), t.nextFileId);
      && |r.files| == 3 && r.files[2].id == t.nextFileId && r.activeId == t.activeId
      && r.allocating == t.allocating && r.nextFileId == t.nextFileId + 1
  {
  }
}
