/** The invariant over every event and every run, and the one event that can break it. */
module WritePathRuns {
  import opened Types
  import opened Bytes
  import opened EntryFormat
  import opened WritePath
  import opened WritePathInvariant
  import opened WritePathSafety
  import opened WritePathFlight
  import opened WritePathLanding
  import WritePathBuffers
  import WritePathRequests
  import BufferRuns

  // ---------------------------------------------------------------------------------------------
  // The wait queue
  // ---------------------------------------------------------------------------------------------

  lemma AwaitFileKeeps(s: State, cfg: Config, q: Queued)
    requires Inv(s, cfg) && QueuedOk(q, s.requests, cfg)
    ensures Inv(AwaitFile(s, q), cfg)
  {
    hide ManagerInv, QueuedOk, BuffersOk, IosOk, HomesOk, Undisturbed, FilesOk, SealActive;
    var s1 := s.(pendQ := s.pendQ + [q]);
    forall i | 0 <= i < |s1.pendQ|
      ensures QueuedOk(s1.pendQ[i], s.requests, cfg)
    {
      if i < |s.pendQ| {
        assert s1.pendQ[i] == s.pendQ[i];
      }
    }
    WritePathBuffers.SameManager(s, s1, []);
    if s.allocating.None? {
      SealKeeps(s1, cfg);
      SealFrame(s1);
      AddFileKeeps(SealActive(s1), cfg, false);
      WritePathBuffers.SameManager(s, AwaitFile(s, q), []);
    }
  }

  lemma SealFrame(s: State)
    requires WellFormed(s)
    ensures var r := SealActive(s); r == s.(files := r.files) && |r.files| == |s.files|
  {
  }

  lemma DrainOneKeeps(s: State, cfg: Config)
    requires Inv(s, cfg) && s.waitQ != []
    ensures Inv(WritePathRequests.DrainOne(s, cfg), cfg)
  {
    hide ManagerInv, QueuedOk, BuffersOk, IosOk, HomesOk, Undisturbed, FilesOk, AwaitFile, LaunchDirect, NeedsFile,
        FileAt;
    var q, s1 := s.waitQ[0], s.(waitQ := s.waitQ[1..]);
    assert QueuedOk(q, s.requests, cfg);
    assert QueueOk(s1.waitQ, s.requests, cfg);
    WritePathBuffers.SameManager(s, s1, []);
    FileReady(s1, cfg, q.size);
    if NeedsFile(s1, cfg, q.size) || s1.allocating.Some? {
      AwaitFileKeeps(s1, cfg, q);
    } else {
      DirectKeepsInv(s1, cfg, q, FileAt(s1.files, s1.activeId).value);
    }
  }

  lemma DirectKeepsInv(s: State, cfg: Config, q: Queued, i: nat)
    requires Inv(s, cfg) && i < |s.files| && s.files[i].isOpen && QueuedOk(q, s.requests, cfg)
    ensures Inv(LaunchDirect(s, q, i), cfg)
  {
    hide ManagerInv, Addressed, QueuedOk, LaunchDirect;
    LaunchDirectKeeps(s, cfg, q, i);
    WritePathBuffers.LaunchDirectInFlight(s, q, i);
    WritePathBuffers.SameManager(s, LaunchDirect(s, q, i), []);
  }

  lemma {:induction false} DrainKeeps(s: State, cfg: Config)
    requires Inv(s, cfg)
    ensures Inv(Drain(s, cfg), cfg)
    decreases |s.waitQ|
  {
    WritePathRequests.DrainUnfolds(s, cfg);
    hide ManagerInv, Addressed, WellFormed, Drain, WritePathRequests.DrainOne;
    if s.waitQ != [] {
      DrainOneKeeps(s, cfg);
      DrainKeeps(WritePathRequests.DrainOne(s, cfg), cfg);
    }
  }

  // ---------------------------------------------------------------------------------------------
  // New files
  // ---------------------------------------------------------------------------------------------

  lemma {:induction false} LaunchToKeeps(s: State, cfg: Config, qs: seq<Queued>, i: nat, n: nat)
    requires Inv(s, cfg) && i < |s.files| && s.files[i].isOpen && n <= |qs| && QueueOk(qs, s.requests, cfg)
    ensures var r := LaunchTo(s, qs, i, n); Inv(r, cfg) && r.files[i].isOpen && r.requests == s.requests
    decreases n
  {
    hide ManagerInv, Addressed, QueuedOk;
    if n > 0 {
      LaunchToKeeps(s, cfg, qs, i, n - 1);
      assert QueuedOk(qs[n - 1], s.requests, cfg);
      DirectKeepsInv(LaunchTo(s, qs, i, n - 1), cfg, qs[n - 1], i);
    }
  }

  lemma AnsweredKeeps(s: State, cfg: Config, answers: seq<Answer>)
    requires Inv(s, cfg)
    ensures Inv(s.(answers := answers, pendQ := []), cfg)
  {
    hide ManagerInv, QueuedOk, BuffersOk, IosOk, HomesOk, Undisturbed, FilesOk;
    WritePathBuffers.SameManager(s, s.(answers := answers, pendQ := []), []);
  }

  lemma FlushQueueKeeps(s: State, cfg: Config)
    requires Inv(s, cfg)
    ensures Inv(FlushQueue(s), cfg)
  {
    AddressedQueues(s, cfg);
    hide ManagerInv, Addressed, LaunchTo, QueueOk;
    AnsweredKeeps(s, cfg, s.answers + QueueAnswers(s.pendQ, InternalError));
    AnsweredKeeps(s, cfg, s.answers);
    var at := FileAt(s.files, s.activeId);
    if at.Some? && s.files[at.value].isOpen {
      var s1 := s.(pendQ := []);
      assert s1 == s.(answers := s.answers, pendQ := []);
      LaunchToKeeps(s1, cfg, s.pendQ, at.value, |s.pendQ|);
    }
  }

  lemma AllocationDoneKeeps(s: State, cfg: Config)
    requires Inv(s, cfg) && s.allocating.Some?
    ensures Inv(AllocationDone(s), cfg)
  {
    hide ManagerInv, BuffersOk, IosOk, HomesOk, Undisturbed, QueueOk, FlushQueue;
    var at := s.allocating.value;
    var f := s.files[at].(isOpen := true);
    UpdateGrows(s.files, at, f);
    FilesGrowKeep(s, cfg, s.files[at := f]);
    var s1 := s.(allocating := None, files := s.files[at := f], activeId := s.files[|s.files| - 1].id);
    WritePathBuffers.SameManager(s, s1, []);
    FlushQueueKeeps(s1, cfg);
  }

  /** No index entry and no write in flight is for the last file. */
  ghost predicate LastUnused(s: State)
    requires |s.files| > 0
  {
    var id := s.files[|s.files| - 1].id;
    && (forall key :: key in s.homes ==> s.homes[key].fileId != id)
    && (forall i :: 0 <= i < |s.ios| ==> s.ios[i].fileId != id)
  }

  lemma FileAtPop(files: seq<File>, id: nat)
    requires files != [] && forall i, j :: 0 <= i < j < |files| ==> files[i].id < files[j].id
    ensures var n := |files| - 1;
      FileAt(files[..n], id) == if id == files[n].id then None else FileAt(files, id)
  {
    var n := |files| - 1;
    var r := FileAt(files[..n], id);
    if r.Some? {
      assert files[..n][r.value] == files[r.value];
    }
  }

  lemma InFilePop(files: seq<File>, id: nat, at: Span)
    requires files != [] && forall i, j :: 0 <= i < j < |files| ==> files[i].id < files[j].id
    ensures var n := |files| - 1; InFile(files[..n], id, at) <==> InFile(files, id, at) && id != files[n].id
  {
    FileAtPop(files, id);
    FileAtPlace(files, |files| - 1);
  }

  /** A file that is not open holds nothing. */
  lemma UnopenedUnused(s: State, cfg: Config)
    requires Addressed(s, cfg) && |s.files| > 0 && !s.files[|s.files| - 1].isOpen
    ensures LastUnused(s)
  {
    FileAtPlace(s.files, |s.files| - 1);
    forall key | key in s.homes
      ensures s.homes[key].fileId != s.files[|s.files| - 1].id
    {
      HomeInFile(s, cfg, key);
    }
    forall i | 0 <= i < |s.ios|
      ensures s.ios[i].fileId != s.files[|s.files| - 1].id
    {
      AddressedIo(s, cfg, i);
    }
  }

  lemma PoppedIos(s: State, cfg: Config)
    requires Addressed(s, cfg) && |s.files| > 0 && LastUnused(s)
    ensures IosOk(s.ios, s.files[..|s.files| - 1], s.m.buffers, s.requests, cfg)
  {
    hide InFile, EntryOk;
    forall i | 0 <= i < |s.ios|
      ensures IoOk(s.ios[i], s.files[..|s.files| - 1], s.m.buffers, s.requests, cfg)
    {
      assert IoOk(s.ios[i], s.files, s.m.buffers, s.requests, cfg);
      InFilePop(s.files, s.ios[i].fileId, s.ios[i].span);
    }
  }

  lemma PoppedHomes(s: State, cfg: Config)
    requires Addressed(s, cfg) && |s.files| > 0 && LastUnused(s)
    ensures HomesOk(s.homes, s.index, s.files[..|s.files| - 1], s.disk, s.requests, cfg)
  {
    hide InFile, EntryOk, OnDisk;
    forall key | key in s.homes
      ensures HomeOk(key, s.homes[key], s.index[key], s.files[..|s.files| - 1], s.disk, s.requests, cfg)
    {
      assert HomeOk(key, s.homes[key], s.index[key], s.files, s.disk, s.requests, cfg);
      InFilePop(s.files, s.homes[key].fileId, s.homes[key].span);
    }
  }

  lemma PoppedFiles(files: seq<File>, nextFileId: nat, nextBlob: nat)
    requires FilesOk(files, nextFileId, nextBlob) && files != [] && nextFileId > 0
    ensures FilesOk(files[..|files| - 1], nextFileId - 1, nextBlob)
  {
    var n := |files| - 1;
    forall i | 0 <= i < n
      ensures files[i].id < nextFileId - 1
    {
      assert files[i].id < files[n].id;
    }
  }

  lemma UnusedIsKept(s: State, cfg: Config)
    requires Inv(s, cfg) && s.allocating.Some? && s.nextFileId > 0 && LastUnused(s)
    ensures Inv(AllocationFailed(s), cfg)
  {
    hide ManagerInv, LastUnused, BuffersOk, IosOk, HomesOk, Undisturbed, FilesOk, QueuedOk;
    PoppedFiles(s.files, s.nextFileId, s.nextBlob);
    PoppedIos(s, cfg);
    PoppedHomes(s, cfg);
    WritePathBuffers.SameManager(s, AllocationFailed(s), []);
  }

  lemma FailedShape(s: State)
    requires WellFormed(s) && s.allocating.Some? && s.nextFileId > 0
    ensures var r := AllocationFailed(s);
      s.files != [] && r.files == s.files[..|s.files| - 1] && r.homes == s.homes && r.ios == s.ios
  {
  }

  lemma IdsRise(s: State, cfg: Config)
    requires Addressed(s, cfg)
    ensures forall i, j :: 0 <= i < j < |s.files| ==> s.files[i].id < s.files[j].id
  {
  }

  lemma KeptIsUnused(s: State, cfg: Config)
    requires Inv(s, cfg) && s.allocating.Some? && s.nextFileId > 0 && Inv(AllocationFailed(s), cfg)
    ensures LastUnused(s)
  {
    hide Addressed, ManagerInv, InFile, AllocationFailed, FilesOk, WellFormed;
    var r := AllocationFailed(s);
    FailedShape(s);
    IdsRise(s, cfg);
    forall key | key in s.homes
      ensures s.homes[key].fileId != s.files[|s.files| - 1].id
    {
      HomeInFile(r, cfg, key);
      InFilePop(s.files, s.homes[key].fileId, s.homes[key].span);
    }
    forall i | 0 <= i < |s.ios|
      ensures s.ios[i].fileId != s.files[|s.files| - 1].id
    {
      AddressedIo(r, cfg, i);
      InFilePop(s.files, s.ios[i].fileId, s.ios[i].span);
    }
  }

  /**
   A failed allocation takes back the last file. Records stay where their entries say exactly if nothing is in
   that file, or on its way there.
   */
  lemma AllocationFailedKeepsIff(s: State, cfg: Config)
    requires Inv(s, cfg) && s.allocating.Some? && s.nextFileId > 0
    ensures Inv(AllocationFailed(s), cfg) <==> LastUnused(s)
  {
    hide Addressed, ManagerInv, LastUnused, AllocationFailed;
    if LastUnused(s) {
      UnusedIsKept(s, cfg);
    }
    if Inv(AllocationFailed(s), cfg) {
      KeptIsUnused(s, cfg);
    }
  }

  /** That is so if the file that failed is the last one: no other was added behind it meanwhile. */
  lemma OwnFileIsUnused(s: State, cfg: Config)
    requires Inv(s, cfg) && s.allocating == Some(|s.files| - 1)
    ensures LastUnused(s)
  {
    UnopenedUnused(s, cfg);
  }

  // ---------------------------------------------------------------------------------------------
  // Every event, every run
  // ---------------------------------------------------------------------------------------------

  lemma PutKeeps(s: State, cfg: Config, key: Key, value: seq<Byte>, memory: bool, dma: bool)
    requires Inv(s, cfg) && |value| < TWO32
    ensures Inv(PutBuffered(s, cfg, key, value, memory, dma), cfg)
  {
    hide Addressed, ManagerInv, BufferRuns.ReserveWithBackpressure, Waiting, Buffered, WithManager;
    PutKeepsAddressed(s, cfg, key, value, memory, dma);
    var len := SizeFor(|value|);
    if value != [] {
      ReserveShape(s.m, len, memory);
      WritePathBuffers.ReserveKeepsManager(s, len, memory);
      var (m1, at) := BufferRuns.ReserveWithBackpressure(s.m, len, memory);
      var s1 := Accept(WithManager(s, m1), key, value);
      SameShape(WithManager(s, m1), s1);
      if at == None {
        WaitingShape(s1, cfg);
        WritePathBuffers.SameManager(WithManager(s, m1), Waiting(s1, cfg), []);
      } else {
        var s2 := Buffered(s1, cfg, at.value);
        BufferedShape(s1, cfg, at.value);
        WritePathBuffers.SameManager(WithManager(s, m1), s2, []);
        WritePathBuffers.FlushKeepsManager(s2);
      }
    }
  }

  lemma SameShape(s: State, r: State)
    requires r.m == s.m && r.ios == s.ios
    ensures InFlight(r.ios) == InFlight(s.ios)
  {
  }

  lemma WaitingShape(s: State, cfg: Config)
    requires WellFormed(s) && s.requests != []
    ensures Waiting(s, cfg).m == s.m && Waiting(s, cfg).ios == s.ios
  {
  }

  lemma BufferedShape(s: State, cfg: Config, at: nat)
    requires WellFormed(s) && s.m.active.Some? && s.requests != []
    ensures Buffered(s, cfg, at).m == s.m && Buffered(s, cfg, at).ios == s.ios
  {
  }

  /** An event after which the records are still where their entries say. */
  ghost predicate Safe(s: State, e: Event)
    requires WellFormed(s)
  {
    e.Allocated? && !e.ok && s.allocating.Some? ==> LastUnused(s)
  }

  /** Every event keeps every indexed record whole, in its file and undisturbed, but for a lost last file. */
  lemma StepKeepsInv(s: State, cfg: Config, e: Event)
    requires Inv(s, cfg) && Enabled(s, cfg, e) && Safe(s, e)
    ensures Inv(Step(s, cfg, e), cfg)
  {
    hide ManagerInv, Addressed, PutBuffered, SubmitPending, Complete, Drain, AllocationDone, AllocationFailed,
        LastUnused;
    match e
    case Putting(key, value, memory, dma) => PutKeeps(s, cfg, key, value, memory, dma);
    case Flushing =>
      FlushKeeps(s, cfg);
      WritePathBuffers.FlushKeepsManager(s);
    case SubmittingPending(allocs) => SubmitPendingKeeps(s, cfg, allocs);
    case Completing(i, ok, junk) => CompleteKeeps(s, cfg, i, ok, junk);
    case ProcessingWaitQueue => DrainKeeps(s, cfg);
    case Allocated(ok) =>
      if ok {
        AllocationDoneKeeps(s, cfg);
      } else {
        AllocationFailedKeepsIff(s, cfg);
      }
  }

  /** A run: each event can happen when it does. */
  ghost predicate Runs(s: State, cfg: Config, es: seq<Event>)
    requires WellFormed(s)
    decreases |es|
  {
    es == [] || (Enabled(s, cfg, es[0]) && Runs(Step(s, cfg, es[0]), cfg, es[1..]))
  }

  function After(s: State, cfg: Config, es: seq<Event>): (r: State)
    requires WellFormed(s) && Runs(s, cfg, es)
    ensures WellFormed(r)
    decreases |es|
  {
    if es == [] then s else After(Step(s, cfg, es[0]), cfg, es[1..])
  }

  /** No failed allocation of the run takes back a file in use. */
  ghost predicate SafeRun(s: State, cfg: Config, es: seq<Event>)
    requires WellFormed(s) && Runs(s, cfg, es)
    decreases |es|
  {
    es == [] || (Safe(s, es[0]) && SafeRun(Step(s, cfg, es[0]), cfg, es[1..]))
  }

  /** Over every such run each indexed record stays whole, in its file and undisturbed. */
  lemma {:induction false} RunKeepsInv(s: State, cfg: Config, es: seq<Event>)
    requires Inv(s, cfg) && Runs(s, cfg, es) && SafeRun(s, cfg, es)
    ensures Inv(After(s, cfg, es), cfg)
    decreases |es|
  {
    hide ManagerInv, Addressed, WellFormed, Step, Enabled, Safe;
    if es != [] {
      StepKeepsInv(s, cfg, es[0]);
      RunKeepsInv(Step(s, cfg, es[0]), cfg, es[1..]);
    }
  }
}
