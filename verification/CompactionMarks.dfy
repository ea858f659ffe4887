/** What a compaction marks, copies and leaves behind, and when it gives up: over every run from a fresh task. */
module CompactionMarks {
  import opened Types
  import opened IndexRule
  import opened CompactionModel

  predicate At(m: map<nat, FileState>, f: nat, s: FileState) {
    f in m && m[f] == s
  }

  /** The file has the state it had, or is unknown as it was. */
  predicate Same(m: map<nat, FileState>, m0: map<nat, FileState>, f: nat) {
    if f in m then At(m0, f, m[f]) else f !in m0
  }

  predicate UnchangedAt(w: World, w0: World, f: nat) {
    Same(w.state, w0.state, f) && Same(w.meta, w0.meta, f)
  }

  predicate BothAt(w: World, f: nat, s: FileState) {
    At(w.state, f, s) && At(w.meta, f, s)
  }

  // ---------------------------------------------------------------------------------------------
  // The marks of every phase
  // ---------------------------------------------------------------------------------------------

  /** The phases in which the source's metadata already says deleted. */
  predicate DeletionMarked(t: Task) {
    (t.phase == MarkDeleted && t.ioPending) || (t.phase == RetryWait && t.retryTarget == MarkDeleted)
  }

  predicate SourceMarks(t: Task, w: World, w0: World) {
    match t.phase
    case Init => UnchangedAt(w, w0, t.src)
    case MarkCompacting => BothAt(w, t.src, Compacting) || (!t.ioPending && UnchangedAt(w, w0, t.src))
    case Done => At(w.state, t.src, Compacting) && At(w.meta, t.src, Deleted)
    case RollbackMarkSealed => t.ioPending ==> BothAt(w, t.src, Sealed)
    case Failed => if t.dest == 0 then UnchangedAt(w, w0, t.src) else BothAt(w, t.src, Sealed)
    case _ =>
      && At(w.state, t.src, Compacting)
      && (At(w.meta, t.src, Deleted)
          || (At(w.meta, t.src, Compacting) && !DeletionMarked(t)))
      && (At(w.meta, t.src, Compacting) || t.phase == MarkDeleted || t.phase == RetryWait || t.phase == Rollback)
      && (t.phase == RetryWait && t.retryTarget != MarkDeleted ==> At(w.meta, t.src, Compacting))
  }

  predicate DestinationMarks(t: Task, w: World, w0: World) {
    if (t.phase == Rollback && t.ioPending) || ((t.phase == RollbackMarkSealed || t.phase == Failed) && t.dest > 1)
    then BothAt(w, t.dst, Deleted) && t.dest > 1
    else UnchangedAt(w, w0, t.dst)
  }

  ghost predicate OthersUnchanged(src: nat, dst: nat, w: World, w0: World) {
    forall f :: f != src && f != dst ==> Same(w.state, w0.state, f) && Same(w.meta, w0.meta, f)
  }

  ghost predicate Marks(t: Task, w: World, w0: World) {
    && t.src != t.dst
    && OthersUnchanged(t.src, t.dst, w, w0) && SourceMarks(t, w, w0) && DestinationMarks(t, w, w0)
    && (t.phase == Init ==> t.dest == 0 && !t.ioPending)
    && (t.phase != Init && t.phase != Failed ==> t.dest > 0)
    && (t.phase == RetryWait ==> Retryable(t.retryTarget))
    && (t.ioPending ==> DoesIo(t.phase))
  }

  lemma OthersStay(t: Task, w: World, w0: World)
    requires OthersUnchanged(t.src, t.dst, w, w0)
    ensures OthersUnchanged(t.src, t.dst, NextWorld(t, w), w0)
  {
    hide MigrateAll, RevertAll;
    var w' := NextWorld(t, w);
    forall f | f != t.src && f != t.dst
      ensures Same(w'.state, w0.state, f) && Same(w'.meta, w0.meta, f)
    {
      assert Same(w.state, w0.state, f) && Same(w.meta, w0.meta, f);
    }
  }

  predicate Marking(p: Phase) {
    p == MarkCompacting || p == MarkDeleted || p == Rollback || p == RollbackMarkSealed
  }

  lemma MarkingStep(t: Task, w: World, w0: World)
    requires Marks(t, w, w0) && (t.phase == MarkCompacting || t.phase == MarkDeleted) && !t.ioPending
    ensures Marks(t.(ioPending := true), NextWorld(t, w), w0)
  {
    OthersStay(t, w, w0);
    hide OthersUnchanged;
  }

  lemma RollbackStep(t: Task, w: World, w0: World)
    requires Marks(t, w, w0) && t.phase == Rollback && !t.ioPending
    ensures Marks(DoRollback(t), NextWorld(t, w), w0)
  {
    OthersStay(t, w, w0);
    hide MigrateAll, RevertAll, OthersUnchanged;
  }

  lemma SealingStep(t: Task, w: World, w0: World)
    requires Marks(t, w, w0) && t.phase == RollbackMarkSealed && !t.ioPending
    ensures Marks(t.(ioPending := true), NextWorld(t, w), w0)
  {
    OthersStay(t, w, w0);
    hide OthersUnchanged;
  }

  /** The other phases mark nothing. */
  lemma PlainStep(t: Task, w: World, w0: World, error: int, elapsed: bool)
    requires Marks(t, w, w0) && (t.ioPending || !Marking(t.phase))
    ensures Marks(NextTask(t, w.index, error, elapsed), w, w0)
    ensures NextWorld(t, w).state == w.state && NextWorld(t, w).meta == w.meta
  {
    if !t.ioPending && t.phase == ProcessEntries {
      ProcessMarks(t, w.index, t.current);
    }
    hide Process, SkipInvalid, MigrateAll, RevertAll, OthersUnchanged, Same;
  }

  lemma StepKeepsMarks(t: Task, w: World, w0: World, error: int, elapsed: bool)
    requires Marks(t, w, w0)
    ensures Marks(NextTask(t, w.index, error, elapsed), NextWorld(t, w), w0)
  {
    if !t.ioPending && Marking(t.phase) {
      if t.phase == Rollback {
        RollbackStep(t, w, w0);
      } else if t.phase == RollbackMarkSealed {
        SealingStep(t, w, w0);
      } else {
        MarkingStep(t, w, w0);
      }
      hide Marks;
    } else {
      PlainStep(t, w, w0, error, elapsed);
      var t' := NextTask(t, w.index, error, elapsed);
      MarksIgnoreRest(t', w, NextWorld(t, w), w0);
    }
  }

  /** The chunk loop leaves what the marks speak of as it is, and ends in one of two phases. */
  lemma {:induction false} ProcessMarks(t: Task, ix: Index, p: nat)
    ensures var t' := Process(t, ix, p);
      && t'.dest == t.dest && t'.ioPending == t.ioPending
      && (t'.phase == ReadChunk || t'.phase == WriteChunk)
      && t'.retryCount == t.retryCount && t'.lastError == t.lastError
    decreases t.current + t.bytesRead - p
  {
    ProcessUnfolds(t, ix, p);
    if p >= t.current + t.bytesRead {
    } else if !ValidAt(t, p) {
      ProcessMarks(t, ix, p + 1);
    } else if !ShouldMigrate(t, ix, p) {
      ProcessMarks(t, ix, p + t.readBuffer[p].pages);
    } else if t.used + t.readBuffer[p].pages <= CHUNK_PAGES {
      ProcessMarks(Push(t, p), ix, p + t.readBuffer[p].pages);
    }
  }

  /** An IO that fails leaves the marks as they are. */
  lemma ErrorKeepsMarks(t: Task, w: World, w0: World, status: int)
    requires Marks(t, w, w0) && t.ioPending && Retryable(t.phase)
    ensures Marks(HandleIoError(t.(ioPending := false), t.phase, status), w, w0)
  {
  }

  lemma CompletionKeepsMarks(t: Task, w: World, w0: World, source: map<nat, Record>, status: int)
    requires Marks(t, w, w0)
    ensures Marks(CompletedTask(t, source, status), w, w0)
  {
    if t.ioPending && Retryable(t.phase) && status != 0 {
      ErrorKeepsMarks(t, w, w0, status);
    } else {
      hide HandleIoError, Chunk, ReadSize;
    }
  }

  /** The marks speak of the states and the metadata only. */
  lemma MarksIgnoreRest(t: Task, w: World, w': World, w0: World)
    requires Marks(t, w, w0) && w'.state == w.state && w'.meta == w.meta
    ensures Marks(t, w', w0)
  {
  }

  lemma EventKeepsMarks(t: Task, w: World, w0: World, e: Event)
    requires t.src in w.files && t.dst in w.files && Marks(t, w, w0)
    ensures var (t', w') := Apply(t, w, e); Marks(t', w', w0)
  {
    var (t', w') := Apply(t, w, e);
    match e {
      case Step(error, elapsed) => StepKeepsMarks(t, w, w0, error, elapsed);
      case Complete(status, garbage) =>
        CompletionKeepsMarks(t, w, w0, w.files[t.src], status);
        MarksIgnoreRest(t', w, w', w0);
      case _ => MarksIgnoreRest(t, w, w', w0);
    }
  }

  lemma {:induction false} RunKeepsMarks(t: Task, w: World, w0: World, es: seq<Event>)
    requires t.src in w.files && t.dst in w.files && Marks(t, w, w0)
    ensures var (t', w') := Run(t, w, es); Marks(t', w', w0)
    decreases |es|
  {
    if es != [] {
      EventKeepsMarks(t, w, w0, es[0]);
      hide Marks, Apply;
      var (t1, w1) := Apply(t, w, es[0]);
      RunKeepsMarks(t1, w1, w0, es[1..]);
    }
  }

  /** What a finished compaction has marked. Success: the source's metadata, and nothing of any other file. A
      failure before anything was marked: nothing at all. A later failure: the source is sealed again, and the
      destination is deleted if and only if something had been written to it. */
  lemma FinishedMarks(t: Task, w: World, es: seq<Event>)
    requires t.phase == Init && t.dest == 0 && !t.ioPending && t.src != t.dst
    requires t.src in w.files && t.dst in w.files
    ensures var (t', w') := Run(t, w, es);
      && (forall f :: f != t.src && f != t.dst ==> UnchangedAt(w', w, f))
      && (t'.phase == Done ==>
           && t.src in w'.meta && w'.meta[t.src] == Deleted
           && t.src in w'.state && w'.state[t.src] == Compacting
           && UnchangedAt(w', w, t.dst))
      && (t'.phase == Failed && t'.dest == 0 ==> UnchangedAt(w', w, t.src) && UnchangedAt(w', w, t.dst))
      && (t'.phase == Failed && t'.dest > 0 ==> BothAt(w', t.src, Sealed))
      && (t'.phase == Failed && t'.dest == 1 ==> UnchangedAt(w', w, t.dst))
      && (t'.phase == Failed && t'.dest > 1 ==> BothAt(w', t.dst, Deleted))
  {
    RunKeepsMarks(t, w, w, es);
  }

  // ---------------------------------------------------------------------------------------------
  // When a compaction gives up
  // ---------------------------------------------------------------------------------------------

  /** The errors in a run since the last chunk was written, on top of n before it. */
  function Faults(t: Task, w: World, es: seq<Event>, n: nat): nat
    requires t.src in w.files && t.dst in w.files
    decreases |es|
  {
    if es == [] then n
    else
      var (t1, w1) := Apply(t, w, es[0]);
      Faults(t1, w1, es[1..],
             if !es[0].Complete? || !t.ioPending || !Retryable(t.phase) then n
             else if es[0].status != 0 then n + 1
             else if t.phase == WriteChunk then 0
             else n)
  }

  /** One event counts an error, starts the count again, or leaves it. */
  lemma EventCounts(t: Task, w: World, e: Event)
    requires t.src in w.files && t.dst in w.files
    ensures Apply(t, w, e).0.retryCount ==
      if !e.Complete? || !t.ioPending || !Retryable(t.phase) then t.retryCount
      else if e.status != 0 then t.retryCount + 1
      else if t.phase == WriteChunk then 0
      else t.retryCount
  {
    if e.Step? && t.phase == ProcessEntries {
      ProcessMarks(t, w.index, t.current);
    }
    hide Process, SkipInvalid, Chunk, ReadSize, MigrateAll, RevertAll;
  }

  lemma {:induction false} RetriesAreFaults(t: Task, w: World, es: seq<Event>)
    requires t.src in w.files && t.dst in w.files
    ensures Run(t, w, es).0.retryCount == Faults(t, w, es, t.retryCount)
    decreases |es|
  {
    if es != [] {
      EventCounts(t, w, es[0]);
      hide Apply;
      var (t1, w1) := Apply(t, w, es[0]);
      RetriesAreFaults(t1, w1, es[1..]);
    }
  }

  predicate RollingBack(p: Phase) {
    p == Rollback || p == RollbackMarkSealed
  }

  /** Busy, out of memory or to be tried again: 16, 12 and 11. */
  predicate Transient(code: int) {
    code == -16 || code == -12 || code == -11
  }

  predicate GivesUp(t: Task) {
    && (RollingBack(t.phase) || (t.phase == Failed && t.dest > 0) ==> !Transient(t.lastError) || t.retryCount > 2)
    && (!RollingBack(t.phase) && t.phase != Failed ==> t.retryCount <= 2)
    && (t.phase == RetryWait ==> Transient(t.lastError) && Retryable(t.retryTarget))
    && (t.phase == Init ==> t.dest == 0)
    && (t.ioPending ==> DoesIo(t.phase))
  }

  lemma StepKeepsGivesUp(t: Task, ix: Index, error: int, elapsed: bool)
    requires GivesUp(t)
    ensures GivesUp(NextTask(t, ix, error, elapsed))
  {
    if !t.ioPending && t.phase == ProcessEntries {
      ProcessMarks(t, ix, t.current);
    }
    hide Process, SkipInvalid;
  }

  lemma ErrorKeepsGivesUp(t: Task, status: int)
    requires GivesUp(t) && t.ioPending && Retryable(t.phase)
    ensures GivesUp(HandleIoError(t.(ioPending := false), t.phase, status))
  {
  }

  lemma CompletionKeepsGivesUp(t: Task, source: map<nat, Record>, status: int)
    requires GivesUp(t)
    ensures GivesUp(CompletedTask(t, source, status))
  {
    if t.ioPending && Retryable(t.phase) && status != 0 {
      ErrorKeepsGivesUp(t, status);
    }
    hide Chunk, ReadSize, HandleIoError;
  }

  lemma EventKeepsGivesUp(t: Task, w: World, e: Event)
    requires t.src in w.files && t.dst in w.files && GivesUp(t)
    ensures GivesUp(Apply(t, w, e).0)
  {
    match e {
      case Step(error, elapsed) => StepKeepsGivesUp(t, w.index, error, elapsed);
      case Complete(status, garbage) => CompletionKeepsGivesUp(t, w.files[t.src], status);
      case _ =>
    }
  }

  lemma {:induction false} RunKeepsGivesUp(t: Task, w: World, es: seq<Event>)
    requires t.src in w.files && t.dst in w.files && GivesUp(t)
    ensures GivesUp(Run(t, w, es).0)
    decreases |es|
  {
    if es != [] {
      EventKeepsGivesUp(t, w, es[0]);
      hide GivesUp, Apply;
      var (t1, w1) := Apply(t, w, es[0]);
      RunKeepsGivesUp(t1, w1, es[1..]);
    }
  }

  /** A compaction is rolled back only after the third error since its last written chunk, or after an error that
      is not transient; until then it goes on. */
  lemma RollsBackOnlyIf(t: Task, w: World, es: seq<Event>)
    requires t.phase == Init && t.dest == 0 && t.retryCount == 0 && !t.ioPending
    requires t.src in w.files && t.dst in w.files
    ensures var t' := Run(t, w, es).0;
      && (RollingBack(t'.phase) ==> Faults(t, w, es, 0) >= 3 || !Transient(t'.lastError))
      && (!RollingBack(t'.phase) && t'.phase != Failed ==> Faults(t, w, es, 0) <= 2)
      && (t'.phase == RetryWait ==> Transient(t'.lastError))
  {
    RetriesAreFaults(t, w, es);
    RunKeepsGivesUp(t, w, es);
  }

  /** The error of a pending IO is retried, at the phase it happened in, exactly when it is transient and at most
      the second in a row; any other rolls the compaction back. */
  lemma RetriedIff(t: Task, source: map<nat, Record>, status: int)
    requires t.ioPending && Retryable(t.phase) && status != 0
    ensures var t' := CompletedTask(t, source, status);
      && !t'.ioPending && t'.lastError == status
      && (t'.phase == RetryWait <==> Transient(status) && t.retryCount < 2)
      && (t'.phase == RetryWait ==> t'.retryTarget == t.phase)
      && (t'.phase != RetryWait ==> t'.phase == Rollback)
  {
  }

  // ---------------------------------------------------------------------------------------------
  // What is copied
  // ---------------------------------------------------------------------------------------------

  /** The buffer holds the very record a migration was recorded for. */
  predicate Carried(buffer: map<nat, Record>, m: Migrated) {
    m.newOffset in buffer && var r := buffer[m.newOffset];
      r.key == m.key && r.sequence == m.sequence && r.pages == m.pages
  }

  /** No tombstone is copied, and what is recorded is what is copied. */
  ghost predicate Carries(buffer: map<nat, Record>, ms: seq<Migrated>, end: nat) {
    && (forall p :: p in buffer ==> p < end && !buffer[p].tombstone)
    && (forall i :: 0 <= i < |ms| ==> Carried(buffer, ms[i]))
  }

  lemma NothingCarried(end: nat)
    ensures Carries(map[], [], end)
  {
  }

  /** Before it has nothing to carry, a buffer may lose its list. */
  lemma CarriesLess(buffer: map<nat, Record>, ms: seq<Migrated>, end: nat)
    requires Carries(buffer, ms, end)
    ensures Carries(buffer, [], end)
  {
  }

  /** Once it is over no list is kept. */
  ghost predicate Copying(t: Task) {
    && Carries(t.writeBuffer, t.migrated, t.dest + t.used)
    && (t.phase == Done || t.phase == RollbackMarkSealed || t.phase == Failed ==>
         t.migrated == [] && t.committed == [])
    && (t.phase == Failed ==> t.used == 0 && t.writeBuffer == map[])
    && (t.phase == Init ==> t.migrated == [] && t.committed == [] && t.used == 0 && t.writeBuffer == map[])
    && (t.phase == Rollback && t.ioPending ==> t.migrated == [] && t.committed == [])
    && (t.phase == Failed && t.dest == 0 ==> t.lastError != 0)
    && (t.phase == RetryWait ==> Retryable(t.retryTarget))
    && (t.ioPending ==> DoesIo(t.phase))
    && (t.phase == Init ==> t.dest == 0) && (t.phase != Init && t.phase != Failed ==> t.dest > 0)
  }

  lemma PushCopies(t: Task, ix: Index, p: nat)
    requires Copying(t) && t.phase == ProcessEntries && p in t.readBuffer && ShouldMigrate(t, ix, p)
    ensures Copying(Push(t, p))
  {
    var t' := Push(t, p);
    forall i | 0 <= i < |t'.migrated|
      ensures Carried(t'.writeBuffer, t'.migrated[i])
    {
      if i < |t.migrated| {
        assert t'.migrated[i] == t.migrated[i] && Carried(t.writeBuffer, t.migrated[i]);
      }
    }
  }

  lemma {:induction false} ProcessCopies(t: Task, ix: Index, p: nat)
    requires Copying(t) && t.phase == ProcessEntries && !t.ioPending
    ensures Copying(Process(t, ix, p))
    decreases t.current + t.bytesRead - p
  {
    ProcessUnfolds(t, ix, p);
    EndOfChunk(t);
    hide Copying, ShouldMigrate, Process;
    if p >= t.current + t.bytesRead {
    } else if !ValidAt(t, p) {
      ProcessCopies(t, ix, p + 1);
    } else if !ShouldMigrate(t, ix, p) {
      ProcessCopies(t, ix, p + t.readBuffer[p].pages);
    } else if t.used + t.readBuffer[p].pages <= CHUNK_PAGES {
      PushCopies(t, ix, p);
      ProcessCopies(Push(t, p), ix, p + t.readBuffer[p].pages);
    }
  }

  lemma EndOfChunk(t: Task)
    requires Copying(t) && t.phase == ProcessEntries && !t.ioPending
    ensures Copying(t.(phase := WriteChunk)) && Copying(t.(current := t.current + t.bytesRead, phase := ReadChunk))
  {
    hide Carries;
  }

  /** Outside the chunk loop a step changes lists by emptying them only. */
  lemma OtherStepKeepsCopying(t: Task, ix: Index, error: int, elapsed: bool)
    requires Copying(t) && (t.ioPending || t.phase != ProcessEntries)
    ensures Copying(NextTask(t, ix, error, elapsed))
  {
    NothingCarried(t.dest + t.used);
    CarriesLess(t.writeBuffer, t.migrated, t.dest + t.used);
    InitCarries(t);
    hide Process, SkipInvalid, Carries;
  }

  lemma InitCarries(t: Task)
    requires Copying(t)
    ensures t.phase == Init ==> forall n :: Carries(t.writeBuffer, [], n)
  {
  }

  lemma StepKeepsCopying(t: Task, ix: Index, error: int, elapsed: bool)
    requires Copying(t)
    ensures Copying(NextTask(t, ix, error, elapsed))
  {
    if !t.ioPending && t.phase == ProcessEntries {
      ProcessCopies(t, ix, t.current);
      hide Copying;
    } else {
      OtherStepKeepsCopying(t, ix, error, elapsed);
      hide Copying, NextTask;
    }
  }

  lemma ErrorKeepsCopying(t: Task, status: int)
    requires Copying(t) && t.ioPending && Retryable(t.phase)
    ensures Copying(HandleIoError(t.(ioPending := false), t.phase, status))
  {
    hide Carries;
  }

  lemma CompletionKeepsCopying(t: Task, source: map<nat, Record>, status: int)
    requires Copying(t)
    ensures Copying(CompletedTask(t, source, status))
  {
    if t.ioPending && Retryable(t.phase) && status != 0 {
      ErrorKeepsCopying(t, status);
    }
    NothingCarried(t.dest);
    CarriesLess(t.writeBuffer, t.migrated, t.dest + t.used);
    hide Chunk, ReadSize, Carries, HandleIoError;
  }

  lemma {:induction false} RunKeepsCopying(t: Task, w: World, es: seq<Event>)
    requires t.src in w.files && t.dst in w.files && Copying(t)
    ensures Copying(Run(t, w, es).0)
    decreases |es|
  {
    if es != [] {
      match es[0] {
        case Step(error, elapsed) => StepKeepsCopying(t, w.index, error, elapsed);
        case Complete(status, garbage) => CompletionKeepsCopying(t, w.files[t.src], status);
        case _ =>
      }
      hide Copying, NextTask, NextWorld, CompletedTask, CompletedWorld, ApplyUser;
      var (t1, w1) := Apply(t, w, es[0]);
      RunKeepsCopying(t1, w1, es[1..]);
    }
  }

  // ---------------------------------------------------------------------------------------------
  // What the moves do to an entry
  // ---------------------------------------------------------------------------------------------

  /** Every migration of the list is from src to dst. */
  ghost predicate Between(ms: seq<Migrated>, src: nat, dst: nat) {
    src != dst && forall i :: 0 <= i < |ms| ==> ms[i].oldFile == src && ms[i].newFile == dst
  }

  predicate Moves(m: Migrated, k: Key, p: nat) {
    m.key == k && m.oldOffset == p
  }

  lemma {:induction false} NotMoved(ix: Index, ms: seq<Migrated>, k: Key, src: nat, dst: nat)
    requires Between(ms, src, dst) && k in ix
    requires PointsInto(ix, k, src) ==> forall i :: 0 <= i < |ms| ==> !Moves(ms[i], k, ix[k].offsetIndex)
    ensures k in MigrateAll(ix, ms) && MigrateAll(ix, ms)[k] == ix[k]
  {
    if ms != [] {
      NotMoved(ix, ms[..|ms| - 1], k, src, dst);
    }
  }

  /** An entry moves with the first migration of its key and place, to the copy, with the copy's size in 16 bits; an
      entry without one stays what it is, and keys neither come nor go. */
  lemma {:induction false} MovedEntry(ix: Index, ms: seq<Migrated>, k: Key, i: nat, src: nat, dst: nat)
    requires Between(ms, src, dst) && i < |ms| && PointsTo(ix, k, src, ms[i].oldOffset) && ms[i].key == k
    requires forall j :: 0 <= j < i ==> !Moves(ms[j], k, ms[i].oldOffset)
    ensures k in MigrateAll(ix, ms)
    ensures MigrateAll(ix, ms)[k]
         == ix[k].(fileId := dst, offsetIndex := ms[i].newOffset, pageCount := ms[i].pages % 65536)
  {
    var front := ms[..|ms| - 1];
    if i == |ms| - 1 {
      NotMoved(ix, front, k, src, dst);
    } else {
      MovedEntry(ix, front, k, i, src, dst);
    }
  }

  // ---------------------------------------------------------------------------------------------
  // What is left of the destination
  // ---------------------------------------------------------------------------------------------

  /** Every removal of the destination that completes in the run succeeds. */
  ghost predicate RemovalsSucceed(t: Task, w: World, es: seq<Event>)
    requires t.src in w.files && t.dst in w.files
    decreases |es|
  {
    es != [] ==>
      && (es[0].Complete? && t.phase == Rollback ==> es[0].status == 0)
      && var (t1, w1) := Apply(t, w, es[0]); RemovalsSucceed(t1, w1, es[1..])
  }

  /** Once the rollback is through with the destination, nothing is left of what had been written to it. */
  ghost predicate Emptied(t: Task, w: World)
    requires t.dst in w.files
  {
    && ((t.phase == RollbackMarkSealed || t.phase == Failed) && t.dest > 1 ==> w.files[t.dst] == map[])
    && (t.phase == Rollback && t.ioPending ==> t.dest > 1)
    && (t.phase == Init ==> t.dest == 0)
    && (t.phase == RetryWait ==> Retryable(t.retryTarget))
    && (t.ioPending ==> DoesIo(t.phase))
  }

  lemma StepKeepsEmptied(t: Task, w: World, error: int, elapsed: bool)
    requires t.dst in w.files && Emptied(t, w)
    ensures Emptied(NextTask(t, w.index, error, elapsed), NextWorld(t, w))
  {
    if !t.ioPending && t.phase == ProcessEntries {
      ProcessMarks(t, w.index, t.current);
    }
    hide Process, SkipInvalid, MigrateAll, RevertAll;
  }

  lemma ErrorKeepsEmptied(t: Task, w: World, status: int)
    requires t.dst in w.files && Emptied(t, w) && t.ioPending && Retryable(t.phase)
    ensures Emptied(HandleIoError(t.(ioPending := false), t.phase, status), w)
  {
  }

  /** The marks of this section speak of the destination in two phases only. */
  lemma EmptiedElsewhere(t: Task, w: World, w': World)
    requires t.dst in w.files && Emptied(t, w) && t.dst in w'.files
    requires t.phase != RollbackMarkSealed && t.phase != Failed
    ensures Emptied(t, w')
  {
  }

  lemma CompletionKeepsEmptied(t: Task, w: World, status: int, garbage: map<nat, Record>)
    requires t.src in w.files && t.dst in w.files && Emptied(t, w) && (t.phase == Rollback ==> status == 0)
    ensures Emptied(CompletedTask(t, w.files[t.src], status), CompletedWorld(t, w, status, garbage))
  {
    if t.ioPending && Retryable(t.phase) && status != 0 {
      var w' := CompletedWorld(t, w, status, garbage);
      EmptiedElsewhere(t, w, w');
      ErrorKeepsEmptied(t, w', status);
      hide Emptied, CompletedWorld, HandleIoError, Chunk, ReadSize;
    } else {
      hide Chunk, ReadSize, Written, HandleIoError;
    }
  }

  lemma {:induction false} RunEmpties(t: Task, w: World, es: seq<Event>)
    requires t.src in w.files && t.dst in w.files && Emptied(t, w)
    requires AllowedRun(t, w, es) && RemovalsSucceed(t, w, es)
    ensures var (t', w') := Run(t, w, es); t'.dst in w'.files && Emptied(t', w')
    decreases |es|
  {
    if es != [] {
      match es[0] {
        case Step(error, elapsed) => StepKeepsEmptied(t, w, error, elapsed);
        case Complete(status, garbage) => CompletionKeepsEmptied(t, w, status, garbage);
        case _ =>
      }
      hide NextTask, NextWorld, CompletedTask, CompletedWorld;
      var (t1, w1) := Apply(t, w, es[0]);
      RunEmpties(t1, w1, es[1..]);
    }
  }

  /** A removal that fails leaves the destination as it is; the rollback goes on, and no other file changes. */
  lemma RemovalEmptiesIff(t: Task, w: World, status: int, garbage: map<nat, Record>)
    requires t.src in w.files && t.dst in w.files && t.phase == Rollback && t.ioPending
    ensures var (t', w') := CompleteIo(t, w, status, garbage);
      && t'.phase == RollbackMarkSealed && !t'.ioPending && w'.files.Keys == w.files.Keys
      && w'.files[t.dst] == (if status == 0 then map[] else w.files[t.dst])
      && forall f :: f in w.files && f != t.dst ==> w'.files[f] == w.files[f]
  {
  }

  /** A compaction that failed after it had written something leaves an empty destination, if the removal succeeds. */
  lemma FailedLeavesNothing(t: Task, w: World, es: seq<Event>)
    requires t.phase == Init && t.dest == 0 && !t.ioPending && t.src in w.files && t.dst in w.files
    requires AllowedRun(t, w, es) && RemovalsSucceed(t, w, es)
    ensures var (t', w') := Run(t, w, es);
      t'.dst in w'.files && (t'.phase == Failed && t'.dest > 1 ==> w'.files[t'.dst] == map[])
  {
    RunEmpties(t, w, es);
  }
}
