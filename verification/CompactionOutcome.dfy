/** What the two ends of a compaction mean, for a source of single-page records. */
module CompactionOutcome {
  import opened Types
  import opened IndexRule
  import opened CompactionModel
  import opened CompactionSafety
  import opened CompactionProgress

  predicate UnderWay(p: Phase) {
    Forward(p) || p.Done?
  }

  /** The entries into the source are of data records within it. */
  ghost predicate SourceInRange(t: Task, w: World)
    requires t.src in w.files
  {
    forall k :: PointsInto(w.index, k, t.src) ==>
      var p := w.index[k].offsetIndex;
      1 <= p < t.srcEnd && (p in w.files[t.src] ==> !w.files[t.src][p].tombstone)
  }

  ghost predicate SinglePages(t: Task, w: World)
    requires t.src in w.files
  {
    forall p :: p in w.files[t.src] ==> w.files[t.src][p].pages == 1
  }

  /** The source's bitmap, if it has one, says that the page is not in use. */
  predicate MarkedFree(bitmap: Option<set<nat>>, p: nat) {
    bitmap.Some? && p !in bitmap.value
  }

  /** Entries into the part of the source already read are claimed by a pending migration, or their page is one
      the bitmap marks as free. */
  ghost predicate ReadIsClaimed(t: Task, ix: Index, n: nat) {
    forall k :: PointsInto(ix, k, t.src) ==>
      || n <= ix[k].offsetIndex || PendingFrom(t.migrated, k, ix[k].offsetIndex)
      || MarkedFree(t.validPages, ix[k].offsetIndex)
  }

  ghost predicate ChunkComplete(t: Task, w: World)
    requires t.src in w.files
  {
    t.phase.ProcessEntries? ==>
      forall p :: t.current <= p < t.current + t.bytesRead && p in w.files[t.src] ==>
        p in t.readBuffer && t.readBuffer[p] == w.files[t.src][p]
  }

  /** What is written and buffered, and what may still come, fits into the size of the source. */
  ghost predicate DestFits(t: Task, ix: Index) {
    Max(1, t.dest) + t.used + |Unclaimed(ix, t.migrated, t.src)| <= t.srcEnd
  }

  ghost predicate Covering(t: Task, w: World) {
    && t.src in w.files && t.src != t.dst && SinglePages(t, w)
    && (UnderWay(t.phase) ==>
         SourceInRange(t, w) && ReadIsClaimed(t, w.index, t.current) && ChunkComplete(t, w) && DestFits(t, w.index))
    && ((t.phase == RollbackMarkSealed && t.ioPending) || (t.phase == Failed && t.dest > 0) ==>
         t.src in w.state && t.src in w.meta && w.state[t.src] == Sealed && w.meta[t.src] == Sealed)
    && (t.phase == Init ==> t.dest == 0)
    && (UnderWay(t.phase) && t.phase != Init ==> t.dest > 0)
  }

  /** Done, or about to mark the source deleted: no live entry points into the source any more, unless the
      bitmap marks its page as free. */
  lemma DoneMeansMigrated(t: Task, w: World)
    requires Steady(t) && Covering(t, w) && (t.phase == MarkDeleted || t.phase == Done)
    ensures forall k :: PointsInto(w.index, k, t.src) ==>
      t.validPages.Some? && w.index[k].offsetIndex !in t.validPages.value
  {
  }

  /** Failed: no live entry points into the destination, and after a rollback the source is sealed again. */
  lemma FailedMeansRestored(t: Task, w: World)
    requires Inv(t, w) && Covering(t, w) && t.phase == Failed
    ensures forall k :: !PointsInto(w.index, k, t.dst)
    ensures t.dest > 0 ==> w.state[t.src] == Sealed && w.meta[t.src] == Sealed
  {
  }

  /** The destination never grows beyond the source. */
  lemma DestinationWithinSource(t: Task, w: World)
    requires Covering(t, w) && UnderWay(t.phase)
    ensures t.dest + t.used <= t.srcEnd
  {
  }

  // ---------------------------------------------------------------------------------------------
  // Every event keeps this
  // ---------------------------------------------------------------------------------------------

  /** The chunk loop at page p: everything before p is claimed. */
  ghost predicate InChunk(t: Task, w: World, p: nat) {
    && Inv(t, w) && t.phase == ProcessEntries && !t.ioPending
    && t.src in w.files && t.src != t.dst && SinglePages(t, w) && SourceInRange(t, w) && ChunkComplete(t, w)
    && t.current <= p <= t.current + t.bytesRead
    && ReadIsClaimed(t, w.index, p) && DestFits(t, w.index)
    && forall i :: 0 <= i < |t.migrated| ==> t.migrated[i].oldOffset < p
  }

  lemma PagePassed(t: Task, w: World, p: nat)
    requires InChunk(t, w, p) && p < t.current + t.bytesRead
    requires !ValidAt(t, p) || !ShouldMigrate(t, w.index, p)
    ensures InChunk(t, w, p + 1)
    ensures ValidAt(t, p) ==> t.readBuffer[p].pages == 1
  {
    hide DestFits, MarkedFree;
  }

  /** The entry pushed is claimed from then on, and so is every entry claimed before. */
  lemma PushCovers(t: Task, ix: Index, p: nat)
    requires p in t.readBuffer && ReadIsClaimed(t, ix, p)
    requires ShouldMigrate(t, ix, p)
    requires forall k :: PointsInto(ix, k, t.src) && ix[k].offsetIndex == p ==> t.readBuffer[p].key == k
    ensures ReadIsClaimed(Push(t, p), ix, p + 1)
  {
    hide MarkedFree;
    var t' := Push(t, p);
    assert t'.migrated[|t.migrated|].key == t.readBuffer[p].key && t'.migrated[|t.migrated|].oldOffset == p;
    forall k | PointsInto(ix, k, t.src)
      ensures p + 1 <= ix[k].offsetIndex || PendingFrom(t'.migrated, k, ix[k].offsetIndex)
        || MarkedFree(t'.validPages, ix[k].offsetIndex)
    {
      var o := ix[k].offsetIndex;
      if PendingFrom(t.migrated, k, o) {
        var i :| 0 <= i < |t.migrated| && t.migrated[i].key == k && t.migrated[i].oldOffset == o;
        assert t'.migrated[i] == t.migrated[i];
      }
    }
  }

  lemma PagePushed(t: Task, w: World, p: nat)
    requires InChunk(t, w, p) && p < t.current + t.bytesRead
    requires ValidAt(t, p) && ShouldMigrate(t, w.index, p)
    ensures t.readBuffer[p].pages == 1
    ensures InChunk(Push(t, p), w, p + 1)
  {
    PushKeepsPending(t, w, p);
    PushClaims(t, w.index, p);
    PushCovers(t, w.index, p);
    hide Inv, ReadIsClaimed, Unclaimed;
  }

  lemma {:induction false} ProcessCovers(t: Task, w: World, p: nat)
    requires InChunk(t, w, p)
    ensures var t' := Process(t, w.index, p);
      && ReadIsClaimed(t', w.index, t'.current) && DestFits(t', w.index) && t'.validPages == t.validPages
      && (t'.phase == ReadChunk || t'.phase == WriteChunk)
    decreases t.current + t.bytesRead - p
  {
    ChunkEnds(t, w, p);
    ProcessUnfolds(t, w.index, p);
    hide InChunk, ReadIsClaimed, DestFits, Process, ShouldMigrate, PointsTo;
    if p >= t.current + t.bytesRead {
    } else if !ValidAt(t, p) {
      PagePassed(t, w, p);
      ProcessCovers(t, w, p + 1);
    } else if !ShouldMigrate(t, w.index, p) {
      PagePassed(t, w, p);
      ProcessCovers(t, w, p + 1);
    } else {
      PagePushed(t, w, p);
      if t.used + t.readBuffer[p].pages <= CHUNK_PAGES {
        ProcessCovers(Push(t, p), w, p + 1);
      }
    }
  }

  lemma ChunkEnds(t: Task, w: World, p: nat)
    requires InChunk(t, w, p)
    ensures var t' := t.(phase := WriteChunk); ReadIsClaimed(t', w.index, t'.current) && DestFits(t', w.index)
    ensures p >= t.current + t.bytesRead ==>
      var t' := t.(current := t.current + t.bytesRead, phase := ReadChunk);
      ReadIsClaimed(t', w.index, t'.current) && DestFits(t', w.index)
  {
  }

  lemma UpdateCovers(t: Task, w: World)
    requires Inv(t, w) && Covering(t, w) && t.phase == UpdateIndices && !t.ioPending
    ensures var (t', w') := StepTask(t, w, 0, false); Covering(t', w')
  {
    var (t', w') := StepTask(t, w, 0, false);
    MigrationClaims(t, w.index, t.migrated);
    forall k | PointsInto(w'.index, k, t.src)
      ensures PointsInto(w.index, k, t.src) && w'.index[k] == w.index[k]
      ensures t.current <= w.index[k].offsetIndex || MarkedFree(t.validPages, w.index[k].offsetIndex)
    {
      MigrateAllRefs(t, w.index, t.migrated, k);
      assert !PendingFrom(t.migrated, k, w.index[k].offsetIndex) by {
        PendingIsMoved(t, w'.index, k);
      }
    }
  }

  lemma PendingIsMoved(t: Task, ix': Index, k: Key)
    requires forall i :: 0 <= i < |t.migrated| ==> !PointsTo(ix', t.migrated[i].key, t.src, t.migrated[i].oldOffset)
    requires PointsInto(ix', k, t.src)
    ensures !PendingFrom(t.migrated, k, ix'[k].offsetIndex)
  {
  }

  lemma ProcessStepCovers(t: Task, w: World)
    requires Inv(t, w) && Steady(t) && Covering(t, w) && t.phase == ProcessEntries && !t.ioPending
    ensures var (t', w') := StepTask(t, w, 0, false); Covering(t', w')
  {
    ProcessCovers(t, w, t.current);
    ProcessProgress(t, w.index, t.current);
  }

  /** Skipping stops at the first page in use, and passes over pages marked free only. */
  lemma {:induction false} SkipsFreePages(t: Task, p: nat)
    ensures p <= SkipInvalid(t, p)
    ensures SkipInvalid(t, p) < t.srcEnd ==> !MarkedFree(t.validPages, SkipInvalid(t, p))
    ensures forall q :: p <= q < SkipInvalid(t, p) ==> MarkedFree(t.validPages, q)
    decreases t.srcEnd - p
  {
    if t.validPages.Some? && p < t.srcEnd && p !in t.validPages.value {
      SkipsFreePages(t, p + 1);
    }
  }

  lemma RollbackStepCovers(t: Task, w: World)
    requires Inv(t, w) && Covering(t, w) && !t.ioPending && (t.phase == Rollback || t.phase == RollbackMarkSealed)
    ensures Covering(NextTask(t, w.index, 0, false), NextWorld(t, w))
  {
  }

  lemma ReadStepCovers(t: Task, w: World)
    requires Steady(t) && Covering(t, w) && t.phase == ReadChunk && !t.ioPending
    ensures Covering(StartRead(t), w)
  {
    var t' := StartRead(t);
    SkipsFreePages(t, t.current);
    assert ReadIsClaimed(t', w.index, t'.current);
    assert DestFits(t', w.index);
    assert SourceInRange(t', w);
  }

  lemma ForwardStepCovers(t: Task, w: World, error: int, elapsed: bool)
    requires Steady(t) && Covering(t, w) && t.dst != t.src
    requires t.ioPending || (&& !t.phase.ProcessEntries? && !t.phase.UpdateIndices?
                            && !t.phase.Rollback? && !t.phase.RollbackMarkSealed?)
    ensures Covering(NextTask(t, w.index, error, elapsed), NextWorld(t, w))
  {
    if t.phase == ReadChunk && !t.ioPending {
      ReadStepCovers(t, w);
    } else {
      hide SkipInvalid, SinglePages, SourceInRange, Unclaimed;
    }
  }

  lemma OtherStepCovers(t: Task, w: World, error: int, elapsed: bool)
    requires Inv(t, w) && Steady(t) && Covering(t, w)
    requires t.ioPending || (!t.phase.ProcessEntries? && !t.phase.UpdateIndices?)
    ensures var (t', w') := StepTask(t, w, error, elapsed); Covering(t', w')
  {
    if !t.ioPending && (t.phase == Rollback || t.phase == RollbackMarkSealed) {
      RollbackStepCovers(t, w);
    } else {
      ForwardStepCovers(t, w, error, elapsed);
    }
  }

  lemma ReadCovers(t: Task, w: World)
    requires Steady(t) && Covering(t, w) && t.ioPending && t.phase == ReadChunk
    ensures Covering(CompletedTask(t, w.files[t.src], 0), w)
  {
  }

  /** Fields of the task the covering invariant does not speak of may change freely. */
  lemma ErrorCovers(t: Task, w: World, target: Phase, code: int)
    requires Covering(t, w) && t.ioPending && t.phase == target && Retryable(target)
    ensures Covering(HandleIoError(t.(ioPending := false), target, code), w)
  {
  }

  lemma SourceUntouched(t: Task, w: World, file: map<nat, Record>)
    requires Covering(t, w) && t.dst in w.files
    ensures Covering(t, w.(files := w.files[t.dst := file]))
  {
  }

  lemma CompletionCovers(t: Task, w: World, status: int, garbage: map<nat, Record>)
    requires t.src in w.files && t.dst in w.files && t.src != t.dst && Steady(t) && Covering(t, w)
    ensures var (t', w') := CompleteIo(t, w, status, garbage); Covering(t', w')
  {
    var w' := CompletedWorld(t, w, status, garbage);
    SourceUntouched(t, w, w'.files[t.dst]);
    assert w' == w.(files := w.files[t.dst := w'.files[t.dst]]);
    hide CompletedWorld;
    if t.ioPending && Retryable(t.phase) && status != 0 {
      ErrorCovers(t, w', t.phase, status);
    } else if t.ioPending && t.phase == ReadChunk {
      ReadCovers(t, w');
    } else {
      SuccessCovers(t, w', status);
    }
  }

  lemma SuccessCovers(t: Task, w: World, status: int)
    requires Steady(t) && Covering(t, w)
    requires t.ioPending ==> t.phase != ReadChunk && (Retryable(t.phase) ==> status == 0)
    ensures Covering(CompletedTask(t, w.files[t.src], status), w)
  {
  }

  lemma UserCovers(t: Task, w: World, e: Event)
    requires Covering(t, w) && Allowed(t, w, e) && (e.UserPut? || e.UserRemove?)
    ensures Covering(t, ApplyUser(w, e))
  {
    UserClaims(t, w, e);
    var w' := ApplyUser(w, e);
    forall k | PointsInto(w'.index, k, t.src)
      ensures PointsInto(w.index, k, t.src) && w'.index[k].offsetIndex == w.index[k].offsetIndex
    {
    }
  }

  lemma EventCovers(t: Task, w: World, e: Event)
    requires Inv(t, w) && Steady(t) && Covering(t, w) && Allowed(t, w, e)
    ensures t.src in w.files && t.dst in w.files
    ensures var (t', w') := Apply(t, w, e); Inv(t', w') && Steady(t') && Covering(t', w')
  {
    TwinOfItself(t, w);
    EventKeepsTwin(t, w, w, e);
    EventRank(t, w, e);
    hide Steady, Covering, NextTask, NextWorld, CompletedTask, CompletedWorld, ApplyUser;
    match e {
      case Step(error, elapsed) =>
        if !t.ioPending && t.phase == ProcessEntries {
          ProcessStepCovers(t, w);
          StepIgnoresArguments(t, w, error, elapsed);
        } else if !t.ioPending && t.phase == UpdateIndices {
          UpdateCovers(t, w);
          StepIgnoresArguments(t, w, error, elapsed);
        } else {
          OtherStepCovers(t, w, error, elapsed);
        }
      case Complete(status, garbage) => CompletionCovers(t, w, status, garbage);
      case _ => UserCovers(t, w, e);
    }
  }

  lemma StepIgnoresArguments(t: Task, w: World, error: int, elapsed: bool)
    requires t.phase == ProcessEntries || t.phase == UpdateIndices
    ensures StepTask(t, w, error, elapsed) == StepTask(t, w, 0, false)
  {
  }

  /** What every state of a run satisfies. In particular nothing empty is written, and nothing is left to write at the
      end, so the tests for that in the phases WriteChunk and Finalize never succeed. */
  ghost predicate OutcomeOk(t: Task, w: World) {
    && (t.phase == MarkDeleted || t.phase == Done ==>
         forall k :: PointsInto(w.index, k, t.src) ==>
           t.validPages.Some? && w.index[k].offsetIndex !in t.validPages.value)
    && (t.phase == Failed ==> forall k :: !PointsInto(w.index, k, t.dst))
    && (t.phase == Failed && t.dest > 0 ==>
         t.src in w.state && t.src in w.meta && w.state[t.src] == Sealed && w.meta[t.src] == Sealed)
    && (UnderWay(t.phase) ==> t.dest + t.used <= t.srcEnd)
    && (t.phase == WriteChunk ==> t.used > 0) && (t.phase == Finalize ==> t.used == 0) && t.used <= 256
  }

  /** In every state a run reaches, the end of the compaction means what it should. */
  lemma {:induction false} RunOutcome(t: Task, w: World, es: seq<Event>)
    requires Inv(t, w) && Steady(t) && Covering(t, w) && AllowedRun(t, w, es)
    ensures var (t', w') := Run(t, w, es); OutcomeOk(t', w')
    decreases |es|
  {
    if es == [] {
      OutcomeOfState(t, w);
    } else {
      EventCovers(t, w, es[0]);
      hide Steady, Covering, OutcomeOk, Apply;
      var (t1, w1) := Apply(t, w, es[0]);
      RunOutcome(t1, w1, es[1..]);
    }
  }

  lemma OutcomeOfState(t: Task, w: World)
    requires Inv(t, w) && Steady(t) && Covering(t, w)
    ensures OutcomeOk(t, w)
  {
    if t.phase == MarkDeleted || t.phase == Done {
      DoneMeansMigrated(t, w);
    }
    if t.phase == Failed {
      FailedMeansRestored(t, w);
    }
  }

  // ---------------------------------------------------------------------------------------------
  // The start
  // ---------------------------------------------------------------------------------------------

  /** A task as it is constructed. */
  function NewTask(src: nat, dst: nat, srcEnd: nat, validPages: Option<set<nat>>): Task {
    Task(src, dst, srcEnd, validPages, Init, Init, 0, 0, false, 1, 0, 0, 0, map[], map[], [], [])
  }

  /** Distinct live keys point to distinct pages, so at most n - 1 of them point below page n. */
  lemma {:induction false} KeysFitPages(ix: Index, file: map<nat, Record>, src: nat, keys: set<Key>, n: nat)
    requires n > 0
    requires forall k :: k in keys ==> PointsInto(ix, k, src) && 1 <= ix[k].offsetIndex < n
    requires forall k :: k in keys ==> k in ix && ix[k].offsetIndex in file && file[ix[k].offsetIndex].key == k
    ensures |keys| < n
  {
    if n == 1 {
      assert forall k :: k !in keys;
    } else if n - 1 in file && file[n - 1].key in keys && ix[file[n - 1].key].offsetIndex == n - 1 {
      var rest := keys - {file[n - 1].key};
      KeysFitPages(ix, file, src, rest, n - 1);
      assert keys == rest + {file[n - 1].key};
    } else {
      KeysFitPages(ix, file, src, keys, n - 1);
    }
  }

  /** A fresh task on a readable source, with a destination nothing points into, starts in order. */
  lemma StartsInOrder(w: World, src: nat, dst: nat, srcEnd: nat, validPages: Option<set<nat>>)
    requires src != dst && src in w.files && dst in w.files && src in w.state && dst in w.state
    requires w.state[src] != Deleted && w.state[dst] != Deleted && srcEnd > 0
    requires forall k :: !PointsInto(w.index, k, dst)
    requires forall k :: PointsInto(w.index, k, src) ==>
      var p := w.index[k].offsetIndex;
      1 <= p < srcEnd && p in w.files[src] && w.files[src][p].key == k && !w.files[src][p].tombstone
      && w.files[src][p].pages == w.index[k].pageCount
    requires forall p :: p in w.files[src] ==> w.files[src][p].pages == 1
    ensures var t := NewTask(src, dst, srcEnd, validPages); Inv(t, w) && Steady(t) && Covering(t, w) && Twin(t, w, w)
  {
    var t := NewTask(src, dst, srcEnd, validPages);
    KeysFitPages(w.index, w.files[src], src, Unclaimed(w.index, [], src), srcEnd);
    forall k | k in w.index && !w.index[k].deleted && w.index[k].fileId in {src, dst}
      ensures PointsInto(w.index, k, src)
    {
      assert !PointsInto(w.index, k, dst);
    }
  }
}
