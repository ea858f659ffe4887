/** No step of a compaction or of its rollback changes what a reader sees. */
module CompactionSafety {
  import opened Types
  import opened IndexRule
  import opened CompactionModel

  // ---------------------------------------------------------------------------------------------
  // The invariant
  // ---------------------------------------------------------------------------------------------

  /** The index has been reverted, or never touched. */
  predicate IndexReverted(t: Task) {
    (t.phase == Rollback && t.ioPending) || t.phase == RollbackMarkSealed || t.phase == Failed
  }

  /** Both files are known; the source stays readable, the destination until the index is reverted. */
  ghost predicate FilesKnown(t: Task, w: World) {
    && t.src != t.dst && t.src in w.files && t.dst in w.files && t.src in w.state && t.dst in w.state
    && w.state[t.src] != Deleted
    && (w.state[t.dst] == Deleted ==> IndexReverted(t))
  }

  /** Live entries into either file point to a record of their key and size. */
  ghost predicate SizesMatch(t: Task, w: World, ix: Index)
    requires t.src in w.files && t.dst in w.files
  {
    forall k :: k in ix && !ix[k].deleted && ix[k].fileId in {t.src, t.dst} ==>
      var file := w.files[ix[k].fileId];
      ix[k].offsetIndex in file && file[ix[k].offsetIndex].pages == ix[k].pageCount && file[ix[k].offsetIndex].key == k
  }

  /** Until the task is done, entries into the destination were put there by a committed migration. */
  ghost predicate DestRefs(t: Task, w: World) {
    t.phase != Done ==>
      forall k :: PointsInto(w.index, k, t.dst) ==> CommittedTo(t.committed, k, w.index[k].offsetIndex)
  }

  ghost predicate CommittedTo(ms: seq<Migrated>, k: Key, p: nat) {
    exists m :: m in ms && m.key == k && m.newOffset == p
  }

  /** m was made from the source record at its old place. */
  ghost predicate MadeFromSource(t: Task, w: World, m: Migrated)
    requires t.src in w.files
  {
    && m.oldFile == t.src && m.newFile == t.dst
    && m.oldOffset in w.files[t.src]
    && w.files[t.src][m.oldOffset].key == m.key && w.files[t.src][m.oldOffset].pages == m.pages < 0x1_0000
  }

  /** The destination holds the copy of m's record. */
  ghost predicate Copied(t: Task, w: World, m: Migrated)
    requires t.src in w.files && t.dst in w.files && m.oldOffset in w.files[t.src]
  {
    m.newOffset in w.files[t.dst] && w.files[t.dst][m.newOffset] == w.files[t.src][m.oldOffset]
  }

  ghost predicate CommittedOk(t: Task, w: World)
    requires t.src in w.files && t.dst in w.files
  {
    forall m :: m in t.committed ==> MadeFromSource(t, w, m) && Copied(t, w, m) && m.newOffset < t.dest
  }

  ghost predicate PendingOk(t: Task, w: World)
    requires t.src in w.files && t.dst in w.files
  {
    && (forall m :: m in t.migrated ==>
         && MadeFromSource(t, w, m)
         && t.dest <= m.newOffset < t.dest + t.used
         && m.newOffset in t.writeBuffer && t.writeBuffer[m.newOffset] == w.files[t.src][m.oldOffset]
         && (t.phase == UpdateIndices ==> Copied(t, w, m)))
    && (forall p :: p in t.writeBuffer ==> t.dest <= p < t.dest + t.used)
  }

  ghost predicate ReadOk(t: Task, w: World)
    requires t.src in w.files
  {
    t.phase == ProcessEntries ==>
      forall p :: p in t.readBuffer ==> p in w.files[t.src] && t.readBuffer[p] == w.files[t.src][p]
  }

  ghost predicate PhaseOk(t: Task) {
    && (t.phase == Init ==> t.committed == [] && t.migrated == [] && t.writeBuffer == map[] && t.used == 0)
    && (t.phase == RetryWait ==> Retryable(t.retryTarget))
    && (t.ioPending ==> DoesIo(t.phase))
    && (IndexReverted(t) ==> t.committed == [] && t.migrated == [])
  }

  ghost predicate Inv(t: Task, w: World) {
    && FilesKnown(t, w) && SizesMatch(t, w, w.index) && DestRefs(t, w) && CommittedOk(t, w) && PendingOk(t, w)
    && ReadOk(t, w) && PhaseOk(t)
  }

  // ---------------------------------------------------------------------------------------------
  // Redirecting an entry to an equal record
  // ---------------------------------------------------------------------------------------------

  ghost predicate SameView(w: World, w': World) {
    forall k :: Visible(w', k) == Visible(w, k)
  }

  /** Only places change: keys, sequences and deleted flags stay, live entries stay or move between src and dst. */
  ghost predicate OnlyMoved(ix: Index, ix': Index, src: nat, dst: nat) {
    && ix'.Keys == ix.Keys
    && forall k :: k in ix ==>
         && ix'[k].key == ix[k].key && ix'[k].sequence == ix[k].sequence && ix'[k].deleted == ix[k].deleted
         && (ix'[k] == ix[k] || (ix[k].fileId in {src, dst} && ix'[k].fileId in {src, dst} && !ix[k].deleted))
  }

  /** The places (f, p) and (f', p') hold the same record of the given size and are readable. */
  ghost predicate SameRecord(w: World, f: nat, p: nat, f': nat, p': nat, pages: Pages) {
    && Readable(w, f) && Readable(w, f') && p in w.files[f] && p' in w.files[f']
    && w.files[f][p] == w.files[f'][p'] && w.files[f][p].pages == pages < 0x1_0000
  }

  lemma RedirectKeepsView(w: World, key: Key, f: nat, p: nat, f': nat, p': nat, pages: Pages)
    requires SameRecord(w, f, p, f', p', pages)
    requires PointsTo(w.index, key, f, p) ==> w.index[key].pageCount == pages
    ensures SameView(w, w.(index := Redirect(w.index, key, f, p, f', p', pages)))
  {
  }

  ghost predicate AllCopied(t: Task, w: World, ms: seq<Migrated>)
    requires t.src in w.files && t.dst in w.files
  {
    forall i :: 0 <= i < |ms| ==> MadeFromSource(t, w, ms[i]) && Copied(t, w, ms[i])
  }

  lemma {:induction false} MigrateAllKeepsView(t: Task, w: World, ms: seq<Migrated>)
    requires FilesKnown(t, w) && Readable(w, t.src) && Readable(w, t.dst)
    requires AllCopied(t, w, ms) && SizesMatch(t, w, w.index)
    ensures var ix' := MigrateAll(w.index, ms);
      && SameView(w, w.(index := ix')) && SizesMatch(t, w, ix') && OnlyMoved(w.index, ix', t.src, t.dst)
  {
    if ms != [] {
      var front, m := ms[..|ms| - 1], ms[|ms| - 1];
      MigrateAllKeepsView(t, w, front);
      var w1 := w.(index := MigrateAll(w.index, front));
      RedirectKeepsView(w1, m.key, m.oldFile, m.oldOffset, m.newFile, m.newOffset, m.pages);
    }
  }

  lemma {:induction false} RevertAllKeepsView(t: Task, w: World, ms: seq<Migrated>)
    requires FilesKnown(t, w) && Readable(w, t.src) && Readable(w, t.dst)
    requires AllCopied(t, w, ms) && SizesMatch(t, w, w.index)
    ensures var ix' := RevertAll(w.index, ms);
      && SameView(w, w.(index := ix')) && SizesMatch(t, w, ix') && OnlyMoved(w.index, ix', t.src, t.dst)
  {
    if ms != [] {
      var front, m := ms[..|ms| - 1], ms[|ms| - 1];
      RevertAllKeepsView(t, w, front);
      var w1 := w.(index := RevertAll(w.index, front));
      RedirectKeepsView(w1, m.key, m.newFile, m.newOffset, m.oldFile, m.oldOffset, m.pages);
    }
  }

  /** A migration only brings listed keys into the destination, and takes none there that is not. */
  lemma {:induction false} MigrateAllRefs(t: Task, ix: Index, ms: seq<Migrated>, k: Key)
    requires t.src != t.dst && forall i :: 0 <= i < |ms| ==> ms[i].oldFile == t.src && ms[i].newFile == t.dst
    ensures var ix' := MigrateAll(ix, ms);
      && (PointsInto(ix', k, t.dst) ==> (k in ix && ix'[k] == ix[k]) || CommittedTo(ms, k, ix'[k].offsetIndex))
      && (PointsInto(ix', k, t.src) ==> k in ix && ix'[k] == ix[k])
      && (k in ix' <==> k in ix)
      && (forall i :: 0 <= i < |ms| ==> !PointsTo(ix', ms[i].key, t.src, ms[i].oldOffset))
  {
    if ms != [] {
      var front, m := ms[..|ms| - 1], ms[|ms| - 1];
      MigrateAllRefs(t, ix, front, k);
      forall i | 0 <= i < |front|
        ensures !PointsTo(MigrateAll(ix, ms), ms[i].key, t.src, ms[i].oldOffset)
      {
        assert !PointsTo(MigrateAll(ix, front), front[i].key, t.src, front[i].oldOffset);
      }
      if PointsInto(MigrateAll(ix, ms), k, t.dst) {
        assert m in ms;
        assert forall x :: x in front ==> x in ms;
      }
    }
  }

  /** After a rollback no key sits at the new place of a listed migration. */
  lemma {:induction false} RevertAllRefs(t: Task, ix: Index, ms: seq<Migrated>, k: Key)
    requires t.src != t.dst && forall i :: 0 <= i < |ms| ==> ms[i].oldFile == t.src && ms[i].newFile == t.dst
    ensures var ix' := RevertAll(ix, ms);
      && (PointsInto(ix', k, t.dst) ==> k in ix && ix'[k] == ix[k])
      && (forall i :: 0 <= i < |ms| ==> !PointsTo(ix', ms[i].key, t.dst, ms[i].newOffset))
  {
    if ms != [] {
      var front, m := ms[..|ms| - 1], ms[|ms| - 1];
      RevertAllRefs(t, ix, front, k);
      forall i | 0 <= i < |front|
        ensures !PointsTo(RevertAll(ix, ms), ms[i].key, t.dst, ms[i].newOffset)
      {
        assert !PointsTo(RevertAll(ix, front), front[i].key, t.dst, front[i].newOffset);
      }
    }
  }

  // ---------------------------------------------------------------------------------------------
  // The steps
  // ---------------------------------------------------------------------------------------------

  ghost predicate Faithful(t: Task, w: World, t': Task, w': World) {
    && t'.src == t.src && t'.dst == t.dst
    && Inv(t', w') && SameView(w, w') && OnlyMoved(w.index, w'.index, t.src, t.dst)
  }

  lemma MigrationsKeepView(t: Task, w: World)
    requires Inv(t, w) && t.phase == UpdateIndices
    ensures var (t', w') := StepTask(t, w, 0, false); Faithful(t, w, t', w')
  {
    var (t', w') := StepTask(t, w, 0, false);
    MigrateAllKeepsView(t, w, t.migrated);
    forall k | PointsInto(w'.index, k, t.dst)
      ensures CommittedTo(t'.committed, k, w'.index[k].offsetIndex)
    {
      MigrateAllRefs(t, w.index, t.migrated, k);
      assert forall m :: m in t.committed || m in t.migrated ==> m in t'.committed;
    }
  }

  /** Reverting a migration that was never committed changes nothing. */
  lemma {:induction false} RevertPendingIsNoop(t: Task, ix: Index, ms: seq<Migrated>)
    requires forall k :: !PointsInto(ix, k, t.dst)
    requires forall i :: 0 <= i < |ms| ==> ms[i].newFile == t.dst
    ensures RevertAll(ix, ms) == ix
  {
    if ms != [] {
      RevertPendingIsNoop(t, ix, ms[..|ms| - 1]);
      assert !PointsInto(ix, ms[|ms| - 1].key, t.dst);
    }
  }

  lemma RollbackKeepsView(t: Task, w: World)
    requires Inv(t, w) && t.phase == Rollback && !t.ioPending
    ensures var (t', w') := StepTask(t, w, 0, false); Faithful(t, w, t', w')
  {
    RollbackIndex(t, w);
    RevertAllKeepsView(t, w, t.committed);
    CommittedRevertClears(t, w);
    var w1 := w.(index := RevertAll(w.index, t.committed));
    hide RevertAll, MadeFromSource, Copied;
    RemovedFileKeepsView(w1, StepTask(t, w, 0, false).1, t.dst);
    hide Visible;
  }

  /** The pending migrations were never committed, so only the committed ones are reverted. */
  lemma RollbackIndex(t: Task, w: World)
    requires Inv(t, w) && t.phase == Rollback && !t.ioPending
    ensures StepTask(t, w, 0, false).1.index == RevertAll(w.index, t.committed)
  {
    RevertAllKeepsView(t, w, t.committed);
    CommittedRevertClears(t, w);
    RevertPendingIsNoop(t, RevertAll(w.index, t.committed), t.migrated);
  }

  /** Marking a file that no live entry points into changes no read. */
  lemma RemovedFileKeepsView(w: World, w': World, f: nat)
    requires forall k :: !PointsInto(w.index, k, f)
    requires w'.index == w.index && w'.files == w.files
    requires w'.state == w.state || w'.state == w.state[f := Deleted]
    ensures SameView(w, w')
  {
    forall k
      ensures Visible(w', k) == Visible(w, k)
    {
      assert !PointsInto(w.index, k, f);
    }
  }

  lemma CommittedRevertClears(t: Task, w: World)
    requires Inv(t, w) && t.phase == Rollback && !t.ioPending
    ensures forall k :: !PointsInto(RevertAll(w.index, t.committed), k, t.dst)
  {
    var ix1 := RevertAll(w.index, t.committed);
    forall k
      ensures !PointsInto(ix1, k, t.dst)
    {
      RevertAllRefs(t, w.index, t.committed, k);
    }
  }

  lemma PushKeepsRest(t: Task, w: World, p: nat)
    requires Inv(t, w) && t.phase == ProcessEntries && p in t.readBuffer
    ensures var t' := Push(t, p);
      FilesKnown(t', w) && DestRefs(t', w) && CommittedOk(t', w) && PhaseOk(t')
  {
  }

  lemma PushKeepsPending(t: Task, w: World, p: nat)
    requires Inv(t, w) && t.phase == ProcessEntries && p in t.readBuffer && ShouldMigrate(t, w.index, p)
    ensures Inv(Push(t, p), w)
    ensures InLoop(t, w) ==> InLoop(Push(t, p), w)
  {
    hide FilesKnown, DestRefs, CommittedOk, PhaseOk, Copied;
    PushKeepsRest(t, w, p);
    var t' := Push(t, p);
    var r := t.readBuffer[p];
    assert r.pages == w.index[r.key].pageCount;
    forall m | m in t'.migrated
      ensures MadeFromSource(t', w, m) && t'.dest <= m.newOffset < t'.dest + t'.used
      ensures m.newOffset in t'.writeBuffer && t'.writeBuffer[m.newOffset] == w.files[t.src][m.oldOffset]
    {
      assert m in t.migrated || m == t'.migrated[|t.migrated|];
    }
  }

  /** The two ways to leave the chunk loop. */
  lemma ChunkLeft(t: Task, w: World)
    requires Inv(t, w) && t.phase == ProcessEntries && !t.ioPending
    ensures Inv(t.(current := t.current + t.bytesRead, phase := ReadChunk), w)
    ensures Inv(t.(phase := WriteChunk), w)
  {
  }

  /** Inside the chunk loop. */
  ghost predicate InLoop(t: Task, w: World) {
    Inv(t, w) && t.phase == ProcessEntries && !t.ioPending
  }

  lemma PushKeepsPlace(t: Task, p: nat)
    requires p in t.readBuffer
    ensures Push(t, p).current == t.current && Push(t, p).bytesRead == t.bytesRead
  {
  }

  lemma {:induction false} ProcessKeepsInv(t: Task, w: World, p: nat)
    requires InLoop(t, w)
    ensures Inv(Process(t, w.index, p), w)
    decreases t.current + t.bytesRead - p
  {
    assert Inv(t, w) && t.phase == ProcessEntries && !t.ioPending;
    ProcessUnfolds(t, w.index, p);
    hide Process, Inv, InLoop, ShouldMigrate, ValidAt, Push;
    if p >= t.current + t.bytesRead {
      ChunkLeft(t, w);
    } else if !ValidAt(t, p) {
      ProcessKeepsInv(t, w, p + 1);
    } else if !ShouldMigrate(t, w.index, p) {
      ProcessKeepsInv(t, w, p + t.readBuffer[p].pages);
    } else if t.used + t.readBuffer[p].pages <= CHUNK_PAGES {
      PushKeepsPending(t, w, p);
      PushKeepsPlace(t, p);
      ProcessKeepsInv(Push(t, p), w, p + t.readBuffer[p].pages);
    } else {
      ChunkLeft(t, w);
    }
  }

  /** The fields the invariant speaks of, apart from the phase. */
  predicate SameBooks(t: Task, t': Task) {
    && t'.src == t.src && t'.dst == t.dst && t'.dest == t.dest && t'.used == t.used
    && t'.committed == t.committed && t'.migrated == t.migrated && t'.writeBuffer == t.writeBuffer
  }

  /** Steps that only move the task on. */
  lemma PhaseChange(t: Task, w: World, t': Task)
    requires Inv(t, w) && SameBooks(t, t') && PhaseOk(t') && t'.phase != ProcessEntries && t'.phase != UpdateIndices
    requires (IndexReverted(t) ==> IndexReverted(t')) && (t.phase == Done ==> t'.phase == Done)
    ensures Faithful(t, w, t', w)
  {
  }

  /** Steps that also change the state of the source file, or metadata. */
  lemma StateChange(t: Task, w: World, t': Task, s: FileState, meta: map<nat, FileState>)
    requires Inv(t, w) && s != Deleted && Faithful(t, w, t', w)
    ensures Faithful(t, w, t', w.(state := w.state[t.src := s], meta := meta))
    ensures Faithful(t, w, t', w.(meta := meta))
  {
  }

  lemma ProcessKeepsView(t: Task, w: World)
    requires InLoop(t, w)
    ensures Faithful(t, w, Process(t, w.index, t.current), w)
  {
    hide Inv, Process;
    ProcessKeepsInv(t, w, t.current);
  }

  /** A step of the task keeps the invariant and the view. */
  lemma StepKeepsView(t: Task, w: World, error: int, elapsed: bool)
    requires Inv(t, w)
    ensures var (t', w') := StepTask(t, w, error, elapsed); Faithful(t, w, t', w')
  {
    hide Inv, Faithful, Process, MigrateAll, RevertAll;
    var (t', w') := StepTask(t, w, error, elapsed);
    if t.ioPending || t.phase == Failed || t.phase == Done {
      NoChange(t, w);
    } else if t.phase == ProcessEntries {
      ProcessKeepsView(t, w);
    } else if t.phase == UpdateIndices {
      MigrationsKeepView(t, w);
    } else if t.phase == Rollback {
      RollbackKeepsView(t, w);
    } else if t.phase == Init {
      InitKeepsInv(t, w, error);
    } else {
      StepInvariantParts(t, w, error, elapsed);
      PhaseChange(t, w, t');
      StateChange(t, w, t', if t.phase == MarkCompacting then Compacting else Sealed, w'.meta);
    }
  }

  lemma NoChange(t: Task, w: World)
    requires Inv(t, w)
    ensures Faithful(t, w, t, w)
  {
  }

  lemma InitKeepsInv(t: Task, w: World, error: int)
    requires Inv(t, w) && t.phase == Init
    ensures Faithful(t, w, StartInit(t, error), w)
  {
  }

  lemma StepInvariantParts(t: Task, w: World, error: int, elapsed: bool)
    requires Inv(t, w) && !t.ioPending && !t.phase.ProcessEntries? && !t.phase.UpdateIndices?
    requires !t.phase.Rollback? && !t.phase.Init? && !t.phase.Failed? && !t.phase.Done?
    ensures var (t', w') := StepTask(t, w, error, elapsed);
      && SameBooks(t, t') && PhaseOk(t') && t'.phase != ProcessEntries && t'.phase != UpdateIndices
      && (IndexReverted(t) ==> IndexReverted(t')) && (t.phase == Done ==> t'.phase == Done)
      && w'.index == w.index && w'.files == w.files
  {
  }

  // ---------------------------------------------------------------------------------------------
  // Completions
  // ---------------------------------------------------------------------------------------------

  ghost predicate AgreeBelow(file: map<nat, Record>, file': map<nat, Record>, n: nat) {
    forall p :: p < n ==> (p in file' <==> p in file) && (p in file ==> file'[p] == file[p])
  }

  /** The destination may change at and after the current write position. */
  lemma DestChange(t: Task, w: World, file: map<nat, Record>)
    requires Inv(t, w) && t.phase == WriteChunk && AgreeBelow(w.files[t.dst], file, t.dest)
    ensures Faithful(t, w, t, w.(files := w.files[t.dst := file]))
  {
    forall k | PointsInto(w.index, k, t.dst)
      ensures w.index[k].offsetIndex < t.dest
    {
      assert CommittedTo(t.committed, k, w.index[k].offsetIndex);
    }
  }

  lemma WriteKeepsView(t: Task, w: World, status: int, garbage: map<nat, Record>)
    requires Inv(t, w) && t.ioPending && t.phase == WriteChunk
    ensures var (t', w') := CompleteIo(t, w, status, garbage); Faithful(t, w, t', w')
  {
    var (t', w') := CompleteIo(t, w, status, garbage);
    DestChange(t, w, w'.files[t.dst]);
    if status == 0 {
      WriteCommits(t, w, w'.files[t.dst]);
    } else {
      PhaseChange(t, w', t');
    }
  }

  /** A successful write has copied every pending record. */
  lemma WriteCommits(t: Task, w: World, file: map<nat, Record>)
    requires Inv(t, w) && t.phase == WriteChunk && file == Written(w.files[t.dst], t.writeBuffer, t.dest, t.used)
    requires Inv(t, w.(files := w.files[t.dst := file]))
    ensures var t' := t.(ioPending := false, retryCount := 0, phase := UpdateIndices);
      Inv(t', w.(files := w.files[t.dst := file]))
  {
  }

  lemma RemovalKeepsView(t: Task, w: World, status: int)
    requires Inv(t, w) && t.ioPending && t.phase == Rollback
    ensures var (t', w') := CompleteIo(t, w, status, map[]); Faithful(t, w, t', w')
  {
    assert IndexReverted(t);
  }

  lemma ReadKeepsInv(t: Task, w: World)
    requires Inv(t, w) && t.ioPending && t.phase == ReadChunk
    ensures var (t', w') := CompleteIo(t, w, 0, map[]); Faithful(t, w, t', w')
  {
  }

  lemma EndKeepsInv(t: Task, w: World, status: int)
    requires Inv(t, w) && t.ioPending && (t.phase == MarkDeleted || t.phase == RollbackMarkSealed)
    ensures var (t', w') := CompleteIo(t, w, status, map[]); Faithful(t, w, t', w')
  {
    if t.phase == MarkDeleted && status != 0 {
      PhaseChange(t, w, CompleteIo(t, w, status, map[]).0);
    }
  }

  /** The completion of the pending IO keeps invariant and view, whatever the status and whatever a failed
      write left behind. */
  lemma CompletionKeepsView(t: Task, w: World, status: int, garbage: map<nat, Record>)
    requires Inv(t, w)
    ensures var (t', w') := CompleteIo(t, w, status, garbage); Faithful(t, w, t', w')
  {
    if !t.ioPending {
      NoChange(t, w);
    } else if t.phase == WriteChunk {
      WriteKeepsView(t, w, status, garbage);
    } else if t.phase == Rollback {
      RemovalKeepsView(t, w, status);
    } else if t.phase == ReadChunk && status == 0 {
      ReadKeepsInv(t, w);
    } else if t.phase == MarkDeleted || t.phase == RollbackMarkSealed {
      EndKeepsInv(t, w, status);
    } else {
      PhaseChange(t, w, CompleteIo(t, w, status, garbage).0);
    }
  }

  // ---------------------------------------------------------------------------------------------
  // Whole runs: compaction is invisible
  // ---------------------------------------------------------------------------------------------

  /** The two indexes agree on key k but for where in source or destination its record is. */
  ghost predicate TwinEntries(ix: Index, jx: Index, src: nat, dst: nat, k: Key) {
    && (k in ix <==> k in jx)
    && (k in ix ==>
         && jx[k].key == ix[k].key && jx[k].sequence == ix[k].sequence && jx[k].deleted == ix[k].deleted
         && (jx[k] == ix[k] || ix[k].deleted || (ix[k].fileId in {src, dst} && jx[k].fileId in {src, dst})))
  }

  /** w is the world with the compaction, v the same world without it: equal but for where the records
      of the source are, and with the same view. */
  ghost predicate Twin(t: Task, w: World, v: World) {
    && SameView(w, v)
    && (forall k :: TwinEntries(w.index, v.index, t.src, t.dst, k))
    && v.files.Keys == w.files.Keys
    && (forall f :: f in w.files && f != t.dst ==> v.files[f] == w.files[f])
    && (forall f :: f != t.src && f != t.dst ==>
          (f in v.state <==> f in w.state) && (f in w.state ==> v.state[f] == w.state[f]))
  }

  /** A foreground completion keeps the invariant. */
  lemma UserKeepsInv(t: Task, w: World, e: Event)
    requires Inv(t, w) && Allowed(t, w, e) && (e.UserPut? || e.UserRemove?)
    ensures Inv(t, ApplyUser(w, e))
  {
    UserKeepsRefs(t, w, e);
    hide DestRefs, SizesMatch, CommittedTo, MadeFromSource, PutRecord, Upsert, Remove;
    var w' := ApplyUser(w, e);
    assert w'.files[t.src] == w.files[t.src] && w'.files[t.dst] == w.files[t.dst];
    SourceRecordsStay(t, w, w');
  }

  lemma SourceRecordsStay(t: Task, w: World, w': World)
    requires t.src in w.files && t.src in w'.files && w'.files[t.src] == w.files[t.src]
    ensures forall m :: MadeFromSource(t, w, m) ==> MadeFromSource(t, w', m)
  {
  }

  lemma UserKeepsRefs(t: Task, w: World, e: Event)
    requires FilesKnown(t, w) && SizesMatch(t, w, w.index) && DestRefs(t, w)
    requires Allowed(t, w, e) && (e.UserPut? || e.UserRemove?)
    ensures var w' := ApplyUser(w, e);
      t.src in w'.files && t.dst in w'.files && SizesMatch(t, w', w'.index) && DestRefs(t, w')
  {
    var w' := ApplyUser(w, e);
    forall k | PointsInto(w'.index, k, t.dst)
      ensures t.phase != Done ==> CommittedTo(t.committed, k, w'.index[k].offsetIndex)
    {
      assert PointsInto(w.index, k, t.dst) && w'.index[k].offsetIndex == w.index[k].offsetIndex;
    }
  }

  /** Only the file changes: a record is written outside source and destination. */
  lemma RecordKeepsTwin(t: Task, w: World, v: World, f: nat, p: nat, r: Record)
    requires Twin(t, w, v) && f in w.files && f != t.src && f != t.dst
    ensures Twin(t, w.(files := w.files[f := PutRecord(w.files[f], p, r)]),
                 v.(files := v.files[f := PutRecord(v.files[f], p, r)]))
  {
    var w' := w.(files := w.files[f := PutRecord(w.files[f], p, r)]);
    var v' := v.(files := v.files[f := PutRecord(v.files[f], p, r)]);
    forall k
      ensures Visible(v', k) == Visible(w', k)
    {
      RecordKeepsView(t, w, v, f, p, r, k);
    }
    hide Visible, TwinEntries, PutRecord;
    assert forall k :: TwinEntries(w.index, v.index, t.src, t.dst, k);
  }

  lemma RecordKeepsView(t: Task, w: World, v: World, f: nat, p: nat, r: Record, k: Key)
    requires Twin(t, w, v) && f in w.files && f != t.src && f != t.dst
    ensures Visible(v.(files := v.files[f := PutRecord(v.files[f], p, r)]), k)
         == Visible(w.(files := w.files[f := PutRecord(w.files[f], p, r)]), k)
  {
    assert Visible(v, k) == Visible(w, k);
    assert TwinEntries(w.index, v.index, t.src, t.dst, k);
  }

  /** Only the index changes. */
  lemma UpsertKeepsTwin(t: Task, w: World, v: World, x: IndexEntry)
    requires Twin(t, w, v) && x.fileId != t.src && x.fileId != t.dst
    ensures Twin(t, w.(index := Upsert(w.index, x.key, x)), v.(index := Upsert(v.index, x.key, x)))
  {
    var w', v' := w.(index := Upsert(w.index, x.key, x)), v.(index := Upsert(v.index, x.key, x));
    forall k
      ensures Visible(v', k) == Visible(w', k)
      ensures TwinEntries(w'.index, v'.index, t.src, t.dst, k)
    {
      assert Visible(v, k) == Visible(w, k);
      assert TwinEntries(w.index, v.index, t.src, t.dst, k);
    }
  }

  lemma PutKeepsTwin(t: Task, w: World, v: World, e: Event)
    requires Twin(t, w, v) && Allowed(t, w, e) && e.UserPut?
    ensures Twin(t, ApplyUser(w, e), ApplyUser(v, e))
  {
    var x := e.entry;
    UpsertKeepsTwin(t, w, v, x);
    var w1, v1 := w.(index := Upsert(w.index, x.key, x)), v.(index := Upsert(v.index, x.key, x));
    assert v.files.Keys == w.files.Keys;
    hide Twin;
    if x.fileId in w.files {
      RecordKeepsTwin(t, w1, v1, x.fileId, x.offsetIndex, e.record);
    }
  }

  lemma RemoveKeepsTwin(t: Task, w: World, v: World, e: Event)
    requires Twin(t, w, v) && e.UserRemove?
    ensures Twin(t, ApplyUser(w, e), ApplyUser(v, e))
  {
    var w', v' := ApplyUser(w, e), ApplyUser(v, e);
    forall k
      ensures Visible(v', k) == Visible(w', k)
      ensures TwinEntries(w'.index, v'.index, t.src, t.dst, k)
    {
      assert Visible(v, k) == Visible(w, k);
      assert TwinEntries(w.index, v.index, t.src, t.dst, k);
    }
  }

  /** What a step or completion of the task leaves alone. */
  ghost predicate ElsewhereSame(t: Task, w: World, w': World) {
    && w'.files.Keys == w.files.Keys
    && (forall f :: f in w.files && f != t.dst ==> w'.files[f] == w.files[f])
    && (forall f :: f != t.src && f != t.dst ==>
          (f in w'.state <==> f in w.state) && (f in w.state ==> w'.state[f] == w.state[f]))
  }

  lemma TaskKeepsTwin(t: Task, w: World, t': Task, w': World, v: World)
    requires Twin(t, w, v) && SameView(w, w') && OnlyMoved(w.index, w'.index, t.src, t.dst) && ElsewhereSame(t, w, w')
    requires t'.src == t.src && t'.dst == t.dst
    ensures Twin(t', w', v)
  {
    forall k
      ensures Visible(v, k) == Visible(w', k)
      ensures TwinEntries(w'.index, v.index, t.src, t.dst, k)
    {
      assert Visible(v, k) == Visible(w, k) && Visible(w', k) == Visible(w, k);
      assert TwinEntries(w.index, v.index, t.src, t.dst, k);
    }
  }

  lemma TaskEventsStayLocal(t: Task, w: World, e: Event)
    requires t.src in w.files && t.dst in w.files && (e.Step? || e.Complete?)
    ensures ElsewhereSame(t, w, Apply(t, w, e).1)
  {
    hide MigrateAll, RevertAll, Written, NextTask, CompletedTask;
  }

  /** One event of any kind. */
  lemma EventKeepsTwin(t: Task, w: World, v: World, e: Event)
    requires Inv(t, w) && Twin(t, w, v) && Allowed(t, w, e)
    ensures var (t', w') := Apply(t, w, e);
      Inv(t', w') && Twin(t', w', UserRun(v, [e]))
  {
    hide Inv, Twin, OnlyMoved, SameView, ElsewhereSame, StepTask, CompleteIo;
    assert t.src in w.files && t.dst in w.files by { KnownFiles(t, w); }
    match e {
      case Step(error, elapsed) =>
        StepKeepsView(t, w, error, elapsed);
        TaskEventsStayLocal(t, w, e);
        TaskKeepsTwin(t, w, Apply(t, w, e).0, Apply(t, w, e).1, v);
      case Complete(status, garbage) =>
        CompletionKeepsView(t, w, status, garbage);
        TaskEventsStayLocal(t, w, e);
        TaskKeepsTwin(t, w, Apply(t, w, e).0, Apply(t, w, e).1, v);
      case UserPut(_, _) =>
        UserKeepsInv(t, w, e);
        PutKeepsTwin(t, w, v, e);
      case UserRemove(_) =>
        UserKeepsInv(t, w, e);
        RemoveKeepsTwin(t, w, v, e);
    }
    assert UserRun(v, [e]) == if e.UserPut? || e.UserRemove? then ApplyUser(v, e) else v;
  }

  lemma TwinOfItself(t: Task, w: World)
    ensures Twin(t, w, w)
  {
  }

  lemma KnownFiles(t: Task, w: World)
    requires Inv(t, w)
    ensures t.src in w.files && t.dst in w.files
  {
  }

  /** The main result: over any run, whatever the interleaving of task steps, IO completions with any
      status, and foreground completions, every key reads exactly as if there were no compaction. */
  lemma {:induction false} CompactionIsInvisible(t: Task, w: World, v: World, es: seq<Event>)
    requires Inv(t, w) && Twin(t, w, v) && AllowedRun(t, w, es)
    ensures var (t', w') := Run(t, w, es);
      Inv(t', w') && forall k :: Visible(w', k) == Visible(UserRun(v, es), k)
    decreases |es|
  {
    if es != [] {
      EventKeepsTwin(t, w, v, es[0]);
      var (t1, w1) := Apply(t, w, es[0]);
      CompactionIsInvisible(t1, w1, UserRun(v, [es[0]]), es[1..]);
    }
  }
}
