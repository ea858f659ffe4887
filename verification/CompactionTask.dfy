/** The compaction task in place: its fields, its step function with one handler a phase, its IO callbacks. */
module CompactionTasks {
  import opened Types
  import opened IndexRule
  import opened CompactionModel
  import opened CompactionSafety

  /** The part of the engine a compaction works on. */
  class Engine {
    var index: Index
    var files: map<nat, map<nat, Record>>
    var state: map<nat, FileState>
    var meta: map<nat, FileState>

    constructor (w: World)
      ensures Contents() == w
    {
      index, files, state, meta := w.index, w.files, w.state, w.meta;
    }

    ghost function Contents(): World
      reads this
    {
      World(index, files, state, meta)
    }
  }

  lemma RollbackStep(t: Task, w: World)
    requires t.phase == Rollback && !t.ioPending
    ensures StepTask(t, w, 0, false) ==
      (DoRollback(t), w.(index := RevertAll(RevertAll(w.index, t.committed), t.migrated),
                         state := if t.dest > 1 then w.state[t.dst := Deleted] else w.state,
                         meta := if t.dest > 1 then w.meta[t.dst := Deleted] else w.meta))
  {
  }

  class CompactionTask {
    const engine: Engine
    const src: nat
    const dst: nat
    const srcEnd: nat
    const validPages: Option<set<nat>>
    var phase: Phase
    var retryTarget: Phase
    var retryCount: nat
    var lastError: int
    var ioPending: bool
    var current: nat
    var dest: nat
    var used: nat
    var bytesRead: nat
    var readBuffer: map<nat, Record>
    var writeBuffer: map<nat, Record>
    var migrated: seq<Migrated>
    var committed: seq<Migrated>

    /** The task as a value. */
    ghost function Value(): Task
      reads this
    {
      Task(src, dst, srcEnd, validPages, phase, retryTarget, retryCount, lastError, ioPending, current, dest, used,
           bytesRead, readBuffer, writeBuffer, migrated, committed)
    }

    constructor (engine: Engine, src: nat, dst: nat, srcEnd: nat, validPages: Option<set<nat>>)
      ensures Value() == Task(src, dst, srcEnd, validPages, Init, Init, 0, 0, false, 1, 0, 0, 0, map[], map[], [], [])
      ensures this.engine == engine
    {
      this.engine := engine;
      this.src, this.dst, this.srcEnd, this.validPages := src, dst, srcEnd, validPages;
      phase, retryTarget, retryCount, lastError, ioPending := Init, Init, 0, 0, false;
      current, dest, used, bytesRead := 1, 0, 0, 0;
      readBuffer, writeBuffer, migrated, committed := map[], map[], [], [];
    }

    /** One step. */
    method Step(error: int, elapsed: bool)
      modifies this, engine
      ensures (Value(), engine.Contents()) == StepTask(old(Value()), old(engine.Contents()), error, elapsed)
    {
      if ioPending {
        return;
      }
      match phase {
        case Init =>
          if error != 0 {
            lastError, phase := error, Failed;
          } else {
            dest, migrated, phase := 1, [], MarkCompacting;
          }
        case MarkCompacting =>
          engine.meta, engine.state := engine.meta[src := Compacting], engine.state[src := Compacting];
          ioPending := true;
        case ReadChunk => ReadNextChunk();
        case ProcessEntries => DoProcessEntries();
        case WriteChunk =>
          if used == 0 {
            phase := ReadChunk;
          } else {
            ioPending := true;
          }
        case UpdateIndices => DoUpdateIndices();
        case Finalize => phase := if used > 0 then WriteChunk else MarkDeleted;
        case MarkDeleted =>
          engine.meta := engine.meta[src := Deleted];
          ioPending := true;
        case RetryWait =>
          if elapsed {
            phase := retryTarget;
          }
        case Rollback => StartRollback();
        case RollbackMarkSealed =>
          engine.meta, engine.state := engine.meta[src := Sealed], engine.state[src := Sealed];
          ioPending := true;
        case Failed =>
        case Done =>
      }
    }

    method ReadNextChunk()
      requires phase == ReadChunk && !ioPending
      modifies this
      ensures Value() == StartRead(old(Value()))
    {
      SkipInvalidPages();
      if current >= srcEnd {
        phase := if used > 0 then WriteChunk else Finalize;
      } else {
        ioPending := true;
      }
    }

    method SkipInvalidPages()
      modifies this`current
      ensures current == SkipInvalid(old(Value()), old(current))
    {
      if validPages.None? {
        return;
      }
      while current < srcEnd
        invariant SkipInvalid(old(Value()), current) == SkipInvalid(old(Value()), old(current))
        decreases srcEnd - current
      {
        if current in validPages.value {
          break;
        }
        current := current + 1;
      }
    }

    /** Copies the records that the index still points to into the write buffer, page by page. A full
        buffer ends the loop with the chunk to be read again. */
    method DoProcessEntries()
      requires phase == ProcessEntries && !ioPending
      modifies this
      ensures Value() == Process(old(Value()), engine.index, old(current))
    {
      hide Process, Push;
      var p := current;
      var end := current + bytesRead;
      while p < end
        invariant Process(Value(), engine.index, p) == Process(old(Value()), engine.index, old(current))
        invariant current == old(current) && bytesRead == old(bytesRead)
        decreases end - p
      {
        ProcessUnfolds(Value(), engine.index, p);
        if !(p in readBuffer && p + readBuffer[p].pages <= end) {
          p := p + 1;
          continue;
        }
        var r := readBuffer[p];
        if PointsTo(engine.index, r.key, src, p) && !r.tombstone {
          if used + r.pages > CHUNK_PAGES {
            phase := WriteChunk;
            return;
          }
          CopyRecord(p);
        }
        p := p + r.pages;
      }
      ProcessUnfolds(Value(), engine.index, p);
      current := current + bytesRead;
      phase := ReadChunk;
    }

    method CopyRecord(p: nat)
      requires p in readBuffer
      modifies this`writeBuffer, this`migrated, this`used
      ensures Value() == Push(old(Value()), p)
    {
      var r := readBuffer[p];
      writeBuffer := writeBuffer[dest + used := r];
      migrated := migrated + [Migrated(r.key, src, p, dst, dest + used, r.pages, r.sequence)];
      used := used + r.pages;
    }

    /** Redirects the index entries that still point to the old place. */
    method DoUpdateIndices()
      requires phase == UpdateIndices && !ioPending
      modifies this, engine`index
      ensures Value() == CommitMigrations(old(Value()))
      ensures engine.index == MigrateAll(old(engine.index), old(migrated))
    {
      for i := 0 to |migrated|
        invariant Value() == old(Value())
        invariant engine.index == MigrateAll(old(engine.index), migrated[..i])
      {
        var m := migrated[i];
        assert migrated[..i + 1][..i] == migrated[..i];
        if PointsTo(engine.index, m.key, m.oldFile, m.oldOffset) {
          var e := engine.index[m.key];
          engine.index := engine.index[m.key :=
            e.(fileId := m.newFile, offsetIndex := m.newOffset, pageCount := m.pages % 0x1_0000)];
        }
      }
      assert migrated[..|migrated|] == migrated;
      CommitBatch();
    }

    method CommitBatch()
      modifies this
      ensures Value() == CommitMigrations(old(Value()))
    {
      committed, migrated := committed + migrated, [];
      dest, used := dest + used, 0;
      writeBuffer := map[];
      phase := ReadChunk;
    }

    /** Restores the old place of the entries that sit at a new one. */
    method RevertList(ms: seq<Migrated>)
      modifies engine`index
      ensures engine.index == RevertAll(old(engine.index), ms)
    {
      for i := 0 to |ms|
        invariant engine.index == RevertAll(old(engine.index), ms[..i])
      {
        var m := ms[i];
        assert ms[..i + 1][..i] == ms[..i];
        if PointsTo(engine.index, m.key, m.newFile, m.newOffset) {
          var e := engine.index[m.key];
          engine.index := engine.index[m.key :=
            e.(fileId := m.oldFile, offsetIndex := m.oldOffset, pageCount := m.pages % 0x1_0000)];
        }
      }
      assert ms[..|ms|] == ms;
    }

    method StartRollback()
      requires phase == Rollback && !ioPending
      modifies this, engine
      ensures (Value(), engine.Contents()) == StepTask(old(Value()), old(engine.Contents()), 0, false)
    {
      ghost var t, w := Value(), engine.Contents();
      RollbackStep(t, w);
      hide StepTask, RevertAll;
      RevertList(committed);
      committed := [];
      RevertList(migrated);
      migrated := [];
      if dest > 1 {
        engine.state, engine.meta := engine.state[dst := Deleted], engine.meta[dst := Deleted];
        ioPending := true;
      } else {
        phase := RollbackMarkSealed;
      }
    }

    method OnIoError(target: Phase, code: int)
      modifies this
      ensures Value() == HandleIoError(old(Value()), target, code)
    {
      retryCount := retryCount + 1;
      lastError := code;
      if (code == -EAGAIN || code == -EBUSY || code == -ENOMEM) && retryCount < MAX_RETRY {
        retryTarget, phase := target, RetryWait;
      } else {
        phase := Rollback;
      }
    }

    method OnChunkRead(status: int)
      requires src in engine.files && phase == ReadChunk
      modifies this
      ensures Value() == if status != 0 then HandleIoError(old(Value()), ReadChunk, status)
                         else var n := ReadSize(old(current), srcEnd);
                           old(Value()).(bytesRead := n, phase := ProcessEntries,
                                         readBuffer := Chunk(engine.files[src], old(current), n))
    {
      if status == 0 {
        bytesRead := ReadSize(current, srcEnd);
        readBuffer := Chunk(engine.files[src], current, bytesRead);
        phase := ProcessEntries;
      } else {
        OnIoError(ReadChunk, status);
      }
    }

    method OnChunkWritten(status: int, garbage: map<nat, Record>)
      requires dst in engine.files && phase == WriteChunk
      modifies this, engine`files
      ensures engine.files == old(engine.files)[dst :=
        Written(old(engine.files)[dst], if status == 0 then old(writeBuffer) else garbage, old(dest), old(used))]
      ensures Value() == if status == 0 then old(Value()).(retryCount := 0, phase := UpdateIndices)
                         else HandleIoError(old(Value()), WriteChunk, status)
    {
      var written := Written(engine.files[dst], if status == 0 then writeBuffer else garbage, dest, used);
      engine.files := engine.files[dst := written];
      if status == 0 {
        retryCount, phase := 0, UpdateIndices;
      } else {
        OnIoError(WriteChunk, status);
      }
    }

    /** The callback of the pending IO. */
    method OnIoComplete(status: int, garbage: map<nat, Record>)
      requires src in engine.files && dst in engine.files
      modifies this, engine
      ensures Value() == CompletedTask(old(Value()), old(engine.files)[src], status)
      ensures engine.Contents() == CompletedWorld(old(Value()), old(engine.Contents()), status, garbage)
    {
      hide Written, Chunk, HandleIoError, ReadSize;
      if !ioPending {
        return;
      }
      ioPending := false;
      match phase {
        case MarkCompacting =>
          if status == 0 {
            phase := ReadChunk;
          } else {
            OnIoError(MarkCompacting, status);
          }
        case ReadChunk => OnChunkRead(status);
        case WriteChunk => OnChunkWritten(status, garbage);
        case MarkDeleted => OnMarkedDeleted(status);
        case Rollback =>
          if status == 0 {
            engine.files := engine.files[dst := map[]];
          }
          phase := RollbackMarkSealed;
        case RollbackMarkSealed => OnSealed();
        case _ =>
      }
    }

    method OnSealed()
      modifies this
      ensures Value() == old(Value()).(phase := Failed, migrated := [], committed := [], used := 0,
          writeBuffer := map[])
    {
      migrated, committed, used, writeBuffer, phase := [], [], 0, map[], Failed;
    }

    method OnMarkedDeleted(status: int)
      modifies this
      ensures Value() == if status == 0 then old(Value()).(phase := Done, committed := [], migrated := [])
                         else HandleIoError(old(Value()), MarkDeleted, status)
    {
      if status == 0 {
        committed, migrated, phase := [], [], Done;
      } else {
        OnIoError(MarkDeleted, status);
      }
    }

    /** One event of any kind. */
    method Handle(e: Event)
      requires src in engine.files && dst in engine.files
      modifies this, engine
      ensures (Value(), engine.Contents()) == Apply(old(Value()), old(engine.Contents()), e)
      ensures engine.files.Keys == old(engine.files).Keys
    {
      match e {
        case Step(error, elapsed) => Step(error, elapsed);
        case Complete(status, garbage) => OnIoComplete(status, garbage);
        case UserPut(x, r) =>
          engine.index := Upsert(engine.index, x.key, x);
          if x.fileId in engine.files {
            engine.files := engine.files[x.fileId := PutRecord(engine.files[x.fileId], x.offsetIndex, r)];
          }
        case UserRemove(k) => engine.index := Remove(engine.index, k);
      }
    }

    /** Driving the task through any list of events keeps every key's value, but for the foreground ones. */
    method Drive(es: seq<Event>)
      requires Inv(Value(), engine.Contents()) && src in engine.files && dst in engine.files
      requires AllowedRun(Value(), engine.Contents(), es)
      modifies this, engine
      ensures (Value(), engine.Contents()) == Run(old(Value()), old(engine.Contents()), es)
      ensures forall k :: Visible(engine.Contents(), k) == Visible(UserRun(old(engine.Contents()), es), k)
    {
      hide Inv, Apply, Visible;
      ghost var t0, w0 := Value(), engine.Contents();
      TwinOfItself(t0, w0);
      CompactionIsInvisible(t0, w0, w0, es);
      var i := 0;
      while i < |es|
        invariant 0 <= i <= |es| && src in engine.files && dst in engine.files
        invariant Run(Value(), engine.Contents(), es[i..]) == Run(t0, w0, es)
        decreases |es| - i
      {
        Handle(es[i]);
        assert es[i..][1..] == es[i + 1..];
        i := i + 1;
      }
    }
  }
}
