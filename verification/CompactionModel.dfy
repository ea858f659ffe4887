/** One compaction as a value: the task, and what each step and each completion does to it and the engine. */
module CompactionModel {
  // Offsets and sizes are in pages. The class in CompactionTask.dfy runs the same steps in place.

  import opened Types
  import opened IndexRule

  const CHUNK_PAGES: nat := 256
  const MAX_RETRY: nat := 3
  const EAGAIN: int := 11
  const EBUSY: int := 16
  const ENOMEM: int := 12

  type Pages = n: nat | n > 0 witness 1

  /** What a parse at a page yields when magic and checksum are right. */
  datatype Record = Record(key: Key, sequence: u32, tombstone: bool, pages: Pages, value: seq<u8>)

  datatype FileState = Active | Sealed | Compacting | Deleted

  /** files[f][p] is the record a parse at page p of file f yields; other pages parse as nothing. */
  datatype World = World(
    index: Index,
    files: map<nat, map<nat, Record>>,
    state: map<nat, FileState>,
    meta: map<nat, FileState>)

  datatype Phase =
    | Init | MarkCompacting | ReadChunk | ProcessEntries | WriteChunk | UpdateIndices | Finalize | MarkDeleted
    | RetryWait | Rollback | RollbackMarkSealed | Failed | Done

  datatype Migrated = Migrated(
    key: Key, oldFile: nat, oldOffset: nat, newFile: nat, newOffset: nat, pages: Pages, sequence: u32)

  datatype Task = Task(
    src: nat,
    dst: nat,
    srcEnd: nat,
    validPages: Option<set<nat>>,
    phase: Phase,
    retryTarget: Phase,
    retryCount: nat,
    lastError: int,
    ioPending: bool,
    current: nat,
    dest: nat,
    used: nat,
    bytesRead: nat,
    readBuffer: map<nat, Record>,
    writeBuffer: map<nat, Record>,
    migrated: seq<Migrated>,
    committed: seq<Migrated>)

  // ---------------------------------------------------------------------------------------------
  // The view a reader has
  // ---------------------------------------------------------------------------------------------

  predicate Readable(w: World, f: nat) {
    f in w.state && w.state[f] != Deleted && f in w.files
  }

  /** The value `get` returns: the index entry's file must be readable and hold a record of its size there. */
  function Visible(w: World, key: Key): Option<seq<u8>> {
    match Find(w.index, key)
    case None => None
    case Some(e) =>
      if Readable(w, e.fileId) && e.offsetIndex in w.files[e.fileId]
         && w.files[e.fileId][e.offsetIndex].pages == e.pageCount
      then Some(w.files[e.fileId][e.offsetIndex].value) else None
  }

  /** The live entry of key points to page p of file f. */
  predicate PointsTo(ix: Index, key: Key, f: nat, p: nat) {
    key in ix && !ix[key].deleted && ix[key].fileId == f && ix[key].offsetIndex == p
  }

  predicate PointsInto(ix: Index, key: Key, f: nat) {
    key in ix && !ix[key].deleted && ix[key].fileId == f
  }

  // ---------------------------------------------------------------------------------------------
  // Moving index entries
  // ---------------------------------------------------------------------------------------------

  /** Redirects the live entry of a key from one place to another, if it still points to the first. */
  function Redirect(ix: Index, key: Key, f: nat, p: nat, f': nat, p': nat, pages: Pages): Index {
    if PointsTo(ix, key, f, p)
    then ix[key := ix[key].(fileId := f', offsetIndex := p', pageCount := pages % 0x1_0000)]
    else ix
  }

  function Migrate(ix: Index, m: Migrated): Index {
    Redirect(ix, m.key, m.oldFile, m.oldOffset, m.newFile, m.newOffset, m.pages)
  }

  function Revert(ix: Index, m: Migrated): Index {
    Redirect(ix, m.key, m.newFile, m.newOffset, m.oldFile, m.oldOffset, m.pages)
  }

  function MigrateAll(ix: Index, ms: seq<Migrated>): Index {
    if ms == [] then ix else Migrate(MigrateAll(ix, ms[..|ms| - 1]), ms[|ms| - 1])
  }

  function RevertAll(ix: Index, ms: seq<Migrated>): Index {
    if ms == [] then ix else Revert(RevertAll(ix, ms[..|ms| - 1]), ms[|ms| - 1])
  }

  // ---------------------------------------------------------------------------------------------
  // The steps of the task
  // ---------------------------------------------------------------------------------------------

  /** error is 0 if the buffers and the destination file could be had and the source is known. */
  function StartInit(t: Task, error: int): Task {
    if error == 0 then t.(phase := MarkCompacting, dest := 1, migrated := [])
    else t.(phase := Failed, lastError := error)
  }

  function SkipInvalid(t: Task, p: nat): nat
    decreases t.srcEnd - p
  {
    if t.validPages.None? || p >= t.srcEnd || p in t.validPages.value then p else SkipInvalid(t, p + 1)
  }

  function StartRead(t: Task): Task {
    var t' := t.(current := SkipInvalid(t, t.current));
    if t'.current >= t'.srcEnd then
      t'.(phase := if t'.used > 0 then WriteChunk else Finalize)
    else
      t'.(ioPending := true)
  }

  function ReadSize(current: nat, end: nat): nat {
    if current >= end then 0 else Min(CHUNK_PAGES, end - current)
  }

  /** The record at page p, if it lies within the chunk. */
  predicate ValidAt(t: Task, p: nat) {
    p in t.readBuffer && p + t.readBuffer[p].pages <= t.current + t.bytesRead
  }

  predicate ShouldMigrate(t: Task, ix: Index, p: nat)
    requires p in t.readBuffer
  {
    PointsTo(ix, t.readBuffer[p].key, t.src, p) && !t.readBuffer[p].tombstone
  }

  function Push(t: Task, p: nat): Task
    requires p in t.readBuffer
  {
    var r := t.readBuffer[p];
    var m := Migrated(r.key, t.src, p, t.dst, t.dest + t.used, r.pages, r.sequence);
    t.(migrated := t.migrated + [m], writeBuffer := t.writeBuffer[t.dest + t.used := r], used := t.used + r.pages)
  }

  /** The loop over the chunk from page p on. */
  function Process(t: Task, ix: Index, p: nat): (t': Task)
    ensures t'.src == t.src && t'.dst == t.dst
    decreases t.current + t.bytesRead - p
  {
    if p >= t.current + t.bytesRead then t.(current := t.current + t.bytesRead, phase := ReadChunk)
    else if !ValidAt(t, p) then Process(t, ix, p + 1)
    else if !ShouldMigrate(t, ix, p) then Process(t, ix, p + t.readBuffer[p].pages)
    else if t.used + t.readBuffer[p].pages > CHUNK_PAGES then t.(phase := WriteChunk)
    else Process(Push(t, p), ix, p + t.readBuffer[p].pages)
  }

  lemma ProcessUnfolds(t: Task, ix: Index, p: nat)
    ensures Process(t, ix, p) ==
      if p >= t.current + t.bytesRead then t.(current := t.current + t.bytesRead, phase := ReadChunk)
      else if !ValidAt(t, p) then Process(t, ix, p + 1)
      else if !ShouldMigrate(t, ix, p) then Process(t, ix, p + t.readBuffer[p].pages)
      else if t.used + t.readBuffer[p].pages > CHUNK_PAGES then t.(phase := WriteChunk)
      else Process(Push(t, p), ix, p + t.readBuffer[p].pages)
  {
  }

  function StartWrite(t: Task): Task {
    if t.used == 0 then t.(phase := ReadChunk) else t.(ioPending := true)
  }

  function CommitMigrations(t: Task): Task {
    t.(committed := t.committed + t.migrated, migrated := [], dest := t.dest + t.used, used := 0,
       writeBuffer := map[], phase := ReadChunk)
  }

  function DoFinalize(t: Task): Task {
    t.(phase := if t.used > 0 then WriteChunk else MarkDeleted)
  }

  function HandleIoError(t: Task, target: Phase, code: int): Task {
    var t' := t.(retryCount := t.retryCount + 1, lastError := code);
    if (code == -EAGAIN || code == -EBUSY || code == -ENOMEM) && t'.retryCount < MAX_RETRY
    then t'.(retryTarget := target, phase := RetryWait)
    else t'.(phase := Rollback)
  }

  function DoRollback(t: Task): Task {
    var t' := t.(committed := [], migrated := []);
    if t'.dest > 1 then t'.(ioPending := true) else t'.(phase := RollbackMarkSealed)
  }

  /** The phases that submit an IO, and those of them that are retried. */
  predicate DoesIo(p: Phase) {
    Retryable(p) || p.Rollback? || p.RollbackMarkSealed?
  }

  predicate Retryable(p: Phase) {
    p.MarkCompacting? || p.ReadChunk? || p.WriteChunk? || p.MarkDeleted?
  }

  /** What one call of the step function does to the task. error matters in phase Init only, elapsed in
      RetryWait only. */
  function NextTask(t: Task, ix: Index, error: int, elapsed: bool): (t': Task)
    ensures t'.src == t.src && t'.dst == t.dst
  {
    if t.ioPending then t
    else match t.phase
      case Init => StartInit(t, error)
      case MarkCompacting => t.(ioPending := true)
      case ReadChunk => StartRead(t)
      case ProcessEntries => Process(t, ix, t.current)
      case WriteChunk => StartWrite(t)
      case UpdateIndices => CommitMigrations(t)
      case Finalize => DoFinalize(t)
      case MarkDeleted => t.(ioPending := true)
      case RetryWait => if elapsed then t.(phase := t.retryTarget) else t
      case Rollback => DoRollback(t)
      case RollbackMarkSealed => t.(ioPending := true)
      case Failed => t
      case Done => t
  }

  /** What it does to the index and the file states. */
  function NextWorld(t: Task, w: World): (w': World)
    ensures w'.files == w.files
  {
    if t.ioPending then w
    else match t.phase
      case MarkCompacting => w.(meta := w.meta[t.src := Compacting], state := w.state[t.src := Compacting])
      case UpdateIndices => w.(index := MigrateAll(w.index, t.migrated))
      case MarkDeleted => w.(meta := w.meta[t.src := Deleted])
      case Rollback =>
        w.(index := RevertAll(RevertAll(w.index, t.committed), t.migrated),
           state := if t.dest > 1 then w.state[t.dst := Deleted] else w.state,
           meta := if t.dest > 1 then w.meta[t.dst := Deleted] else w.meta)
      case RollbackMarkSealed => w.(meta := w.meta[t.src := Sealed], state := w.state[t.src := Sealed])
      case _ => w
  }

  function StepTask(t: Task, w: World, error: int, elapsed: bool): (Task, World) {
    (NextTask(t, w.index, error, elapsed), NextWorld(t, w))
  }

  /** The destination file after a write of n pages from base on: the buffer's records, or, if the write
      failed, whatever it left there. Pages outside the range are untouched. */
  function Written(was: map<nat, Record>, buffer: map<nat, Record>, base: nat, n: nat): map<nat, Record> {
    map p | p in was.Keys + buffer.Keys
      && (base <= p < base + n ==> p in buffer)
      && (p < base || base + n <= p ==> p in was)
      :: if base <= p < base + n then buffer[p] else was[p]
  }

  /** What a read of n pages from a page on brings into memory. */
  function Chunk(source: map<nat, Record>, first: nat, n: nat): map<nat, Record> {
    map p | p in source && first <= p < first + n :: source[p]
  }

  /** The task after the completion of its pending IO with a status; source is the source file. */
  function CompletedTask(t: Task, source: map<nat, Record>, status: int): (t': Task)
    ensures t'.src == t.src && t'.dst == t.dst
  {
    var t' := t.(ioPending := false);
    if !t.ioPending then t
    else match t.phase
      case MarkCompacting =>
        if status == 0 then t'.(phase := ReadChunk) else HandleIoError(t', MarkCompacting, status)
      case ReadChunk =>
        if status == 0 then
          t'.(bytesRead := ReadSize(t.current, t.srcEnd), phase := ProcessEntries,
              readBuffer := Chunk(source, t.current, ReadSize(t.current, t.srcEnd)))
        else HandleIoError(t', ReadChunk, status)
      case WriteChunk =>
        if status == 0 then t'.(retryCount := 0, phase := UpdateIndices) else HandleIoError(t', WriteChunk, status)
      case MarkDeleted =>
        if status == 0 then t'.(phase := Done, committed := [], migrated := [])
        else HandleIoError(t', MarkDeleted, status)
      case Rollback => t'.(phase := RollbackMarkSealed)
      case RollbackMarkSealed => t'.(phase := Failed, migrated := [], committed := [], used := 0, writeBuffer := map[])
      case _ => t'
  }

  /** The files after it; garbage is what a failed write leaves behind. */
  function CompletedWorld(t: Task, w: World, status: int, garbage: map<nat, Record>): (w': World)
    requires t.dst in w.files
    ensures w'.index == w.index && w'.state == w.state && w'.meta == w.meta && w'.files.Keys == w.files.Keys
  {
    if t.ioPending && t.phase == WriteChunk then
      var buffer := if status == 0 then t.writeBuffer else garbage;
      w.(files := w.files[t.dst := Written(w.files[t.dst], buffer, t.dest, t.used)])
    else if t.ioPending && t.phase == Rollback && status == 0 then
      w.(files := w.files[t.dst := map[]])
    else w
  }

  function CompleteIo(t: Task, w: World, status: int, garbage: map<nat, Record>): (Task, World)
    requires t.src in w.files && t.dst in w.files
  {
    (CompletedTask(t, w.files[t.src], status), CompletedWorld(t, w, status, garbage))
  }

  // ---------------------------------------------------------------------------------------------
  // Runs: steps, completions and foreground completions in any order
  // ---------------------------------------------------------------------------------------------

  datatype Event =
    | Step(error: int, elapsed: bool)
    | Complete(status: int, garbage: map<nat, Record>)
    | UserPut(entry: IndexEntry, record: Record)
    | UserRemove(key: Key)

  /** A foreground write never lands in the source or the destination. */
  predicate Allowed(t: Task, w: World, e: Event) {
    && (e.UserPut? ==> e.entry.fileId != t.src && e.entry.fileId != t.dst)
    && (e.Complete? ==> t.ioPending)
  }

  function PutRecord(file: map<nat, Record>, p: nat, r: Record): map<nat, Record> {
    file[p := r]
  }

  function ApplyUser(w: World, e: Event): World
    requires e.UserPut? || e.UserRemove?
  {
    match e
    case UserPut(x, r) =>
      w.(index := Upsert(w.index, x.key, x),
         files := if x.fileId in w.files
                  then w.files[x.fileId := PutRecord(w.files[x.fileId], x.offsetIndex, r)] else w.files)
    case UserRemove(k) => w.(index := Remove(w.index, k))
  }

  function Apply(t: Task, w: World, e: Event): (r: (Task, World))
    requires t.src in w.files && t.dst in w.files
    ensures r.0.src == t.src && r.0.dst == t.dst && r.1.files.Keys == w.files.Keys
  {
    match e
    case Step(error, elapsed) => StepTask(t, w, error, elapsed)
    case Complete(s, g) => CompleteIo(t, w, s, g)
    case UserPut(_, _) => (t, ApplyUser(w, e))
    case UserRemove(_) => (t, ApplyUser(w, e))
  }

  function Run(t: Task, w: World, es: seq<Event>): (r: (Task, World))
    requires t.src in w.files && t.dst in w.files
    ensures r.0.src == t.src && r.0.dst == t.dst
    decreases |es|
  {
    if es == [] then (t, w)
    else
      var (t1, w1) := Apply(t, w, es[0]);
      Run(t1, w1, es[1..])
  }

  /** Every event of the run is allowed when it happens. */
  ghost predicate AllowedRun(t: Task, w: World, es: seq<Event>)
    requires t.src in w.files && t.dst in w.files
    decreases |es|
  {
    es != [] ==>
      Allowed(t, w, es[0]) && var (t1, w1) := Apply(t, w, es[0]); AllowedRun(t1, w1, es[1..])
  }

  /** The same foreground completions with no compaction going on. */
  function UserRun(v: World, es: seq<Event>): World
    decreases |es|
  {
    if es == [] then v
    else UserRun(if es[0].UserPut? || es[0].UserRemove? then ApplyUser(v, es[0]) else v, es[1..])
  }
}
