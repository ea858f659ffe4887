/** What holds in every state of the write path: where each record lies, in memory and on disk. */
module WritePathInvariant {
  import opened Types
  import opened Bytes
  import opened EntryFormat
  import opened IndexRule
  import opened BufferRules
  import BufferRuns
  import opened WritePath

  // ---------------------------------------------------------------------------------------------
  // Spans and files
  // ---------------------------------------------------------------------------------------------

  predicate SpansApart(a: Span, b: Span) {
    a.blob != b.blob || a.first + a.pages <= b.first || b.first + b.pages <= a.first
  }

  /** Page k of a span holds page k of the data. */
  ghost predicate PageHolds(disk: Disk, at: Span, data: seq<Byte>, k: nat)
    requires (k + 1) * PAGE_SIZE <= |data|
  {
    (at.blob, at.first + k) in disk && disk[(at.blob, at.first + k)] == Page(data, k)
  }

  /** The pages of a span hold the first pages of the data. */
  ghost predicate HoldsPages(disk: Disk, at: Span, data: seq<Byte>) {
    at.pages * PAGE_SIZE <= |data| && forall k :: 0 <= k < at.pages ==> PageHolds(disk, at, data, k)
  }

  /** The span lies behind the header page and before the write offset of the open file with that id. */
  predicate InFile(files: seq<File>, id: nat, at: Span) {
    match FileAt(files, id)
    case None => false
    case Some(i) =>
      files[i].isOpen && files[i].blob == at.blob && 1 <= at.first && (at.first + at.pages) * PAGE_SIZE <= files[i].end
  }

  /** Ids rise along the list and blobs are never shared. */
  ghost predicate FilesOk(files: seq<File>, nextFileId: nat, nextBlob: nat) {
    && (forall i, j :: 0 <= i < j < |files| ==> files[i].id < files[j].id && files[i].blob != files[j].blob)
    && (forall i :: 0 <= i < |files| ==>
          && files[i].id < nextFileId && files[i].blob < nextBlob
          && files[i].end >= FILE_HEADER && files[i].end % PAGE_SIZE == 0)
  }

  // ---------------------------------------------------------------------------------------------
  // Records in memory
  // ---------------------------------------------------------------------------------------------

  /** Where the first n records of a buffer end. */
  function EndOf(pws: seq<PendingWrite>, n: nat): nat
    requires n <= |pws|
  {
    if n == 0 then 0 else pws[n - 1].offset + pws[n - 1].pages * PAGE_SIZE
  }

  ghost predicate PendingOk(pw: PendingWrite, content: seq<Byte>, requests: seq<Rec>, cfg: Config) {
    && pw.id < |requests|
    && pw.key == requests[pw.id].key && pw.sequence == requests[pw.id].sequence && pw.tag == cfg.tagOf(pw.key)
    && Storable(requests[pw.id])
    && pw.pages * PAGE_SIZE == Size(requests[pw.id])
    && HoldsAt(content, pw.offset, Build(requests[pw.id], cfg.crc))
  }

  /** The pending writes of a buffer tile its used part, and each is there as built. */
  ghost predicate Tiled(used: nat, content: seq<Byte>, pws: seq<PendingWrite>, requests: seq<Rec>, cfg: Config) {
    && used == EndOf(pws, |pws|) && used <= |content|
    && (forall i :: 0 <= i < |pws| ==> pws[i].offset == EndOf(pws, i))
    && (forall i :: 0 <= i < |pws| ==> PendingOk(pws[i], content, requests, cfg))
  }

  ghost predicate BuffersOk(buffers: seq<Buffer>, contents: seq<seq<Byte>>, pend: seq<seq<PendingWrite>>,
                            requests: seq<Rec>, cfg: Config) {
    && |contents| == |pend| == |buffers|
    && forall b :: 0 <= b < |pend| ==> Tiled(buffers[b].used, contents[b], pend[b], requests, cfg)
  }

  /** The entry is that of request id, written at a span of a file. */
  ghost predicate EntryOk(e: IndexEntry, id: nat, fileId: nat, at: Span, requests: seq<Rec>, cfg: Config) {
    && id < |requests|
    && var rec := requests[id];
      && e == IndexEntry(rec.key, fileId % FILE_IDS, at.first % PAGE_OFFSETS, false, rec.sequence,
                         Size(rec) / PAGE_SIZE % PAGE_COUNTS, cfg.tagOf(rec.key))
      && Storable(rec)
      && at.pages * PAGE_SIZE == Size(rec) % TWO32
  }

  ghost predicate QueuedOk(q: Queued, requests: seq<Rec>, cfg: Config) {
    && q.id < |requests|
    && var rec := requests[q.id];
      && Storable(rec)
      && q == Queued(q.id, rec.key, Build(rec, cfg.crc), Size(rec) % TWO32, rec.sequence,
                     Size(rec) / PAGE_SIZE % PAGE_COUNTS, cfg.tagOf(rec.key))
  }

  ghost predicate QueueOk(qs: seq<Queued>, requests: seq<Rec>, cfg: Config) {
    forall i :: 0 <= i < |qs| ==> QueuedOk(qs[i], requests, cfg)
  }

  // ---------------------------------------------------------------------------------------------
  // Writes in flight, and records on disk
  // ---------------------------------------------------------------------------------------------

  ghost predicate IoOk(io: Io, files: seq<File>, buffers: seq<Buffer>, requests: seq<Rec>, cfg: Config) {
    && InFile(files, io.fileId, io.span)
    && match io
       case BufferIo(b, _, base, at) =>
         b < |buffers| && base == at.first % TWO32 && at.pages > 0 && at.pages * PAGE_SIZE == buffers[b].used
       case DirectIo(id, fileId, entry, at, data) =>
         EntryOk(entry, id, fileId, at, requests, cfg) && data == Build(requests[id], cfg.crc)
  }

  ghost predicate IosOk(ios: seq<Io>, files: seq<File>, buffers: seq<Buffer>, requests: seq<Rec>, cfg: Config) {
    && (forall i :: 0 <= i < |ios| ==> IoOk(ios[i], files, buffers, requests, cfg))
    && (forall i, j :: 0 <= i < j < |ios| ==> SpansApart(ios[i].span, ios[j].span))
  }

  /** The record is on the disk as built. */
  ghost predicate OnDisk(disk: Disk, h: Home, requests: seq<Rec>, cfg: Config) {
    h.id < |requests| && HoldsPages(disk, h.span, Build(requests[h.id], cfg.crc))
      && (h.span.first + h.span.pages) * PAGE_SIZE <= cfg.fileSize
  }

  ghost predicate HomeOk(key: Key, h: Home, e: IndexEntry, files: seq<File>, disk: Disk, requests: seq<Rec>,
      cfg: Config) {
    && e.key == key
    && EntryOk(e, h.id, h.fileId, h.span, requests, cfg)
    && InFile(files, h.fileId, h.span)
    && OnDisk(disk, h, requests, cfg)
  }

  ghost predicate HomesOk(homes: map<Key, Home>, index: Index, files: seq<File>, disk: Disk, requests: seq<Rec>,
                          cfg: Config) {
    && index.Keys == homes.Keys
    && (forall key :: key in homes ==> HomeOk(key, homes[key], index[key], files, disk, requests, cfg))
    && (forall k, k' :: k in homes && k' in homes && k != k' ==> SpansApart(homes[k].span, homes[k'].span))
  }

  /** No write in flight touches a record that is indexed. */
  ghost predicate Undisturbed(homes: map<Key, Home>, ios: seq<Io>) {
    forall k, i :: k in homes && 0 <= i < |ios| ==> SpansApart(homes[k].span, ios[i].span)
  }

  // ---------------------------------------------------------------------------------------------
  // The buffers
  // ---------------------------------------------------------------------------------------------

  /** The append buffers in flight. */
  function InFlight(ios: seq<Io>): seq<nat> {
    if ios == [] then [] else
      InFlight(ios[..|ios| - 1]) + (if ios[|ios| - 1].BufferIo? then [ios[|ios| - 1].buffer] else [])
  }

  /**
   Every append buffer is in one place; batch are those between the submit ring and flight. What waits for
   submission is not empty, and without remote slots every buffer can be reset.
   */
  ghost predicate ManagerInv(s: State, batch: seq<nat>) {
    && BufferRuns.ManagerOk(s.m, InFlight(s.ios) + batch)
    && (forall i :: 0 <= i < |s.m.submitRing| ==>
          s.m.submitRing[i] < |s.m.buffers| && s.m.buffers[s.m.submitRing[i]].used > 0)
    && (forall i :: 0 <= i < |batch| ==> batch[i] < |s.m.buffers| && s.m.buffers[batch[i]].used > 0)
    && (forall b :: 0 <= b < |s.m.buffers| ==> s.m.buffers[b].CanReset())
  }

  /** Everything about where records are; the file being allocated is not in use. */
  ghost predicate Addressed(s: State, cfg: Config) {
    && FilesOk(s.files, s.nextFileId, s.nextBlob)
    && (s.allocating.Some? ==> s.allocating.value < |s.files| && !s.files[s.allocating.value].isOpen)
    && BuffersOk(s.m.buffers, s.contents, s.pend, s.requests, cfg)
    && QueueOk(s.waitQ, s.requests, cfg) && QueueOk(s.pendQ, s.requests, cfg)
    && IosOk(s.ios, s.files, s.m.buffers, s.requests, cfg)
    && HomesOk(s.homes, s.index, s.files, s.disk, s.requests, cfg)
    && Undisturbed(s.homes, s.ios)
  }

  ghost predicate Inv(s: State, cfg: Config) {
    WellFormed(s) && ManagerInv(s, []) && Addressed(s, cfg)
  }
}
