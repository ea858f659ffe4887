/** What a read returns: the value whose record the index entry stands for, and the newest that was acknowledged. */
module WritePathReads {
  import opened Types
  import opened Bytes
  import opened EntryFormat
  import opened IndexRule
  import opened Sequence
  import opened WritePath
  import opened WritePathInvariant
  import opened WritePathLanding
  import opened WritePathRuns
  import BufferRules
  import BufferRuns
  import WritePathRequests

  // ---------------------------------------------------------------------------------------------
  // Reading a record back
  // ---------------------------------------------------------------------------------------------

  lemma {:induction false} ReadsBack(disk: Disk, at: Span, data: seq<Byte>, n: nat)
    requires HoldsPages(disk, at, data) && n <= at.pages
    ensures n * PAGE_SIZE <= |data| && ReadTo(disk, at, n) == data[..n * PAGE_SIZE]
    decreases n
  {
    if n > 0 {
      ReadsBack(disk, at, data, n - 1);
      assert PageHolds(disk, at, data, n - 1);
      assert data[..n * PAGE_SIZE] == data[..(n - 1) * PAGE_SIZE] + Page(data, n - 1);
    }
  }

  /** The read of a whole record finds its value. */
  lemma RecordParses(data: seq<Byte>, rec: Rec, cfg: Config)
    requires Storable(rec) && data == Build(rec, cfg.crc)
    ensures PREFIX_SIZE <= |data| && MagicAt(data, 0) == ENTRY_MAGIC && LengthAt(data, 0) == |rec.value|
    ensures PREFIX_SIZE + |rec.value| <= |data| && data[PREFIX_SIZE..PREFIX_SIZE + |rec.value|] == rec.value
  {
    hide Build, Field;
    assert data[0..0 + |data|] == data;
    RecordReadsBack(data, 0, rec, cfg.crc);
  }

  lemma FieldOfStart(data: seq<Byte>, n: nat, o: nat, w: nat)
    requires o + w <= n <= |data|
    ensures Field(data[..n], o, w) == Field(data, o, w)
  {
    assert data[..n][o..o + w] == data[o..o + w];
  }

  /** The first pages of a record show its magic and the length of its value. */
  lemma StartParses(data: seq<Byte>, n: nat, rec: Rec, cfg: Config)
    requires Storable(rec) && data == Build(rec, cfg.crc) && PREFIX_SIZE <= n <= |data|
    ensures MagicAt(data[..n], 0) == ENTRY_MAGIC && LengthAt(data[..n], 0) == |rec.value|
  {
    RecordParses(data, rec, cfg);
    hide Build, Field;
    FieldOfStart(data, n, 0, 4);
    FieldOfStart(data, n, 24, 4);
  }

  /** The limits the packed entry sets: 1024 files, of 8 GiB at most. */
  ghost predicate WithinLimits(s: State, cfg: Config) {
    s.nextFileId <= 1024 && cfg.fileSize <= 0x2_0000_0000
  }

  lemma Indexed(s: State, cfg: Config, key: Key)
    requires Inv(s, cfg) && key in s.homes
    ensures key in s.index && HomeOk(key, s.homes[key], s.index[key], s.files, s.disk, s.requests, cfg)
    ensures s.homes[key].id < |s.requests|
  {
    hide ManagerInv, WellFormed, BuffersOk, QueueOk, IosOk, FilesOk, Undisturbed, InFile;
    assert HomeOk(key, s.homes[key], s.index[key], s.files, s.disk, s.requests, cfg);
  }

  lemma FileIdBelow(s: State, cfg: Config, id: nat, at: Span)
    requires Inv(s, cfg) && InFile(s.files, id, at)
    ensures id < s.nextFileId
  {
    hide ManagerInv, WellFormed, BuffersOk, QueueOk, IosOk, HomesOk, Undisturbed;
  }

  /** What the index entry of a home says. */
  lemma EntryFields(key: Key, h: Home, e: IndexEntry, files: seq<File>, disk: Disk, requests: seq<Rec>, cfg: Config)
    requires HomeOk(key, h, e, files, disk, requests, cfg)
    ensures !e.deleted && e.fileId == h.fileId % FILE_IDS && e.offsetIndex == h.span.first % PAGE_OFFSETS
    ensures InFile(files, h.fileId, h.span) && h.id < |requests| && Storable(requests[h.id])
    ensures e.pageCount == Size(requests[h.id]) / PAGE_SIZE % PAGE_COUNTS
    ensures h.span.pages * PAGE_SIZE == Size(requests[h.id]) % TWO32
    ensures HoldsPages(disk, h.span, Build(requests[h.id], cfg.crc))
    ensures (h.span.first + h.span.pages) * PAGE_SIZE <= cfg.fileSize
  {
    hide InFile, Build, HoldsPages, Size;
  }

  lemma FileOfSpan(files: seq<File>, id: nat, at: Span)
    requires InFile(files, id, at)
    ensures FileAt(files, id).Some?
    ensures var f := files[FileAt(files, id).value]; f.isOpen && f.blob == at.blob
  {
  }

  lemma Limits(s: State, cfg: Config)
    requires WithinLimits(s, cfg)
    ensures s.nextFileId <= FILE_IDS && cfg.fileSize <= PAGE_OFFSETS * PAGE_SIZE
  {
  }

  lemma FindsLive(s: State, key: Key)
    requires key in s.index && !s.index[key].deleted
    ensures Find(s.index, key) == Some(s.index[key])
  {
  }

  /** Where a read of an indexed key looks. */
  lemma EntryFindsFile(s: State, cfg: Config, key: Key)
    requires Inv(s, cfg) && WithinLimits(s, cfg) && key in s.homes && key in s.index
    ensures var h := s.homes[key];
      && Find(s.index, key) == Some(s.index[key]) && s.index[key].fileId == h.fileId
      && FileAt(s.files, h.fileId).Some?
      && var f := s.files[FileAt(s.files, h.fileId).value]; f.isOpen && f.blob == h.span.blob
  {
    hide *;
    var h := s.homes[key];
    EntryFileId(s, cfg, key);
    FileOfSpan(s.files, h.fileId, h.span);
    FindsLive(s, key);
  }

  lemma EntryFileId(s: State, cfg: Config, key: Key)
    requires Inv(s, cfg) && WithinLimits(s, cfg) && key in s.homes && key in s.index
    ensures var h, e := s.homes[key], s.index[key];
      e.fileId == h.fileId && !e.deleted && InFile(s.files, h.fileId, h.span)
  {
    hide *;
    Limits(s, cfg);
    var h, e := s.homes[key], s.index[key];
    Indexed(s, cfg, key);
    HomeFile(key, h, e, s.files, s.disk, s.requests, cfg);
    FileIdBelow(s, cfg, h.fileId, h.span);
    Fits(h.fileId, FILE_IDS);
  }

  lemma HomeFile(key: Key, h: Home, e: IndexEntry, files: seq<File>, disk: Disk, requests: seq<Rec>, cfg: Config)
    requires HomeOk(key, h, e, files, disk, requests, cfg)
    ensures !e.deleted && e.fileId == h.fileId % FILE_IDS && InFile(files, h.fileId, h.span)
  {
    hide InFile, Build, HoldsPages, Size;
  }

  lemma Fits(a: nat, n: nat)
    requires a < n
    ensures a % n == a
  {
  }

  /** A read brings in as many pages of the record as the entry counts. */
  lemma RecordRead(s: State, cfg: Config, key: Key)
    requires Inv(s, cfg) && WithinLimits(s, cfg) && key in s.homes && key in s.index
    requires s.homes[key].id < |s.requests|
    ensures var h, e := s.homes[key], s.index[key];
      var data := Build(s.requests[h.id], cfg.crc);
      && e.pageCount * PAGE_SIZE <= |data|
      && ReadTo(s.disk, Span(h.span.blob, e.offsetIndex, e.pageCount), e.pageCount) == data[..e.pageCount * PAGE_SIZE]
  {
    hide *;
    Limits(s, cfg);
    var h, e := s.homes[key], s.index[key];
    var rec := s.requests[h.id];
    Indexed(s, cfg, key);
    EntryFields(key, h, e, s.files, s.disk, s.requests, cfg);
    CountedSpan(rec, h.span, cfg.fileSize);
    ReadsBack(s.disk, h.span, Build(rec, cfg.crc), e.pageCount);
    ReadsSame(s.disk, h.span, Span(h.span.blob, e.offsetIndex, e.pageCount), e.pageCount);
  }

  /** The pages counted in 16 bits are among those the record was given in 32 bits of size. */
  lemma CountedSpan(rec: Rec, at: Span, fileSize: nat)
    requires at.pages * PAGE_SIZE == Size(rec) % TWO32
    requires (at.first + at.pages) * PAGE_SIZE <= fileSize <= PAGE_OFFSETS * PAGE_SIZE
    ensures Size(rec) / PAGE_SIZE % PAGE_COUNTS <= at.pages
    ensures Size(rec) / PAGE_SIZE % PAGE_COUNTS > 0 ==> at.first % PAGE_OFFSETS == at.first
  {
    var pages := Size(rec) / PAGE_SIZE;
    assert pages * PAGE_SIZE == Size(rec);
    var q := Size(rec) / TWO32;
    assert Size(rec) == q * TWO32 + at.pages * PAGE_SIZE;
    assert pages == q * 16 * PAGE_COUNTS + at.pages;
    SameRest(at.pages, q * 16);
    if at.pages > 0 {
      assert at.first < PAGE_OFFSETS;
    }
  }

  lemma SameRest(a: nat, q: nat)
    ensures (q * PAGE_COUNTS + a) % PAGE_COUNTS == a % PAGE_COUNTS <= a
  {
  }

  lemma {:induction false} ReadsSame(disk: Disk, at: Span, at': Span, n: nat)
    requires at'.blob == at.blob && (n > 0 ==> at'.first == at.first)
    ensures ReadTo(disk, at', n) == ReadTo(disk, at, n)
    decreases n
  {
    if n > 0 {
      ReadsSame(disk, at, at', n - 1);
    }
  }

  /** The value, if there is room for it. */
  function Fitting(value: seq<Byte>, room: nat): GetResult {
    if |value| <= room then Found(value) else TooLarge
  }

  /**
   What a read of a record answers. A record of 65536 pages or more is read as if it had that many fewer, so that its
   value lies past the bytes read; this shows only if at least one page is left and there is room for the value.
   */
  function Reading(rec: Rec, room: nat): GetResult {
    var pages := Size(rec) / PAGE_SIZE;
    if pages < 0x1_0000 then Fitting(rec.value, room)
    else if pages % 0x1_0000 > 0 && |rec.value| > room then TooLarge
    else PastBuffer
  }

  lemma ReadingFinds(s: State, key: Key, room: nat)
    ensures key in s.homes && s.homes[key].id < |s.requests| ==>
      Reading(s.requests[s.homes[key].id], room) != NotFound
  {
  }

  /** Whatever the room: what the read of a key answers is fixed by the record the index entry stands for. */
  lemma GetIsExact(s: State, cfg: Config, key: Key, room: nat)
    requires Inv(s, cfg) && WithinLimits(s, cfg)
    ensures key !in s.homes ==> Get(s, key, room) == NotFound
    ensures key in s.homes ==>
      s.homes[key].id < |s.requests| && Get(s, key, room) == Reading(s.requests[s.homes[key].id], room)
  {
    hide Inv, HomeOk, InFile, Build, OnDisk, Field, ReadTo, WithinLimits;
    if key in s.homes {
      Indexed(s, cfg, key);
      var h, e := s.homes[key], s.index[key];
      var rec := s.requests[h.id];
      EntryFindsFile(s, cfg, key);
      EntryPages(s, cfg, key);
      RecordRead(s, cfg, key);
      DataReads(rec, e.pageCount, cfg);
      var data := ReadTo(s.disk, Span(h.span.blob, e.offsetIndex, e.pageCount), e.pageCount);
      assert data == Build(rec, cfg.crc)[..e.pageCount * PAGE_SIZE];
    } else {
      NotIndexed(s, cfg, key);
    }
  }

  /** The answer for the first bytes of a record. */
  lemma DataReads(rec: Rec, n: nat, cfg: Config)
    requires Storable(rec) && n == Size(rec) / PAGE_SIZE % PAGE_COUNTS && n * PAGE_SIZE <= Size(rec)
    ensures var data := Build(rec, cfg.crc)[..n * PAGE_SIZE];
      && (n == 0 ==> |data| < PREFIX_SIZE && Size(rec) / PAGE_SIZE >= 0x1_0000)
      && (n > 0 ==> |data| >= PREFIX_SIZE && MagicAt(data, 0) == ENTRY_MAGIC && LengthAt(data, 0) == |rec.value|)
      && (Size(rec) / PAGE_SIZE < 0x1_0000 ==>
           PREFIX_SIZE + |rec.value| <= |data| && data[PREFIX_SIZE..PREFIX_SIZE + |rec.value|] == rec.value)
      && (Size(rec) / PAGE_SIZE >= 0x1_0000 ==> PREFIX_SIZE + |rec.value| > |data|)
  {
    var whole := Build(rec, cfg.crc);
    var pages := Size(rec) / PAGE_SIZE;
    assert pages > 0;
    RecordParses(whole, rec, cfg);
    if n > 0 {
      StartParses(whole, n * PAGE_SIZE, rec, cfg);
    }
    if pages < PAGE_COUNTS {
      assert n == pages && n * PAGE_SIZE == Size(rec);
      assert whole[..n * PAGE_SIZE] == whole;
    } else {
      TooFewPages(rec);
    }
  }

  lemma EntryPages(s: State, cfg: Config, key: Key)
    requires Inv(s, cfg) && key in s.homes && key in s.index && s.homes[key].id < |s.requests|
    ensures var rec := s.requests[s.homes[key].id];
      Storable(rec) && s.index[key].pageCount == Size(rec) / PAGE_SIZE % PAGE_COUNTS
  {
    Indexed(s, cfg, key);
    hide Inv, InFile, Build, Size;
  }

  lemma NotIndexed(s: State, cfg: Config, key: Key)
    requires Inv(s, cfg) && key !in s.homes
    ensures key !in s.index
  {
    hide ManagerInv, WellFormed, BuffersOk, QueueOk, IosOk, FilesOk, Undisturbed, HomeOk;
    assert s.index.Keys == s.homes.Keys;
  }

  /** Counted modulo 65536, the pages of a larger record are too few for its value. */
  lemma TooFewPages(rec: Rec)
    requires Size(rec) / PAGE_SIZE >= PAGE_COUNTS
    ensures Size(rec) / PAGE_SIZE % PAGE_COUNTS * PAGE_SIZE < |rec.value|
  {
    var pages := Size(rec) / PAGE_SIZE;
    assert Size(rec) < PREFIX_SIZE + |rec.value| + 4 + PAGE_SIZE;
    assert pages * PAGE_SIZE == Size(rec);
    assert pages % PAGE_COUNTS <= pages - PAGE_COUNTS;
  }

  // ---------------------------------------------------------------------------------------------
  // The newest acknowledged put
  // ---------------------------------------------------------------------------------------------

  /** The i-th request got the i-th sequence number after the first. */
  ghost predicate Numbered(s: State, base: u32) {
    && s.sequence == (base + |s.requests|) % TWO32
    && forall i :: 0 <= i < |s.requests| ==> s.requests[i].sequence == (base + 1 + i) % TWO32
  }

  /** The key of an acknowledged request is indexed, for that request or a later one that was acknowledged. */
  ghost predicate Acknowledged(s: State) {
    && (forall i :: 0 <= i < |s.answers| && s.answers[i].status.Success? ==>
          && s.answers[i].id < |s.requests| && s.requests[s.answers[i].id].key in s.homes
          && s.answers[i].id <= s.homes[s.requests[s.answers[i].id].key].id)
    && (forall key :: key in s.homes ==> Answer(s.homes[key].id, Success) in s.answers)
  }

  ghost predicate Newest(s: State, base: u32) {
    Numbered(s, base) && Acknowledged(s)
  }

  lemma NewerIsLater(base: u32, i: nat, j: nat)
    requires i < HALF && j < HALF
    ensures SequenceNewer((base + 1 + i) % TWO32, (base + 1 + j) % TWO32) <==> i > j
  {
    var start: u32 := (base + 1) % TWO32;
    DistanceFromStart(base, i);
    DistanceFromStart(base, j);
    NewerInWindow(start, (base + 1 + i) % TWO32, (base + 1 + j) % TWO32);
  }

  lemma DistanceFromStart(base: u32, i: nat)
    requires i < HALF
    ensures Distance((base + 1 + i) % TWO32, (base + 1) % TWO32) == i
  {
  }

  lemma LandKeepsNewest(s: State, cfg: Config, base: u32, l: Landing, ok: bool)
    requires WellFormed(s) && Newest(s, base) && |s.requests| < HALF
    requires HomesOk(s.homes, s.index, s.files, s.disk, s.requests, cfg)
    requires ok ==>
        l.id < |s.requests| && l.entry.key == s.requests[l.id].key && l.entry.sequence == s.requests[l.id].sequence
    ensures Newest(Land(s, l, ok), base)
  {
    hide Acknowledged, Land, WellFormed, InFile, OnDisk, Build, Size;
    var key := l.entry.key;
    if ok && key in s.homes {
      var h := s.homes[key];
      assert HomeOk(key, h, s.index[key], s.files, s.disk, s.requests, cfg);
      NewerIsLater(base, l.id, h.id);
    }
    LandAcknowledges(s, l, ok);
    LandFrame(s, l, ok);
  }

  lemma LandAcknowledges(s: State, l: Landing, ok: bool)
    requires WellFormed(s) && Acknowledged(s) && s.index.Keys == s.homes.Keys
    requires ok ==> l.id < |s.requests| && l.entry.key == s.requests[l.id].key
    requires ok && l.entry.key in s.homes ==>
               (SequenceNewer(l.entry.sequence, s.index[l.entry.key].sequence) <==> l.id > s.homes[l.entry.key].id)
    ensures Acknowledged(Land(s, l, ok))
  {
    hide SequenceNewer, WellFormed, Acknowledged, Upsert;
    var r := Land(s, l, ok);
    var a := Answer(l.id, if ok then Success else IoError);
    assert r.answers == s.answers + [a] && r.requests == s.requests;
    assert forall key :: key in s.homes ==> key in r.homes && s.homes[key].id <= r.homes[key].id;
    assert ok ==> l.entry.key in r.homes && l.id <= r.homes[l.entry.key].id;
    LandedHomes(s, r, l, a);
  }

  lemma LandedHomes(s: State, r: State, l: Landing, a: Answer)
    requires Acknowledged(s) && r.answers == s.answers + [a] && r.requests == s.requests && a.id == l.id
    requires a.status.Success? ==> l.id < |s.requests| && l.entry.key == s.requests[l.id].key
    requires forall key :: key in s.homes ==> key in r.homes && s.homes[key].id <= r.homes[key].id
    requires a.status.Success? ==> l.entry.key in r.homes && l.id <= r.homes[l.entry.key].id
    requires forall key :: key in r.homes ==>
               (key in s.homes && r.homes[key] == s.homes[key]) || (a.status.Success? && r.homes[key].id == l.id)
    ensures Acknowledged(r)
  {
    assert a in r.answers && forall b :: b in s.answers ==> b in r.answers;
  }

  /** From s to r no record is indexed, and requests are answered with errors only. */
  ghost predicate Quiet(s: State, r: State) {
    && r.homes == s.homes && r.index == s.index && r.requests == s.requests && r.sequence == s.sequence
    && |s.answers| <= |r.answers| && r.answers[..|s.answers|] == s.answers
    && forall i :: |s.answers| <= i < |r.answers| ==> !r.answers[i].status.Success?
  }

  lemma QuietKeepsNewest(s: State, r: State, base: u32)
    requires Newest(s, base) && Quiet(s, r)
    ensures Newest(r, base)
  {
    forall i | 0 <= i < |r.answers| && r.answers[i].status.Success?
      ensures r.answers[i].id < |s.requests| && s.requests[r.answers[i].id].key in s.homes
      ensures r.answers[i].id <= s.homes[s.requests[r.answers[i].id].key].id
    {
      assert i < |s.answers| && r.answers[i] == r.answers[..|s.answers|][i] == s.answers[i];
    }
    forall key | key in s.homes
      ensures Answer(s.homes[key].id, Success) in r.answers
    {
      assert Answer(s.homes[key].id, Success) in r.answers[..|s.answers|];
    }
  }

  lemma QuietThen(s: State, t: State, r: State)
    requires Quiet(s, t) && Quiet(t, r)
    ensures Quiet(s, r)
  {
    assert r.answers[..|s.answers|] == r.answers[..|t.answers|][..|s.answers|];
    forall i | |s.answers| <= i < |r.answers|
      ensures !r.answers[i].status.Success?
    {
      if i < |t.answers| {
        assert r.answers[i] == r.answers[..|t.answers|][i];
      }
    }
  }

  lemma SubmitBufferQuiet(s: State, cfg: Config, b: nat, alloc: bool)
    requires WellFormed(s) && b < |s.m.buffers|
    ensures Quiet(s, SubmitBuffer(s, cfg, b, alloc))
  {
    hide NeedsFile, FileAt;
    SealFrame(s);
  }

  lemma {:induction false} SubmitToQuiet(s: State, cfg: Config, batch: seq<nat>, allocs: seq<bool>, n: nat)
    requires WellFormed(s) && n <= |batch| && forall i :: 0 <= i < |batch| ==> batch[i] < |s.m.buffers|
    ensures Quiet(s, SubmitTo(s, cfg, batch, allocs, n))
    decreases n
  {
    hide SubmitBuffer, WellFormed;
    if n > 0 {
      SubmitToQuiet(s, cfg, batch, allocs, n - 1);
      var t := SubmitTo(s, cfg, batch, allocs, n - 1);
      SubmitBufferQuiet(t, cfg, batch[n - 1], n <= |allocs| && allocs[n - 1]);
      QuietThen(s, t, SubmitBuffer(t, cfg, batch[n - 1], n <= |allocs| && allocs[n - 1]));
    }
  }

  lemma AwaitFileQuiet(s: State, q: Queued)
    requires WellFormed(s)
    ensures Quiet(s, AwaitFile(s, q))
  {
    SealFrame(s.(pendQ := s.pendQ + [q]));
  }

  lemma {:induction false} DrainQuiet(s: State, cfg: Config)
    requires WellFormed(s)
    ensures Quiet(s, Drain(s, cfg))
    decreases |s.waitQ|
  {
    if s.waitQ != [] {
      hide NeedsFile, FileAt, AwaitFile, WellFormed;
      WritePathRequests.DrainUnfolds(s, cfg);
      var q, s1 := s.waitQ[0], s.(waitQ := s.waitQ[1..]);
      AwaitFileQuiet(s1, q);
      var r := WritePathRequests.DrainOne(s, cfg);
      QuietThen(s, s1, r);
      DrainQuiet(r, cfg);
      QuietThen(s, r, Drain(r, cfg));
    }
  }

  lemma {:induction false} LaunchToQuiet(s: State, qs: seq<Queued>, i: nat, n: nat)
    requires WellFormed(s) && i < |s.files| && n <= |qs|
    ensures Quiet(s, LaunchTo(s, qs, i, n))
    decreases n
  {
    hide WellFormed;
    if n > 0 {
      LaunchToQuiet(s, qs, i, n - 1);
      var t := LaunchTo(s, qs, i, n - 1);
      QuietThen(s, t, LaunchDirect(t, qs[n - 1], i));
    }
  }

  lemma FlushQueueQuiet(s: State)
    requires WellFormed(s)
    ensures Quiet(s, FlushQueue(s))
  {
    hide FileAt, LaunchTo;
    var at := FileAt(s.files, s.activeId);
    if at.Some? && s.files[at.value].isOpen {
      LaunchToQuiet(s.(pendQ := []), s.pendQ, at.value, |s.pendQ|);
    }
  }

  lemma AllocatedQuiet(s: State, ok: bool)
    requires WellFormed(s) && s.allocating.Some? && s.nextFileId > 0
    ensures Quiet(s, if ok then AllocationDone(s) else AllocationFailed(s))
  {
    hide FlushQueue;
    if ok {
      var at := s.allocating.value;
      FlushQueueQuiet(s.(allocating := None, files := s.files[at := s.files[at].(isOpen := true)],
                         activeId := s.files[|s.files| - 1].id));
    }
  }

  // ---------------------------------------------------------------------------------------------
  // Every event
  // ---------------------------------------------------------------------------------------------

  lemma AcceptKeepsNewest(s: State, base: u32, key: Key, value: seq<Byte>)
    requires WellFormed(s) && Newest(s, base)
    ensures Newest(Accept(s, key, value), base)
  {
    var r := Accept(s, key, value);
    var n := |s.requests|;
    assert (((base + n) % TWO32) + 1) % TWO32 == (base + 1 + n) % TWO32;
    forall i | 0 <= i < |r.answers| && r.answers[i].status.Success?
      ensures r.requests[r.answers[i].id] == s.requests[s.answers[i].id]
    {
    }
  }

  lemma PutKeepsNewest(s: State, cfg: Config, base: u32, key: Key, value: seq<Byte>, memory: bool, dma: bool)
    requires WellFormed(s) && Newest(s, base)
    ensures Newest(PutBuffered(s, cfg, key, value, memory, dma), base)
  {
    hide Newest, BufferRuns.ReserveWithBackpressure;
    if value != [] {
      ReserveShape(s.m, SizeFor(|value|), memory);
      var (m1, at) := BufferRuns.ReserveWithBackpressure(s.m, SizeFor(|value|), memory);
      var s1 := WithManager(s, m1);
      var s2 := Accept(s1, key, value);
      QuietKeepsNewest(s, s1, base);
      AcceptKeepsNewest(s1, base, key, value);
      if at == None {
        QuietKeepsNewest(s2, Waiting(s2, cfg), base);
      } else {
        var s3 := Buffered(s2, cfg, at.value);
        QuietKeepsNewest(s2, s3, base);
        QuietKeepsNewest(s3, Flush(s3), base);
      }
    }
  }

  lemma {:induction false} LandToKeepsNewest(s: State, cfg: Config, base: u32, ls: seq<Landing>, ok: bool, n: nat)
    requires WellFormed(s) && n <= |ls| && Newest(s, base) && |s.requests| < HALF
    requires HomesOk(s.homes, s.index, s.files, s.disk, s.requests, cfg) && Undisturbed(s.homes, s.ios)
    requires ok ==> LandingsOk(ls, 0, s.homes, s.ios, s.files, s.disk, s.requests, cfg)
    ensures Newest(LandTo(s, ls, ok, n), base)
    decreases n
  {
    hide HomesOk, Undisturbed, LandingOk, Land, WellFormed, Newest;
    if n > 0 {
      LandToKeepsNewest(s, cfg, base, ls, ok, n - 1);
      LandToKeeps(s, cfg, ls, ok, n - 1);
      var t := LandTo(s, ls, ok, n - 1);
      if ok {
        LandingId(ls[n - 1], s.files, s.disk, s.requests, cfg);
      }
      LandKeepsNewest(t, cfg, base, ls[n - 1], ok);
    }
  }

  lemma LandingId(l: Landing, files: seq<File>, disk: Disk, requests: seq<Rec>, cfg: Config)
    requires LandingOk(l, files, disk, requests, cfg)
    ensures l.id < |requests| && l.entry.key == requests[l.id].key && l.entry.sequence == requests[l.id].sequence
  {
    hide InFile, OnDisk, Build, Size;
  }

  lemma CompleteKeepsNewest(s: State, cfg: Config, base: u32, i: nat, ok: bool, junk: Disk)
    requires Inv(s, cfg) && Newest(s, base) && |s.requests| < HALF
    requires i < |s.ios| && (ok ==> CanSucceed(s, cfg, i))
    ensures Newest(Complete(s, cfg, i, ok, junk), base)
  {
    hide LandingsOk, HomesOk, Undisturbed, WriteTo, Scribble, SameOutside, LandTo, LandingsOf, ManagerInv, Newest;
    var d, ls := Detach(s, cfg, i, ok, junk), LandingsOf(s, s.ios[i]);
    EndedOutside(s, cfg, i, ok, junk);
    HomesApart(s, cfg, i);
    HomesOutside(s.homes, s.index, s.files, s.disk, d.disk, s.ios[i].span, s.requests, cfg);
    UndisturbedWithout(s.homes, s.ios, i);
    if ok {
      LandingsOfWriteOk(s, cfg, i, junk);
    }
    QuietKeepsNewest(s, d, base);
    LandToKeepsNewest(d, cfg, base, ls, ok, |ls|);
    var t := LandTo(d, ls, ok, |ls|);
    if s.ios[i].BufferIo? {
      QuietKeepsNewest(t, Returned(t, s.ios[i].buffer), base);
    }
  }

  /** While there are fewer than 2^31 requests, every event keeps the newest acknowledged one of each key. */
  lemma StepKeepsNewest(s: State, cfg: Config, base: u32, e: Event)
    requires Inv(s, cfg) && Newest(s, base) && |s.requests| < HALF && Enabled(s, cfg, e)
    ensures Newest(Step(s, cfg, e), base)
  {
    hide Newest, ManagerInv, Addressed, PutBuffered, SubmitTo, Complete, Drain, AllocationDone, AllocationFailed;
    match e
    case Putting(key, value, memory, dma) => PutKeepsNewest(s, cfg, base, key, value, memory, dma);
    case Flushing => QuietKeepsNewest(s, Flush(s), base);
    case SubmittingPending(allocs) =>
      var (m1, batch) := BufferRules.TakePending(s.m, MAX_BATCH);
      SubmitToQuiet(s.(m := m1), cfg, batch, allocs, |batch|);
      QuietThen(s, s.(m := m1), SubmitPending(s, cfg, allocs));
      QuietKeepsNewest(s, SubmitPending(s, cfg, allocs), base);
    case Completing(i, ok, junk) => CompleteKeepsNewest(s, cfg, base, i, ok, junk);
    case ProcessingWaitQueue =>
      DrainQuiet(s, cfg);
      QuietKeepsNewest(s, Drain(s, cfg), base);
    case Allocated(ok) =>
      AllocatedQuiet(s, ok);
      QuietKeepsNewest(s, Step(s, cfg, e), base);
  }

  /**
   A read returns the value of the newest acknowledged put of the key, or says that there is no room for it, if its
   pages can be counted; it finds nothing exactly if no put of the key has been acknowledged.
   */
  lemma ReadsNewest(s: State, cfg: Config, base: u32, key: Key, room: nat)
    requires Inv(s, cfg) && Newest(s, base) && WithinLimits(s, cfg)
    ensures Get(s, key, room) == NotFound
      <==> forall i :: 0 <= i < |s.requests| && s.requests[i].key == key ==> Answer(i, Success) !in s.answers
    ensures key !in s.homes ==> Get(s, key, room) == NotFound
    ensures key in s.homes ==>
      var j := s.homes[key].id;
      && j < |s.requests| && s.requests[j].key == key && Answer(j, Success) in s.answers
      && Get(s, key, room) == Reading(s.requests[j], room)
      && forall i :: j < i < |s.requests| && s.requests[i].key == key ==> Answer(i, Success) !in s.answers
  {
    hide Inv, Get, Reading, WithinLimits, Newest;
    if key in s.homes {
      HomeKey(s, cfg, key);
    }
    GetIsExact(s, cfg, key, room);
    ReadingFinds(s, key, room);
    HomeIsNewest(s, base, key);
  }

  lemma HomeIsAfter(s: State, base: u32, i: nat)
    requires Newest(s, base) && i < |s.requests| && Answer(i, Success) in s.answers
    ensures s.requests[i].key in s.homes && i <= s.homes[s.requests[i].key].id
  {
    hide Numbered;
    var a :| 0 <= a < |s.answers| && s.answers[a] == Answer(i, Success);
  }

  /** The home of a key is its last acknowledged request; a key without one has none. */
  lemma HomeIsNewest(s: State, base: u32, key: Key)
    requires Newest(s, base)
    ensures key in s.homes ==> Answer(s.homes[key].id, Success) in s.answers
    ensures forall i :: 0 <= i < |s.requests| && s.requests[i].key == key && Answer(i, Success) in s.answers ==>
      key in s.homes && i <= s.homes[key].id
  {
    HomesAnswered(s, base);
    hide Newest;
    forall i | 0 <= i < |s.requests| && s.requests[i].key == key && Answer(i, Success) in s.answers
      ensures key in s.homes && i <= s.homes[key].id
    {
      HomeIsAfter(s, base, i);
    }
  }

  lemma HomesAnswered(s: State, base: u32)
    requires Newest(s, base)
    ensures forall key :: key in s.homes ==> Answer(s.homes[key].id, Success) in s.answers
  {
    hide Numbered;
  }

  /** The last accepted request of a key that was answered with success, if it is number j. */
  ghost predicate LastAcknowledged(s: State, key: Key, j: nat) {
    && j < |s.requests| && s.requests[j].key == key && Answer(j, Success) in s.answers
    && forall i :: j < i < |s.requests| && s.requests[i].key == key ==> Answer(i, Success) !in s.answers
  }

  lemma ReadsLastAcknowledged(s: State, cfg: Config, base: u32, key: Key, room: nat)
    requires Inv(s, cfg) && Newest(s, base) && WithinLimits(s, cfg)
    ensures Get(s, key, room) == NotFound <==> forall j: nat :: !LastAcknowledged(s, key, j)
    ensures forall j: nat :: LastAcknowledged(s, key, j) ==> Get(s, key, room) == Reading(s.requests[j], room)
  {
    hide Inv, Newest, WithinLimits, Get, Size;
    ReadsNewest(s, cfg, base, key, room);
    if key in s.homes {
      assert LastAcknowledged(s, key, s.homes[key].id);
    }
  }

  /**
   In every state: nothing is found exactly if the index has no live entry for the key, and a value that is returned has
   room, follows a record's prefix in the pages the entry names, and is as long as the prefix says.
   */
  lemma FoundOnlyIf(s: State, key: Key, room: nat)
    ensures Get(s, key, room) == NotFound <==> key !in s.index || s.index[key].deleted
    ensures Get(s, key, room).Found? ==>
      var e, value := s.index[key], Get(s, key, room).value;
      && |value| <= room && FileAt(s.files, e.fileId).Some?
      && var file := s.files[FileAt(s.files, e.fileId).value];
        var data := ReadTo(s.disk, Span(file.blob, e.offsetIndex, e.pageCount), e.pageCount);
        file.isOpen && 28 + |value| <= |data| && value == data[28..28 + |value|]
        && Field(data, 0, 4) == 0x5350444B && Field(data, 24, 4) == |value|
  {
    hide ReadTo, Field;
  }

  lemma HomeKey(s: State, cfg: Config, key: Key)
    requires Inv(s, cfg) && key in s.homes
    ensures s.homes[key].id < |s.requests| && s.requests[s.homes[key].id].key == key
  {
    Indexed(s, cfg, key);
    hide Inv, InFile, Build, OnDisk, Size;
  }
}
