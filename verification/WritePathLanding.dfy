/**
 A write that ends leaves every indexed record whole, and those it wrote are indexed where they lie. The records of a
 buffer land one by one; until its turn each of them is apart from the indexed records and from the writes still in
 flight.
 */
module WritePathLanding {
  import opened Types
  import opened Bytes
  import opened EntryFormat
  import opened IndexRule
  import opened BufferRules
  import opened WritePath
  import opened WritePathInvariant
  import opened WritePathSafety
  import opened WritePathFlight
  import WritePathBuffers

  // ---------------------------------------------------------------------------------------------
  // The disk
  // ---------------------------------------------------------------------------------------------

  /** After a write its pages hold its data. */
  lemma {:induction false} WrittenAt(disk: Disk, at: Span, data: seq<Byte>, n: nat, k: nat)
    requires n * PAGE_SIZE <= |data| && k < n
    ensures var r, p := WriteTo(disk, at, data, n), (at.blob, at.first + k);
      p in r && r[p] == Page(data, k)
    decreases n
  {
    hide Page;
    if k < n - 1 {
      WrittenAt(disk, at, data, n - 1, k);
    }
  }

  /** Other pages are as they were. */
  lemma {:induction false} WrittenElsewhere(disk: Disk, at: Span, data: seq<Byte>, n: nat, p: (nat, nat))
    requires n * PAGE_SIZE <= |data| && !(p.0 == at.blob && at.first <= p.1 < at.first + n)
    ensures var r := WriteTo(disk, at, data, n); (p in r <==> p in disk) && (p in disk ==> r[p] == disk[p])
    decreases n
  {
    hide Page;
    if n > 0 {
      WrittenElsewhere(disk, at, data, n - 1, p);
    }
  }

  lemma ScribbledElsewhere(disk: Disk, at: Span, junk: Disk, p: (nat, nat))
    requires !(p.0 == at.blob && at.first <= p.1 < at.first + at.pages)
    ensures var r := Scribble(disk, at, junk); (p in r <==> p in disk) && (p in disk ==> r[p] == disk[p])
  {
  }

  /** The disks agree outside a span. */
  ghost predicate SameOutside(disk: Disk, disk': Disk, at: Span) {
    forall p: (nat, nat) {:trigger p in disk'} {:trigger p in disk} ::
      !(p.0 == at.blob && at.first <= p.1 < at.first + at.pages) ==>
        (p in disk' <==> p in disk) && (p in disk ==> disk'[p] == disk[p])
  }

  lemma EndedOutside(s: State, cfg: Config, i: nat, ok: bool, junk: Disk)
    requires WellFormed(s) && i < |s.ios| && (ok ==> CanSucceed(s, cfg, i))
    ensures SameOutside(s.disk, Detach(s, cfg, i, ok, junk).disk, s.ios[i].span)
  {
    hide WriteTo, Scribble;
    var at, r := s.ios[i].span, Detach(s, cfg, i, ok, junk).disk;
    forall p: (nat, nat) | !(p.0 == at.blob && at.first <= p.1 < at.first + at.pages)
      ensures (p in r <==> p in s.disk) && (p in s.disk ==> r[p] == s.disk[p])
    {
      if ok {
        WrittenElsewhere(s.disk, at, DataOf(s, s.ios[i]), at.pages, p);
      } else {
        ScribbledElsewhere(s.disk, at, junk, p);
      }
    }
  }

  lemma HoldsOutside(disk: Disk, disk': Disk, at: Span, h: Home, requests: seq<Rec>, cfg: Config)
    requires SameOutside(disk, disk', at) && SpansApart(h.span, at) && OnDisk(disk, h, requests, cfg)
    ensures OnDisk(disk', h, requests, cfg)
  {
    hide Build, Page;
    var data := Build(requests[h.id], cfg.crc);
    forall k | 0 <= k < h.span.pages
      ensures PageHolds(disk', h.span, data, k)
    {
      assert PageHolds(disk, h.span, data, k);
      assert (h.span.blob, h.span.first + k) in disk;
    }
  }

  lemma HomesOutside(homes: map<Key, Home>, index: Index, files: seq<File>, disk: Disk, disk': Disk, at: Span,
                     requests: seq<Rec>, cfg: Config)
    requires HomesOk(homes, index, files, disk, requests, cfg) && SameOutside(disk, disk', at)
    requires forall key :: key in homes ==> SpansApart(homes[key].span, at)
    ensures HomesOk(homes, index, files, disk', requests, cfg)
  {
    hide SameOutside, SpansApart, OnDisk, EntryOk, InFile;
    forall key | key in homes
      ensures HomeOk(key, homes[key], index[key], files, disk', requests, cfg)
    {
      assert HomeOk(key, homes[key], index[key], files, disk, requests, cfg);
      HoldsOutside(disk, disk', at, homes[key], requests, cfg);
    }
  }

  // ---------------------------------------------------------------------------------------------
  // Landing
  // ---------------------------------------------------------------------------------------------

  /** The record is on the disk, and its entry is right. */
  ghost predicate LandingOk(l: Landing, files: seq<File>, disk: Disk, requests: seq<Rec>, cfg: Config) {
    && HomeOk(l.entry.key, Home(l.id, l.fileId, l.span), l.entry, files, disk, requests, cfg)
  }

  /** From the n-th on, the landings are right and apart from one another, from the records and the writes. */
  ghost predicate LandingsOk(ls: seq<Landing>, n: nat, homes: map<Key, Home>, ios: seq<Io>, files: seq<File>,
                             disk: Disk, requests: seq<Rec>, cfg: Config) {
    && (forall i :: n <= i < |ls| ==> LandingOk(ls[i], files, disk, requests, cfg))
    && (forall i, j :: n <= i < j < |ls| ==> SpansApart(ls[i].span, ls[j].span))
    && (forall i, key :: n <= i < |ls| && key in homes ==> SpansApart(ls[i].span, homes[key].span))
    && (forall i, j :: n <= i < |ls| && 0 <= j < |ios| ==> SpansApart(ls[i].span, ios[j].span))
  }

  lemma LandKeeps(s: State, cfg: Config, ls: seq<Landing>, n: nat)
    requires WellFormed(s) && n < |ls|
    requires HomesOk(s.homes, s.index, s.files, s.disk, s.requests, cfg) && Undisturbed(s.homes, s.ios)
    requires LandingsOk(ls, n, s.homes, s.ios, s.files, s.disk, s.requests, cfg)
    ensures var r := Land(s, ls[n], true);
      && HomesOk(r.homes, r.index, s.files, s.disk, s.requests, cfg) && Undisturbed(r.homes, s.ios)
      && LandingsOk(ls, n + 1, r.homes, s.ios, s.files, s.disk, s.requests, cfg)
  {
    hide HomeOk, WellFormed;
    var r, l := Land(s, ls[n], true), ls[n];
    assert LandingOk(l, s.files, s.disk, s.requests, cfg);
    forall key | key in r.homes
      ensures HomeOk(key, r.homes[key], r.index[key], s.files, s.disk, s.requests, cfg)
    {
      if key in s.homes {
        assert HomeOk(key, s.homes[key], s.index[key], s.files, s.disk, s.requests, cfg);
      }
    }
  }

  lemma LandFrame(s: State, l: Landing, ok: bool)
    requires WellFormed(s)
    ensures var r := Land(s, l, ok);
      && r == s.(index := r.index, homes := r.homes, answers := r.answers)
      && (!ok ==> r.index == s.index && r.homes == s.homes)
  {
  }

  lemma {:induction false} LandToKeeps(s: State, cfg: Config, ls: seq<Landing>, ok: bool, n: nat)
    requires WellFormed(s) && n <= |ls|
    requires HomesOk(s.homes, s.index, s.files, s.disk, s.requests, cfg) && Undisturbed(s.homes, s.ios)
    requires ok ==> LandingsOk(ls, 0, s.homes, s.ios, s.files, s.disk, s.requests, cfg)
    ensures var r := LandTo(s, ls, ok, n);
      && r == s.(index := r.index, homes := r.homes, answers := r.answers)
      && HomesOk(r.homes, r.index, s.files, s.disk, s.requests, cfg) && Undisturbed(r.homes, s.ios)
      && (ok ==> LandingsOk(ls, n, r.homes, s.ios, s.files, s.disk, s.requests, cfg))
    decreases n
  {
    hide HomesOk, Undisturbed, LandingsOk, Land, WellFormed;
    if n > 0 {
      LandToKeeps(s, cfg, ls, ok, n - 1);
      var t := LandTo(s, ls, ok, n - 1);
      LandFrame(t, ls[n - 1], ok);
      if ok {
        LandKeeps(t, cfg, ls, n - 1);
      }
    }
  }

  // ---------------------------------------------------------------------------------------------
  // The landings of a write
  // ---------------------------------------------------------------------------------------------

  ghost predicate Within(a: Span, b: Span) {
    a.blob == b.blob && b.first <= a.first && a.first + a.pages <= b.first + b.pages
  }

  lemma PageOfRecord(content: seq<Byte>, o: nat, data: seq<Byte>, j: nat, k: nat)
    requires HoldsAt(content, o, data) && o == j * PAGE_SIZE && (k + 1) * PAGE_SIZE <= |data|
    ensures (j + k + 1) * PAGE_SIZE <= |content| && Page(content, j + k) == Page(data, k)
  {
    var a, b := k * PAGE_SIZE, (k + 1) * PAGE_SIZE;
    SubSlice(content, o, |data|, a, b);
    assert o + a == (j + k) * PAGE_SIZE && o + b == (j + k + 1) * PAGE_SIZE;
  }

  /** A record of a buffer is on the disk once the buffer is. */
  lemma RecordLands(disk: Disk, at: Span, content: seq<Byte>, pw: PendingWrite, requests: seq<Rec>, cfg: Config)
    requires at.pages * PAGE_SIZE <= |content| && PendingOk(pw, content, requests, cfg)
    requires pw.offset % PAGE_SIZE == 0 && pw.offset / PAGE_SIZE + pw.pages <= at.pages
    ensures HoldsPages(WriteTo(disk, at, content, at.pages), Span(at.blob, at.first + pw.offset / PAGE_SIZE, pw.pages),
                       Build(requests[pw.id], cfg.crc))
  {
    hide Build, Size, Page, WriteTo, HoldsAt;
    var j, data, r := pw.offset / PAGE_SIZE, Build(requests[pw.id], cfg.crc), WriteTo(disk, at, content, at.pages);
    var to := Span(at.blob, at.first + j, pw.pages);
    assert pw.offset == j * PAGE_SIZE;
    forall k | 0 <= k < pw.pages
      ensures PageHolds(r, to, data, k)
    {
      PageOfRecord(content, pw.offset, data, j, k);
      WrittenAt(disk, at, content, at.pages, j + k);
    }
  }

  lemma ModShift(x: nat, y: nat)
    ensures (x + PAGE_OFFSETS * y) % PAGE_OFFSETS == x % PAGE_OFFSETS
  {
    assert x + PAGE_OFFSETS * y == PAGE_OFFSETS * (x / PAGE_OFFSETS + y) + x % PAGE_OFFSETS;
  }

  lemma EntryOfPage(first: nat, page: nat)
    ensures (first % TWO32 + page) % PAGE_OFFSETS == (first + page) % PAGE_OFFSETS
  {
    var q := first / TWO32;
    assert first + page == (first % TWO32 + page) + PAGE_OFFSETS * (q * 2048);
    ModShift(first % TWO32 + page, q * 2048);
  }

  lemma EntryOfBufferedRecord(io: Io, pw: PendingWrite, content: seq<Byte>, requests: seq<Rec>, cfg: Config)
    requires io.BufferIo? && io.base == io.span.first % TWO32 && PendingOk(pw, content, requests, cfg)
    ensures var l := LandingOf(io, pw); EntryOk(l.entry, pw.id, io.fileId, l.span, requests, cfg)
  {
    hide HoldsAt, Build;
    EntryOfPage(io.span.first, pw.offset / PAGE_SIZE);
    var rec := requests[pw.id];
    assert Size(rec) / PAGE_SIZE == pw.pages;
    assert Size(rec) < TWO32;
  }

  /** Record i of a buffer lies in the part of the disk its buffer was written to. */
  lemma LandingWithin(s: State, cfg: Config, io: Io, i: nat)
    requires io.BufferIo? && io.buffer < |s.pend| && i < |s.pend[io.buffer]|
    requires BuffersOk(s.m.buffers, s.contents, s.pend, s.requests, cfg)
    requires IoOk(io, s.files, s.m.buffers, s.requests, cfg)
    ensures var pw := s.pend[io.buffer][i];
      && PendingOk(pw, s.contents[io.buffer], s.requests, cfg)
      && pw.offset % PAGE_SIZE == 0 && pw.offset / PAGE_SIZE + pw.pages <= io.span.pages
      && Within(LandingOf(io, pw).span, io.span) && io.span.pages * PAGE_SIZE <= |s.contents[io.buffer]|
  {
    var b := io.buffer;
    var pws, used, content := s.pend[b], s.m.buffers[b].used, s.contents[b];
    assert Tiled(used, content, pws, s.requests, cfg);
    hide BuffersOk, IoOk, PendingOk;
    EndsAligned(used, content, pws, s.requests, cfg, i);
    EndsRise(used, content, pws, s.requests, cfg, i + 1, |pws|);
    assert pws[i].offset / PAGE_SIZE * PAGE_SIZE == pws[i].offset;
  }

  lemma PendingApart(used: nat, content: seq<Byte>, pws: seq<PendingWrite>, requests: seq<Rec>, cfg: Config, i: nat,
      j: nat)
    requires Tiled(used, content, pws, requests, cfg) && i < j < |pws|
    ensures pws[i].offset / PAGE_SIZE + pws[i].pages <= pws[j].offset / PAGE_SIZE
  {
    hide Tiled, PendingOk;
    EndsAligned(used, content, pws, requests, cfg, i);
    EndsAligned(used, content, pws, requests, cfg, j);
    EndsRise(used, content, pws, requests, cfg, i + 1, j);
    TiledAt(used, content, pws, requests, cfg, i);
    TiledAt(used, content, pws, requests, cfg, j);
    PagesApart(pws[i].offset, pws[i].pages, pws[j].offset);
  }

  lemma LandingsApart(s: State, cfg: Config, io: Io, i: nat, j: nat)
    requires io.BufferIo? && io.buffer < |s.pend| && i < j < |s.pend[io.buffer]|
    requires BuffersOk(s.m.buffers, s.contents, s.pend, s.requests, cfg)
    ensures SpansApart(LandingOf(io, s.pend[io.buffer][i]).span, LandingOf(io, s.pend[io.buffer][j]).span)
  {
    var b := io.buffer;
    assert Tiled(s.m.buffers[b].used, s.contents[b], s.pend[b], s.requests, cfg);
    hide BuffersOk, Tiled, LandingOf;
    PendingApart(s.m.buffers[b].used, s.contents[b], s.pend[b], s.requests, cfg, i, j);
    LandedShape(io, s.pend[b][i]);
    LandedShape(io, s.pend[b][j]);
  }

  lemma PagesApart(o: nat, pages: nat, o': nat)
    requires o % PAGE_SIZE == 0 && o' % PAGE_SIZE == 0 && o + pages * PAGE_SIZE <= o'
    ensures o / PAGE_SIZE + pages <= o' / PAGE_SIZE
  {
    assert o / PAGE_SIZE * PAGE_SIZE == o && o' / PAGE_SIZE * PAGE_SIZE == o';
  }

  lemma InFileWithin(files: seq<File>, id: nat, a: Span, b: Span)
    requires InFile(files, id, b) && Within(a, b)
    ensures InFile(files, id, a)
  {
  }

  lemma RecordLanding(io: Io, pw: PendingWrite, content: seq<Byte>, files: seq<File>, disk: Disk, requests: seq<Rec>,
                      cfg: Config)
    requires io.BufferIo? && io.base == io.span.first % TWO32 && InFile(files, io.fileId, io.span)
    requires PendingOk(pw, content, requests, cfg) && io.span.pages * PAGE_SIZE <= |content|
    requires pw.offset % PAGE_SIZE == 0 && pw.offset / PAGE_SIZE + pw.pages <= io.span.pages
    requires Within(LandingOf(io, pw).span, io.span) && (io.span.first + io.span.pages) * PAGE_SIZE <= cfg.fileSize
    ensures LandingOk(LandingOf(io, pw), files, WriteTo(disk, io.span, content, io.span.pages), requests, cfg)
  {
    hide *;
    var l := LandingOf(io, pw);
    LandedKey(pw, content, requests, cfg);
    EntryOfBufferedRecord(io, pw, content, requests, cfg);
    LandedShape(io, pw);
    InFileWithin(files, io.fileId, l.span, io.span);
    RecordLands(disk, io.span, content, pw, requests, cfg);
    MakeLanding(l, io.span, files, WriteTo(disk, io.span, content, io.span.pages), requests, cfg);
  }

  /** What a completed buffer write lands. */
  lemma BufferLandingOk(s: State, cfg: Config, i: nat, junk: Disk, k: nat)
    requires WellFormed(s) && Addressed(s, cfg) && i < |s.ios| && CanSucceed(s, cfg, i) && s.ios[i].BufferIo?
    requires k < |LandingsOf(s, s.ios[i])|
    ensures LandingOk(LandingsOf(s, s.ios[i])[k], s.files, Detach(s, cfg, i, true, junk).disk, s.requests, cfg)
  {
    var io := s.ios[i];
    AddressedIo(s, cfg, i);
    LandingCount(s, io);
    LandingWithin(s, cfg, io, k);
    hide LandingOf, InFile, PendingOk, WriteTo, LandingOk, Within, Addressed, IoOk, BuffersOk, Scribble;
    RecordLanding(io, s.pend[io.buffer][k], s.contents[io.buffer], s.files, s.disk, s.requests, cfg);
  }

  lemma AddressedIo(s: State, cfg: Config, i: nat)
    requires Addressed(s, cfg) && i < |s.ios|
    ensures IoOk(s.ios[i], s.files, s.m.buffers, s.requests, cfg) && InFile(s.files, s.ios[i].fileId, s.ios[i].span)
    ensures BuffersOk(s.m.buffers, s.contents, s.pend, s.requests, cfg)
    ensures s.ios[i].BufferIo? ==>
      && s.ios[i].buffer < |s.pend| == |s.contents| && s.ios[i].base == s.ios[i].span.first % TWO32
  {
    assert IoOk(s.ios[i], s.files, s.m.buffers, s.requests, cfg);
  }

  lemma LandedShape(io: Io, pw: PendingWrite)
    requires io.BufferIo?
    ensures var l := LandingOf(io, pw); l.id == pw.id && l.fileId == io.fileId && l.entry.key == pw.key
    ensures LandingOf(io, pw).span == Span(io.span.blob, io.span.first + pw.offset / PAGE_SIZE, pw.pages)
  {
  }

  lemma DetachedDisk(s: State, cfg: Config, i: nat, junk: Disk)
    requires WellFormed(s) && i < |s.ios| && CanSucceed(s, cfg, i)
    ensures var io := s.ios[i];
      && Detach(s, cfg, i, true, junk).disk == WriteTo(s.disk, io.span, DataOf(s, io), io.span.pages)
      && (io.span.first + io.span.pages) * PAGE_SIZE <= cfg.fileSize
      && (io.BufferIo? ==> DataOf(s, io) == s.contents[io.buffer])
  {
  }

  lemma MakeLanding(l: Landing, at: Span, files: seq<File>, disk: Disk, requests: seq<Rec>, cfg: Config)
    requires l.id < |requests| && l.entry.key == requests[l.id].key
    requires EntryOk(l.entry, l.id, l.fileId, l.span, requests, cfg) && InFile(files, l.fileId, l.span)
    requires HoldsPages(disk, l.span, Build(requests[l.id], cfg.crc))
    requires Within(l.span, at) && (at.first + at.pages) * PAGE_SIZE <= cfg.fileSize
    ensures LandingOk(l, files, disk, requests, cfg)
  {
    hide EntryOk, InFile, HoldsPages, Build;
  }

  lemma LandedKey(pw: PendingWrite, content: seq<Byte>, requests: seq<Rec>, cfg: Config)
    requires PendingOk(pw, content, requests, cfg)
    ensures pw.id < |requests| && pw.key == requests[pw.id].key
  {
  }

  lemma DirectLandingOk(s: State, cfg: Config, i: nat, junk: Disk)
    requires WellFormed(s) && Addressed(s, cfg) && i < |s.ios| && CanSucceed(s, cfg, i) && s.ios[i].DirectIo?
    ensures LandingOk(LandingsOf(s, s.ios[i])[0], s.files, Detach(s, cfg, i, true, junk).disk, s.requests, cfg)
  {
    var io := s.ios[i];
    assert IoOk(io, s.files, s.m.buffers, s.requests, cfg);
    EntryId(io.entry, io.id, io.fileId, io.span, s.requests, cfg);
    DetachedDisk(s, cfg, i, junk);
    DirectWritten(s.disk, io.span, io.data);
    var l := LandingsOf(s, io)[0];
    assert l == Landing(io.id, io.fileId, io.entry, io.span);
    hide LandingOk, EntryOk, InFile, Build, HoldsPages, WriteTo, Addressed, IoOk;
    MakeLanding(l, io.span, s.files, Detach(s, cfg, i, true, junk).disk, s.requests, cfg);
  }

  lemma DirectWritten(disk: Disk, at: Span, data: seq<Byte>)
    requires at.pages * PAGE_SIZE <= |data|
    ensures HoldsPages(WriteTo(disk, at, data, at.pages), at, data)
  {
    hide WriteTo, Page;
    forall k | 0 <= k < at.pages
      ensures PageHolds(WriteTo(disk, at, data, at.pages), at, data, k)
    {
      WrittenAt(disk, at, data, at.pages, k);
    }
  }

  lemma ApartWithin(a: Span, b: Span, c: Span)
    requires Within(a, b) && SpansApart(b, c)
    ensures SpansApart(a, c)
  {
  }

  /** The landing spans of a write lie in its span. */
  lemma AllWithin(s: State, cfg: Config, i: nat, k: nat)
    requires WellFormed(s) && Addressed(s, cfg) && i < |s.ios| && k < |LandingsOf(s, s.ios[i])|
    ensures Within(LandingsOf(s, s.ios[i])[k].span, s.ios[i].span)
  {
    var io := s.ios[i];
    if io.BufferIo? {
      assert IoOk(io, s.files, s.m.buffers, s.requests, cfg);
      LandingWithin(s, cfg, io, k);
    }
  }

  lemma WithoutIoAt(ios: seq<Io>, i: nat, j: nat)
    requires i < |ios| && j < |ios| - 1
    ensures WithoutIo(ios, i)[j] == ios[if j < i then j else j + 1]
  {
  }

  lemma LandingsOfWriteOk(s: State, cfg: Config, i: nat, junk: Disk)
    requires WellFormed(s) && Addressed(s, cfg) && i < |s.ios| && CanSucceed(s, cfg, i)
    ensures LandingsOk(LandingsOf(s, s.ios[i]), 0, s.homes, WithoutIo(s.ios, i), s.files,
                       Detach(s, cfg, i, true, junk).disk, s.requests, cfg)
  {
    var io, ls, rest := s.ios[i], LandingsOf(s, s.ios[i]), WithoutIo(s.ios, i);
    var disk' := Detach(s, cfg, i, true, junk).disk;
    hide Addressed, CanSucceed, LandingsOf, LandingOk, Detach, SpansApart, WithoutIo, WellFormed;
    forall k | 0 <= k < |ls|
      ensures LandingOk(ls[k], s.files, disk', s.requests, cfg)
    {
      LandingOfWriteOk(s, cfg, i, junk, k);
    }
    forall k, j | 0 <= k < |ls| && 0 <= j < |rest|
      ensures SpansApart(ls[k].span, rest[j].span)
    {
      LandingApartFromIo(s, cfg, i, k, j);
    }
    forall k, key | 0 <= k < |ls| && key in s.homes
      ensures SpansApart(ls[k].span, s.homes[key].span)
    {
      LandingApartFromHome(s, cfg, i, k, key);
    }
    forall j, k | 0 <= j < k < |ls|
      ensures SpansApart(ls[j].span, ls[k].span)
    {
      AddressedIo(s, cfg, i);
      LandingsApart(s, cfg, io, j, k);
    }
  }

  lemma LandingOfWriteOk(s: State, cfg: Config, i: nat, junk: Disk, k: nat)
    requires WellFormed(s) && Addressed(s, cfg) && i < |s.ios| && CanSucceed(s, cfg, i)
    requires k < |LandingsOf(s, s.ios[i])|
    ensures LandingOk(LandingsOf(s, s.ios[i])[k], s.files, Detach(s, cfg, i, true, junk).disk, s.requests, cfg)
  {
    LandingCount(s, s.ios[i]);
    hide *;
    if s.ios[i].BufferIo? {
      BufferLandingOk(s, cfg, i, junk, k);
    } else {
      DirectLandingOk(s, cfg, i, junk);
    }
  }

  lemma LandingApartFromIo(s: State, cfg: Config, i: nat, k: nat, j: nat)
    requires WellFormed(s) && Addressed(s, cfg) && i < |s.ios| && k < |LandingsOf(s, s.ios[i])|
    requires j < |WithoutIo(s.ios, i)|
    ensures SpansApart(LandingsOf(s, s.ios[i])[k].span, WithoutIo(s.ios, i)[j].span)
  {
    WithoutIoAt(s.ios, i, j);
    hide *;
    AllWithin(s, cfg, i, k);
    IosApart(s, cfg, i, if j < i then j else j + 1);
    ApartWithin(LandingsOf(s, s.ios[i])[k].span, s.ios[i].span, WithoutIo(s.ios, i)[j].span);
  }

  lemma LandingApartFromHome(s: State, cfg: Config, i: nat, k: nat, key: Key)
    requires WellFormed(s) && Addressed(s, cfg) && i < |s.ios| && k < |LandingsOf(s, s.ios[i])| && key in s.homes
    ensures SpansApart(LandingsOf(s, s.ios[i])[k].span, s.homes[key].span)
  {
    assert SpansApart(s.homes[key].span, s.ios[i].span);
    hide *;
    AllWithin(s, cfg, i, k);
    ApartFromEither(s.homes[key].span, s.ios[i].span);
    ApartWithin(LandingsOf(s, s.ios[i])[k].span, s.ios[i].span, s.homes[key].span);
  }

  lemma ApartFromEither(a: Span, b: Span)
    ensures SpansApart(a, b) == SpansApart(b, a)
  {
  }

  lemma LandingCount(s: State, io: Io)
    requires io.BufferIo? ==> io.buffer < |s.pend|
    ensures |LandingsOf(s, io)| == if io.BufferIo? then |s.pend[io.buffer]| else 1
  {
  }

  lemma IosApart(s: State, cfg: Config, i: nat, j: nat)
    requires Addressed(s, cfg) && i < |s.ios| && j < |s.ios| && i != j
    ensures SpansApart(s.ios[i].span, s.ios[j].span)
  {
    if i < j {
      assert SpansApart(s.ios[i].span, s.ios[j].span);
    } else {
      assert SpansApart(s.ios[j].span, s.ios[i].span);
    }
  }

  // ---------------------------------------------------------------------------------------------
  // A completion
  // ---------------------------------------------------------------------------------------------

  lemma IosWithout(ios: seq<Io>, files: seq<File>, buffers: seq<Buffer>, requests: seq<Rec>, cfg: Config, i: nat)
    requires IosOk(ios, files, buffers, requests, cfg) && i < |ios|
    ensures IosOk(WithoutIo(ios, i), files, buffers, requests, cfg)
  {
    hide IoOk, SpansApart;
    var rest := WithoutIo(ios, i);
    forall j | 0 <= j < |rest|
      ensures IoOk(rest[j], files, buffers, requests, cfg)
    {
      WithoutIoAt(ios, i, j);
    }
    forall j, k | 0 <= j < k < |rest|
      ensures SpansApart(rest[j].span, rest[k].span)
    {
      WithoutIoAt(ios, i, j);
      WithoutIoAt(ios, i, k);
    }
  }

  lemma UndisturbedWithout(homes: map<Key, Home>, ios: seq<Io>, i: nat)
    requires Undisturbed(homes, ios) && i < |ios|
    ensures Undisturbed(homes, WithoutIo(ios, i))
  {
    hide SpansApart;
    forall k, j | k in homes && 0 <= j < |ios| - 1
      ensures SpansApart(homes[k].span, WithoutIo(ios, i)[j].span)
    {
      WithoutIoAt(ios, i, j);
    }
  }

  /** The homes and the index after the landings of write i. */
  lemma CompleteKeepsHomes(s: State, cfg: Config, i: nat, ok: bool, junk: Disk)
    requires Inv(s, cfg) && i < |s.ios| && (ok ==> CanSucceed(s, cfg, i))
    ensures var ls := LandingsOf(s, s.ios[i]); var r := LandTo(Detach(s, cfg, i, ok, junk), ls, ok, |ls|);
      && HomesOk(r.homes, r.index, s.files, r.disk, s.requests, cfg) && Undisturbed(r.homes, r.ios)
      && r == Detach(s, cfg, i, ok, junk).(index := r.index, homes := r.homes, answers := r.answers)
  {
    hide LandingsOk, HomesOk, Undisturbed, WriteTo, Scribble, SameOutside, LandTo, LandingsOf, ManagerInv;
    var d := Detach(s, cfg, i, ok, junk);
    EndedOutside(s, cfg, i, ok, junk);
    HomesApart(s, cfg, i);
    HomesOutside(s.homes, s.index, s.files, s.disk, d.disk, s.ios[i].span, s.requests, cfg);
    UndisturbedWithout(s.homes, s.ios, i);
    if ok {
      LandingsOfWriteOk(s, cfg, i, junk);
    }
    LandToKeeps(d, cfg, LandingsOf(s, s.ios[i]), ok, |LandingsOf(s, s.ios[i])|);
  }

  lemma HomesApart(s: State, cfg: Config, i: nat)
    requires Addressed(s, cfg) && i < |s.ios|
    ensures forall key :: key in s.homes ==> SpansApart(s.homes[key].span, s.ios[i].span)
  {
  }

  lemma CompleteKeeps(s: State, cfg: Config, i: nat, ok: bool, junk: Disk)
    requires Inv(s, cfg) && i < |s.ios| && (ok ==> CanSucceed(s, cfg, i))
    ensures Inv(Complete(s, cfg, i, ok, junk), cfg)
  {
    hide FilesOk, HomesOk, Undisturbed, QueueOk, BuffersOk, IosOk, WriteTo, Scribble, LandTo, LandingsOf, ManagerInv;
    var io := s.ios[i];
    var r := Complete(s, cfg, i, ok, junk);
    CompleteKeepsHomes(s, cfg, i, ok, junk);
    IosWithout(s.ios, s.files, s.m.buffers, s.requests, cfg, i);
    IoUsed(s, cfg, i);
    WritePathBuffers.DetachKeepsManager(s, cfg, i, ok, junk);
    var d := Detach(s, cfg, i, ok, junk);
    var t := LandTo(d, LandingsOf(s, io), ok, |LandingsOf(s, io)|);
    WritePathBuffers.SameManager(d, t, WritePathBuffers.BufferOf(io));
    if io.BufferIo? {
      var b := io.buffer;
      WritePathBuffers.ReturnKeepsManager(t, [b]);
      assert [b][1..] == [];
      CanResetAll(s, []);
      ReturnedBuffers(s, cfg, b, t.pend);
      WritePathBuffers.InFlightOnce(s, [], i);
      OthersElsewhere(s, i);
      BuffersKeepIos(t.ios, s.files, s.m.buffers, r.m.buffers, s.requests, cfg);
    }
  }

  lemma CanResetAll(s: State, batch: seq<nat>)
    requires ManagerInv(s, batch)
    ensures forall b :: 0 <= b < |s.m.buffers| ==> s.m.buffers[b].CanReset()
  {
  }

  lemma OthersElsewhere(s: State, i: nat)
    requires i < |s.ios| && s.ios[i].BufferIo?
    requires forall j :: 0 <= j < |s.ios| && s.ios[j].BufferIo? && j != i ==> s.ios[j].buffer != s.ios[i].buffer
    ensures var rest := WithoutIo(s.ios, i);
      forall j :: 0 <= j < |rest| && rest[j].BufferIo? ==> rest[j].buffer != s.ios[i].buffer
  {
    var rest := WithoutIo(s.ios, i);
    forall j | 0 <= j < |rest| && rest[j].BufferIo?
      ensures rest[j].buffer != s.ios[i].buffer
    {
      WithoutIoAt(s.ios, i, j);
    }
  }

  lemma IoUsed(s: State, cfg: Config, i: nat)
    requires WellFormed(s) && IosOk(s.ios, s.files, s.m.buffers, s.requests, cfg) && i < |s.ios|
    ensures s.ios[i].BufferIo? ==> s.m.buffers[s.ios[i].buffer].used > 0
  {
    assert IoOk(s.ios[i], s.files, s.m.buffers, s.requests, cfg);
  }
}
