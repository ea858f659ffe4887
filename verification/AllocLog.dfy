/** The allocation log: a page of 64 records used as a ring, written whole after every append. */
module AllocLog {
  // A restart begins at the head and sequence saved in the superblock and reads records as long as they are valid
  // and their sequences grow.

  import opened Types
  import opened Bytes

  const CAPACITY: nat := 64
  const MAGIC: u32 := 0x414C4F47
  const OP_ALLOC: nat := 1

  /** What a caller records: a blob allocated for a file. */
  datatype Allocation = Allocation(blobId: u64, fileId: u16, createTime: u64, fileSize: u64)

  datatype LogEntry = LogEntry(magic: u32, sequence: u32, op: nat, what: Allocation, checksum: u32)

  const ZERO_LOG_ENTRY: LogEntry := LogEntry(0, 0, 0, Allocation(0, 0, 0, 0), 0)

  /** The 60 bytes the checksum covers. */
  function Covered(e: LogEntry): seq<Byte> {
    Layout([Cell(e.magic, 4), Cell(e.sequence, 4), Cell(e.what.blobId, 8), Cell(e.what.fileId, 2), Cell(e.op, 1),
            Cell(0, 1), Cell(0, 4), Cell(e.what.createTime, 8), Cell(e.what.fileSize, 8), Cell(0, 20)])
  }

  function MakeEntry(sequence: u32, what: Allocation, crc: Checksum): (r: LogEntry)
    ensures r.sequence == sequence && r.what == what
  {
    var e := LogEntry(MAGIC, sequence, OP_ALLOC, what, 0);
    e.(checksum := crc(Covered(e)))
  }

  predicate ValidEntry(e: LogEntry, crc: Checksum) {
    e.magic == MAGIC && crc(Covered(e)) == e.checksum
  }

  lemma MadeEntryIsValid(sequence: u32, what: Allocation, crc: Checksum)
    ensures ValidEntry(MakeEntry(sequence, what, crc), crc)
  {
    var e := LogEntry(MAGIC, sequence, OP_ALLOC, what, 0);
    assert Covered(MakeEntry(sequence, what, crc)) == Covered(e);
  }

  // ---------------------------------------------------------------------------------------------
  // The manager as a value
  // ---------------------------------------------------------------------------------------------

  type Page = p: seq<LogEntry> | |p| == CAPACITY witness seq(CAPACITY, _ => ZERO_LOG_ENTRY)

  datatype Log = Log(head: u32, tail: u32, sequence: u32, page: Page)

  /** Positions and sequences are unsigned 32-bit numbers. */
  function Wrapped(n: nat): u32 {
    n % TWO32
  }

  function UsedCount(l: Log): nat {
    (l.tail - l.head) % TWO32
  }

  predicate IsFull(l: Log) {
    UsedCount(l) >= CAPACITY
  }

  /** Appending a record; the log is unchanged if it is full. */
  function Append(l: Log, what: Allocation, crc: Checksum): Log {
    if IsFull(l) then l
    else
      var s := Wrapped(l.sequence + 1);
      Log(l.head, Wrapped(l.tail + 1), s, l.page[l.tail % CAPACITY := MakeEntry(s, what, crc)])
  }

  /** Emptying the log once the superblock knows all files. */
  function Reclaimed(l: Log): Log {
    l.(head := l.tail)
  }

  /** The slot of position i after a head; positions wrap at 32 bits, which slots do not notice. */
  function SlotOf(head: nat, i: nat): (s: nat)
    ensures s < CAPACITY
  {
    (head + i) % TWO32 % CAPACITY
  }

  lemma SlotIs(head: nat, i: nat)
    ensures SlotOf(head, i) == (head + i) % CAPACITY
  {
    var n := head + i;
    var q, r := n / TWO32, n % TWO32;
    assert n == q * TWO32 + r;
    LapsAreWhole(q * 0x400_0000);
    WholeLaps(r, q * 0x400_0000 * CAPACITY);
  }

  lemma LapsAreWhole(c: nat)
    ensures c * CAPACITY % CAPACITY == 0
  {
  }

  lemma WholeLaps(a: nat, b: int)
    requires b % CAPACITY == 0 && a + b >= 0
    ensures (a + b) % CAPACITY == a % CAPACITY
  {
    var c := b / CAPACITY;
    assert b == c * CAPACITY;
    assert a + b == (a / CAPACITY + c) * CAPACITY + a % CAPACITY;
  }

  /** The records found from the i-th place after head on, each newer than the one before. */
  function LoadFrom(page: Page, head: u32, i: nat, last: u32, crc: Checksum): (es: seq<LogEntry>)
    requires i <= CAPACITY
    ensures |es| <= CAPACITY - i
    decreases CAPACITY - i
  {
    if i == CAPACITY then []
    else
      var e := page[SlotOf(head, i)];
      if ValidEntry(e, crc) && e.sequence > last then [e] + LoadFrom(page, head, i + 1, e.sequence, crc) else []
  }

  /** A manager initialised with a saved head and sequence that has read the page. */
  function Recover(page: Page, head: u32, sequence: u32, crc: Checksum): Log {
    var es := LoadFrom(page, head, 0, sequence, crc);
    Log(head, Wrapped(head + |es|), if es == [] then sequence else es[|es| - 1].sequence, page)
  }

  // ---------------------------------------------------------------------------------------------
  // What a page holds, seen from a saved head
  // ---------------------------------------------------------------------------------------------

  lemma LapSlot(head: nat, i: nat, b: nat)
    requires b % CAPACITY == 0
    ensures SlotOf(head, i + b) == SlotOf(head, i)
  {
    hide SlotOf;
    SlotIs(head, i);
    SlotIs(head, i + b);
    WholeLaps(head + i, b);
  }

  lemma SlotsDiffer(head: nat, i: nat, j: nat)
    requires i < j < i + CAPACITY
    ensures SlotOf(head, i) != SlotOf(head, j)
  {
    hide SlotOf;
    SlotIs(head, i);
    SlotIs(head, j);
  }

  lemma SlotAfter(head: nat, i: nat, head': nat, i': nat, d: nat)
    requires SlotOf(head, i) == SlotOf(head', i')
    ensures SlotOf(head, i + d) == SlotOf(head', i' + d)
  {
    SlotIs(head, i);
    SlotIs(head', i');
    SlotIs(head, i + d);
    SlotIs(head', i' + d);
    hide SlotOf;
    SameRemainder(head + i, head' + i', d);
  }

  lemma SameRemainder(a: nat, b: nat, d: nat)
    requires a % CAPACITY == b % CAPACITY
    ensures (a + d) % CAPACITY == (b + d) % CAPACITY
  {
    var r := a % CAPACITY;
    WholeLaps(r + d, a - r);
    WholeLaps(r + d, b - r);
  }

  /** The number before that of the first record, or first if there is none. */
  function Before(es: seq<LogEntry>, first: int): int {
    if es == [] then first else es[0].sequence - 1
  }

  /** The records are valid and numbered from first + 1 on. */
  ghost predicate Numbered(since: seq<LogEntry>, first: int, crc: Checksum) {
    forall i :: 0 <= i < |since| ==> since[i].sequence == first + 1 + i && ValidEntry(since[i], crc)
  }

  predicate Stale(e: LogEntry, limit: int, crc: Checksum) {
    !ValidEntry(e, crc) || e.sequence <= limit
  }

  /** How new a stale record at position p may be: as new as the one before it will be once written. */
  function Limit(k: nat, first: int, p: nat): int {
    if k <= p < CAPACITY then first + p - k else first
  }

  /**
   The page after the first w of the records written since a save, when k records lay between the saved head and the
   tail: those w at their positions, as far as later ones have not overwritten them, and else stale records.
   */
  ghost predicate Holds(page: Page, head: nat, k: nat, first: int, since: seq<LogEntry>, w: nat, crc: Checksum) {
    && w <= |since|
    && (forall i :: 0 <= i < w && w - CAPACITY <= i ==> page[SlotOf(head, k + i)] == since[i])
    && (forall p :: k + w <= p < k + CAPACITY ==> Stale(page[SlotOf(head, p)], Limit(k, first, p), crc))
  }

  /** The position at which the last lap around the page begins, for records up to position n. */
  function LapStart(n: nat): (b: nat)
    ensures (n > 0 ==> b < n) && n <= b + CAPACITY
    ensures if n <= CAPACITY then b == 0 else b >= CAPACITY
  {
    if n <= CAPACITY then 0 else LapStart(n - CAPACITY) + CAPACITY
  }

  lemma {:induction false} LapStartSlot(head: nat, i: nat, n: nat)
    ensures SlotOf(head, LapStart(n) + i) == SlotOf(head, i)
    decreases n
  {
    hide SlotOf;
    if n > CAPACITY {
      LapSlot(head, LapStart(n - CAPACITY) + i, CAPACITY);
      LapStartSlot(head, i, n - CAPACITY);
    }
  }

  /** The records of the last lap, if it began after the save or just at its head. */
  function Found(since: seq<LogEntry>, k: nat, w: nat): seq<LogEntry>
    requires w <= |since|
  {
    var b := LapStart(k + w);
    if b < k then [] else since[b - k..w]
  }

  /** A load from a saved head and sequence finds exactly the last lap of the records written since. */
  lemma LoadFindsLastLap(page: Page, head: nat, k: nat, first: int, since: seq<LogEntry>, w: nat, saved: u32,
      crc: Checksum)
    requires head < TWO32 && k <= CAPACITY && Holds(page, head, k, first, since, w, crc)
    requires Numbered(since, first, crc) && saved <= first && (k > 0 || w == 0 ==> saved == first)
    ensures LoadFrom(page, head, 0, saved, crc) == Found(since, k, w)
  {
    hide ValidEntry, SlotOf;
    var b := LapStart(k + w);
    if b < k {
      LapSlot(head, 0, CAPACITY);
      assert Stale(page[SlotOf(head, CAPACITY)], first, crc);
    } else {
      LoadLap(page, head, k, first, since, w, 0, saved, crc);
    }
  }

  lemma {:induction false} LoadLap(page: Page, head: nat, k: nat, first: int, since: seq<LogEntry>, w: nat, i: nat,
      last: u32, crc: Checksum)
    requires head < TWO32 && k <= CAPACITY && Holds(page, head, k, first, since, w, crc) && Numbered(since, first, crc)
    requires var b := LapStart(k + w);
      && k <= b && b + i <= k + w && i <= CAPACITY
      && last <= first + b - k + i && (b + i == k + w ==> last == first + w)
    ensures LoadFrom(page, head, i, last, crc) == since[LapStart(k + w) - k + i..w]
    decreases CAPACITY - i
  {
    hide ValidEntry, SlotOf;
    var b := LapStart(k + w);
    if i < CAPACITY {
      LapStartSlot(head, i, k + w);
      if b + i < k + w {
        var e := since[b - k + i];
        assert page[SlotOf(head, k + (b - k + i))] == e;
        LoadLap(page, head, k, first, since, w, i + 1, e.sequence, crc);
        assert since[b - k + i..w] == [e] + since[b - k + i + 1..w];
      } else {
        NextIsStale(page, head, k, first, since, w, crc);
      }
    }
  }

  /** The slot after the last record holds nothing newer. */
  lemma NextIsStale(page: Page, head: nat, k: nat, first: int, since: seq<LogEntry>, w: nat, crc: Checksum)
    requires Holds(page, head, k, first, since, w, crc) && Numbered(since, first, crc)
    ensures Stale(page[SlotOf(head, k + w)], first + w, crc)
  {
    hide ValidEntry, SlotOf;
    if w >= CAPACITY {
      LapSlot(head, k + (w - CAPACITY), CAPACITY);
      assert page[SlotOf(head, k + (w - CAPACITY))] == since[w - CAPACITY];
    } else {
      assert Stale(page[SlotOf(head, k + w)], Limit(k, first, k + w), crc);
    }
  }

  /**
   So a load finds everything that was written since and reached the page if and only if there is nothing, or the
   saved head and sequence belong together and no record has been overwritten.
   */
  lemma LoadIsExactIff(page: Page, head: nat, k: nat, first: int, since: seq<LogEntry>, w: nat, saved: u32,
      crc: Checksum)
    requires head < TWO32 && k <= CAPACITY && Holds(page, head, k, first, since, w, crc)
    requires Numbered(since, first, crc) && saved <= first && (k > 0 || w == 0 ==> saved == first)
    ensures LoadFrom(page, head, 0, saved, crc) == since[..w] <==> w == 0 || (k % CAPACITY == 0 && w <= CAPACITY)
  {
    LoadFindsLastLap(page, head, k, first, since, w, saved, crc);
    hide *;
    var b := LapStart(k + w);
    if w > 0 && k <= b {
      assert |since[b - k..w]| == w - (b - k);
      assert b == k ==> since[b - k..w] == since[..w];
      LastLapOfFew(k, w);
    } else if w == 0 {
      assert since[..w] == [];
    }
  }

  lemma LastLapOfFew(k: nat, w: nat)
    requires k <= CAPACITY && 0 < w && k <= LapStart(k + w)
    ensures LapStart(k + w) == k <==> k % CAPACITY == 0 && w <= CAPACITY
  {
  }

  // ---------------------------------------------------------------------------------------------
  // Runs with saves, checkpoints and crashes
  // ---------------------------------------------------------------------------------------------

  /**
   The manager, the page on disk, and the head and sequence in the superblock. What follows is history: how many
   records the log held when these were saved, and the records written since. A restart begins anew with what it finds.
   */
  datatype System = System(
    log: Log,
    disk: Page,
    savedHead: u32,
    savedSequence: u32,
    behind: nat,
    since: seq<LogEntry>)

  datatype Event =
    | Write(what: Allocation)
    | PageFlushed
    | Save
    | Checkpoint
    | CheckpointFailed
    | Crash

  /** A manager with an empty log, as it is in the superblock. */
  function Start(head: u32, sequence: u32, page: Page): System {
    System(Log(head, head, sequence, page), page, head, sequence, 0, [])
  }

  function Saved(s: System): System {
    s.(savedHead := s.log.head, savedSequence := s.log.sequence, behind := UsedCount(s.log), since := [])
  }

  /** A checkpoint whose superblock is not written has emptied the log all the same. */
  function Apply(s: System, e: Event, crc: Checksum): System {
    match e
    case Write(what) =>
      var l := Append(s.log, what, crc);
      s.(log := l, since := if IsFull(s.log) then s.since else s.since + [MakeEntry(l.sequence, what, crc)])
    case PageFlushed => s.(disk := s.log.page)
    case Save => Saved(s)
    case Checkpoint => Saved(s.(log := Reclaimed(s.log)))
    case CheckpointFailed => s.(log := Reclaimed(s.log))
    case Crash =>
      s.(log := Recover(s.disk, s.savedHead, s.savedSequence, crc),
         behind := 0,
         since := LoadFrom(s.disk, s.savedHead, 0, s.savedSequence, crc))
  }

  /** The number before the first record written since. */
  function First(s: System): int {
    Before(s.since, s.savedSequence)
  }

  ghost predicate PageHolds(s: System, page: Page, w: nat, crc: Checksum) {
    Holds(page, s.savedHead, s.behind, First(s), s.since, w, crc)
  }

  /** The disk holds the first w of the records written since; a gap before them shows that there are some. */
  ghost predicate OnDisk(s: System, w: nat, crc: Checksum) {
    PageHolds(s, s.disk, w, crc) && (w == 0 ==> First(s) == s.savedSequence)
  }

  ghost predicate Counts(s: System) {
    && First(s) >= s.savedSequence && (s.behind > 0 ==> First(s) == s.savedSequence)
    && s.log.sequence == First(s) + |s.since|
    && s.log.tail == Wrapped(s.savedHead + s.behind + |s.since|)
    && UsedCount(s.log) <= Min(CAPACITY, s.behind + |s.since|) && s.behind <= CAPACITY
  }

  ghost predicate Inv(s: System, crc: Checksum) {
    && Counts(s) && Numbered(s.since, First(s), crc)
    && PageHolds(s, s.log.page, |s.since|, crc)
    && exists w :: OnDisk(s, w, crc)
  }

  /** A restart finds exactly the last lap of what reached the disk. */
  lemma CrashFinds(s: System, w: nat, crc: Checksum)
    requires Inv(s, crc) && OnDisk(s, w, crc)
    ensures w <= |s.since|
    ensures LoadFrom(s.disk, s.savedHead, 0, s.savedSequence, crc) == Found(s.since, s.behind, w)
  {
    hide ValidEntry, SlotOf, LoadFrom;
    LoadFindsLastLap(s.disk, s.savedHead, s.behind, First(s), s.since, w, s.savedSequence, crc);
  }

  // ---------------------------------------------------------------------------------------------
  // Every event keeps the invariant
  // ---------------------------------------------------------------------------------------------

  /** The next record goes to the position after the last one. */
  lemma HoldsOneMore(page: Page, head: nat, k: nat, first: int, since: seq<LogEntry>, e: LogEntry, crc: Checksum)
    requires Holds(page, head, k, first, since, |since|, crc)
    ensures Holds(page[SlotOf(head, k + |since|) := e], head, k, first, since + [e], |since| + 1, crc)
  {
    hide ValidEntry, SlotOf;
    var w := |since|;
    var page', more := page[SlotOf(head, k + w) := e], since + [e];
    forall i | 0 <= i < w + 1 && w + 1 - CAPACITY <= i
      ensures page'[SlotOf(head, k + i)] == more[i]
    {
      if i < w {
        SlotsDiffer(head, k + i, k + w);
      }
    }
    forall p | k + w + 1 <= p < k + CAPACITY
      ensures Stale(page'[SlotOf(head, p)], Limit(k, first, p), crc)
    {
      SlotsDiffer(head, k + w, p);
    }
  }

  lemma HoldsPrefix(page: Page, head: nat, k: nat, first: int, since: seq<LogEntry>, w: nat, e: LogEntry, crc: Checksum)
    requires Holds(page, head, k, first, since, w, crc)
    ensures Holds(page, head, k, first, since + [e], w, crc)
  {
    hide ValidEntry, SlotOf, Stale;
  }

  lemma WriteIs(s: System, what: Allocation, crc: Checksum)
    requires Counts(s) && !IsFull(s.log) && s.log.sequence + 1 < TWO32
    ensures var s', e := Apply(s, Write(what), crc), MakeEntry(s.log.sequence + 1, what, crc);
      && s' == s.(log := s'.log, since := s.since + [e]) && First(s') == First(s) && Counts(s')
      && s'.log.page == s.log.page[SlotOf(s.savedHead, s.behind + |s.since|) := e]
  {
    TailSlot(s);
    AppendIs(s.log, what, crc);
    hide SlotOf, MakeEntry, Append, UsedCount, Wrapped, Counts;
    CountsAfterWrite(s, Apply(s, Write(what), crc), MakeEntry(s.log.sequence + 1, what, crc));
  }

  lemma CountsAfterWrite(s: System, s': System, e: LogEntry)
    requires Counts(s) && s' == s.(log := s'.log, since := s.since + [e]) && e.sequence == s.log.sequence + 1
    requires s'.log.sequence == s.log.sequence + 1 && s'.log.tail == Wrapped(s.log.tail + 1)
    requires UsedCount(s'.log) == UsedCount(s.log) + 1 <= CAPACITY
    ensures Counts(s') && First(s') == First(s)
  {
    NextTail(s.savedHead + s.behind + |s.since|);
    hide UsedCount, Wrapped;
  }

  lemma AppendIs(l: Log, what: Allocation, crc: Checksum)
    requires !IsFull(l) && l.sequence + 1 < TWO32
    ensures var r := Append(l, what, crc);
      && r.head == l.head && r.sequence == l.sequence + 1 && r.tail == Wrapped(l.tail + 1)
      && UsedCount(r) == UsedCount(l) + 1 <= CAPACITY
      && r.page == l.page[l.tail % CAPACITY := MakeEntry(l.sequence + 1, what, crc)]
  {
    OneMoreUsed(l.head, l.tail);
    hide MakeEntry;
  }

  lemma NumberedOneMore(since: seq<LogEntry>, first: int, e: LogEntry, crc: Checksum)
    requires Numbered(since, first, crc) && e.sequence == first + 1 + |since| && ValidEntry(e, crc)
    ensures Numbered(since + [e], first, crc)
  {
  }

  lemma WriteKeepsInv(s: System, what: Allocation, w: nat, crc: Checksum)
    requires Inv(s, crc) && OnDisk(s, w, crc) && s.log.sequence + 1 < TWO32
    ensures Inv(Apply(s, Write(what), crc), crc)
  {
    if !IsFull(s.log) {
      var e, s' := MakeEntry(s.log.sequence + 1, what, crc), Apply(s, Write(what), crc);
      MadeEntryIsValid(s.log.sequence + 1, what, crc);
      WriteIs(s, what, crc);
      assert s.log.sequence == First(s) + |s.since|;
      hide *;
      WrittenKeepsInv(s, s', e, w, crc);
    }
  }

  lemma WrittenKeepsInv(s: System, s': System, e: LogEntry, w: nat, crc: Checksum)
    requires Inv(s, crc) && OnDisk(s, w, crc) && ValidEntry(e, crc) && e.sequence == First(s) + |s.since| + 1
    requires s' == s.(log := s'.log, since := s.since + [e]) && First(s') == First(s) && Counts(s')
    requires s'.log.page == s.log.page[SlotOf(s.savedHead, s.behind + |s.since|) := e]
    ensures Inv(s', crc)
  {
    hide ValidEntry, SlotOf, Holds, Counts, First, Numbered;
    NumberedOneMore(s.since, First(s), e, crc);
    HoldsOneMore(s.log.page, s.savedHead, s.behind, First(s), s.since, e, crc);
    HoldsPrefix(s.disk, s.savedHead, s.behind, First(s), s.since, w, e, crc);
    assert OnDisk(s', w, crc);
  }

  lemma NextTail(n: nat)
    ensures Wrapped(Wrapped(n) + 1) == Wrapped(n + 1)
  {
  }

  lemma OneMoreUsed(head: u32, tail: u32)
    requires (tail - head) % TWO32 < TWO32 - 1
    ensures ((tail + 1) % TWO32 - head) % TWO32 == (tail - head) % TWO32 + 1
  {
  }

  lemma TailSlot(s: System)
    requires Counts(s)
    ensures s.log.tail % CAPACITY == SlotOf(s.savedHead, s.behind + |s.since|)
  {
  }

  /** Once another head k' positions behind the tail is saved, the page holds nothing written since. */
  lemma HoldsAfterSave(page: Page, head: nat, k: nat, first: int, since: seq<LogEntry>, w: nat, head': nat, k': nat,
      crc: Checksum)
    requires Holds(page, head, k, first, since, w, crc) && Numbered(since, first, crc)
    requires k <= CAPACITY && k' <= CAPACITY && k' <= k + |since|
    requires SlotOf(head, k + |since|) == SlotOf(head', k')
    ensures Holds(page, head', k', first + |since|, [], 0, crc)
  {
    hide ValidEntry, SlotOf;
    forall p | k' <= p < k' + CAPACITY
      ensures Stale(page[SlotOf(head', p)], Limit(k', first + |since|, p), crc)
    {
      SlotAfter(head, k + |since|, head', k', p - k');
      StaleAfterSave(page, head, k, first, since, w, k', p, crc);
    }
  }

  /** The slot d positions behind the tail holds one of the first w records, or was stale before. */
  lemma StaleAfterSave(page: Page, head: nat, k: nat, first: int, since: seq<LogEntry>, w: nat, k': nat, p: nat,
      crc: Checksum)
    requires Holds(page, head, k, first, since, w, crc) && Numbered(since, first, crc)
    requires k <= CAPACITY && k' <= CAPACITY && k' <= k + |since| && k' <= p < k' + CAPACITY
    ensures Stale(page[SlotOf(head, k + |since| + (p - k'))], Limit(k', first + |since|, p), crc)
  {
    hide ValidEntry, SlotOf;
    var n := |since|;
    var b, o := Laps(p - k' + n - w);
    LapSlot(head, k + w + o, b);
    assert k + n + (p - k') == k + w + o + b;
    if w + o >= CAPACITY {
      var i := w + o - CAPACITY;
      LapSlot(head, k + i, CAPACITY);
      assert page[SlotOf(head, k + i)] == since[i];
    } else {
      assert Stale(page[SlotOf(head, k + w + o)], Limit(k, first, k + w + o), crc);
      LimitAfterSave(k, n, w, k', p, b, o, first);
    }
  }

  /** A distance as whole laps and a rest. */
  lemma Laps(x: nat) returns (b: nat, o: nat)
    ensures x == b + o && o < CAPACITY && b % CAPACITY == 0 && (b == 0 || b >= CAPACITY)
  {
    b, o := x / CAPACITY * CAPACITY, x % CAPACITY;
  }

  lemma LimitAfterSave(k: nat, n: nat, w: nat, k': nat, p: nat, b: nat, o: nat, first: int)
    requires w <= n && k' <= CAPACITY && k' <= k + n && k' <= p < k' + CAPACITY && w + o < CAPACITY
    requires p - k' + n - w == b + o && (b == 0 || b >= CAPACITY)
    ensures Limit(k, first, k + w + o) <= Limit(k', first + n, p)
  {
  }

  lemma SaveKeepsInv(s: System, w: nat, crc: Checksum)
    requires Inv(s, crc) && OnDisk(s, w, crc)
    ensures Inv(Saved(s), crc)
  {
    hide ValidEntry, SlotOf, Holds;
    var s', n := Saved(s), |s.since|;
    var k := UsedCount(s.log);
    HeadAndCount(s);
    HoldsAfterSave(s.log.page, s.savedHead, s.behind, First(s), s.since, n, s.log.head, k, crc);
    HoldsAfterSave(s.disk, s.savedHead, s.behind, First(s), s.since, w, s.log.head, k, crc);
    assert OnDisk(s', 0, crc);
  }

  lemma HeadAndCount(s: System)
    requires Counts(s)
    ensures (s.log.head + UsedCount(s.log)) % TWO32 == s.log.tail
    ensures SlotOf(s.savedHead, s.behind + |s.since|) == SlotOf(s.log.head, UsedCount(s.log))
  {
    ThereAndBack(s.log.head, s.log.tail);
  }

  lemma ThereAndBack(a: u32, b: u32)
    ensures (a + (b - a) % TWO32) % TWO32 == b
  {
  }

  lemma ReclaimKeepsInv(s: System, w: nat, crc: Checksum)
    requires Inv(s, crc) && OnDisk(s, w, crc)
    ensures Inv(s.(log := Reclaimed(s.log)), crc) && OnDisk(s.(log := Reclaimed(s.log)), w, crc)
  {
    hide Holds, Numbered;
    var s' := s.(log := Reclaimed(s.log));
    assert First(s') == First(s) && UsedCount(s'.log) == 0;
    assert PageHolds(s', s'.log.page, |s'.since|, crc) && OnDisk(s', w, crc);
  }

  /** After a restart the last lap lies right behind the head. */
  lemma HoldsAfterCrash(page: Page, head: nat, k: nat, first: int, since: seq<LogEntry>, w: nat, crc: Checksum)
    requires Holds(page, head, k, first, since, w, crc) && Numbered(since, first, crc) && k <= CAPACITY
    ensures var es := Found(since, k, w);
      Holds(page, head, 0, Before(es, first), es, |es|, crc)
  {
    if LapStart(k + w) < k {
      NothingFoundHolds(page, head, k, first, since, w, crc);
    } else {
      LapFoundHolds(page, head, k, first, since, w, crc);
    }
  }

  lemma NothingFoundHolds(page: Page, head: nat, k: nat, first: int, since: seq<LogEntry>, w: nat, crc: Checksum)
    requires Holds(page, head, k, first, since, w, crc) && Numbered(since, first, crc) && k <= CAPACITY
    requires LapStart(k + w) < k
    ensures var es := Found(since, k, w);
      Holds(page, head, 0, Before(es, first), es, |es|, crc)
  {
    HoldsRange(page, head, k, first, since, w, crc);
    hide Holds, Numbered, LapStart, Before, Found;
    LapRange(k + w);
    FoundBefore(since, k, first, w, crc);
    NothingHolds(page, head, k, first, since, w, crc);
  }

  lemma LapFoundHolds(page: Page, head: nat, k: nat, first: int, since: seq<LogEntry>, w: nat, crc: Checksum)
    requires Holds(page, head, k, first, since, w, crc) && Numbered(since, first, crc) && k <= CAPACITY
    requires k <= LapStart(k + w)
    ensures var es := Found(since, k, w);
      Holds(page, head, 0, Before(es, first), es, |es|, crc)
  {
    hide *;
    HoldsRange(page, head, k, first, since, w, crc);
    var b := LapStart(k + w);
    FoundSlice(since, k, w);
    FoundBefore(since, k, first, w, crc);
    LapHolds(page, head, k, first, since, w, b, crc);
  }

  lemma HoldsRange(page: Page, head: nat, k: nat, first: int, since: seq<LogEntry>, w: nat, crc: Checksum)
    requires Holds(page, head, k, first, since, w, crc)
    ensures w <= |since|
  {
    hide SlotOf, Stale;
  }

  lemma FoundSlice(since: seq<LogEntry>, k: nat, w: nat)
    requires w <= |since| && k <= LapStart(k + w)
    ensures LapStart(k + w) <= k + w && Found(since, k, w) == since[LapStart(k + w) - k..w]
  {
    hide LapStart;
  }

  lemma NothingHolds(page: Page, head: nat, k: nat, first: int, since: seq<LogEntry>, w: nat, crc: Checksum)
    requires Holds(page, head, k, first, since, w, crc) && Numbered(since, first, crc)
    requires 0 < k && k + w <= CAPACITY
    ensures Holds(page, head, 0, first, [], 0, crc)
  {
    hide ValidEntry, SlotOf, Stale, Numbered;
    forall p | 0 <= p < CAPACITY
      ensures Stale(page[SlotOf(head, p)], Limit(0, first, p), crc)
    {
      StaleBehind(page, head, k, first, since, w, p, crc);
    }
  }

  lemma LapHolds(page: Page, head: nat, k: nat, first: int, since: seq<LogEntry>, w: nat, b: nat, crc: Checksum)
    requires Holds(page, head, k, first, since, w, crc) && Numbered(since, first, crc) && k <= CAPACITY
    requires b == LapStart(k + w) && k <= b <= k + w
    ensures Holds(page, head, 0, first + b - k, since[b - k..w], k + w - b, crc)
  {
    hide ValidEntry, SlotOf, Stale, Numbered, LapStart;
    var es := since[b - k..w];
    forall i | 0 <= i < k + w - b
      ensures page[SlotOf(head, 0 + i)] == es[i]
    {
      LapStartSlot(head, i, k + w);
      assert page[SlotOf(head, k + (b - k + i))] == since[b - k + i];
    }
    forall p | k + w - b <= p < CAPACITY
      ensures Stale(page[SlotOf(head, p)], Limit(0, first + b - k, p), crc)
    {
      StaleAfterLap(page, head, k, first, since, w, p, crc);
    }
  }

  lemma LapRange(n: nat)
    ensures n > CAPACITY ==> LapStart(n) >= CAPACITY
  {
  }

  lemma FoundBefore(since: seq<LogEntry>, k: nat, first: int, w: nat, crc: Checksum)
    requires w <= |since| && Numbered(since, first, crc)
    ensures var es, b := Found(since, k, w), LapStart(k + w);
      && Before(es, first) == (if b < k then first else first + b - k)
      && |es| == if b < k then 0 else k + w - b
  {
    hide *;
    var es, b := Found(since, k, w), LapStart(k + w);
    FoundIs(since, k, w);
    BeforeIs(es, first);
    if k <= b < k + w {
      NumberAt(since, first, b - k, crc);
    }
  }

  lemma BeforeIs(es: seq<LogEntry>, first: int)
    ensures Before(es, first) == if es == [] then first else es[0].sequence - 1
  {
  }

  lemma NumberAt(since: seq<LogEntry>, first: int, i: nat, crc: Checksum)
    requires Numbered(since, first, crc) && i < |since|
    ensures since[i].sequence == first + 1 + i
  {
  }

  lemma FoundIs(since: seq<LogEntry>, k: nat, w: nat)
    requires w <= |since|
    ensures var es, b := Found(since, k, w), LapStart(k + w);
      && (b < k ==> es == []) && (k <= b ==> |es| == k + w - b)
      && forall i :: 0 <= i < |es| ==> es[i] == since[b - k + i]
  {
    hide LapStart;
  }

  /** With nothing found, every slot is stale for the head that was saved before the tail. */
  lemma StaleBehind(page: Page, head: nat, k: nat, first: int, since: seq<LogEntry>, w: nat, p: nat, crc: Checksum)
    requires Holds(page, head, k, first, since, w, crc) && Numbered(since, first, crc)
    requires 0 < k && k + w <= CAPACITY && p < CAPACITY
    ensures Stale(page[SlotOf(head, p)], first + p, crc)
  {
    hide ValidEntry, SlotOf;
    if p < k {
      LapSlot(head, p, CAPACITY);
      assert Stale(page[SlotOf(head, p + CAPACITY)], Limit(k, first, p + CAPACITY), crc);
    } else if p < k + w {
      assert page[SlotOf(head, k + (p - k))] == since[p - k];
    } else {
      assert Stale(page[SlotOf(head, p)], Limit(k, first, p), crc);
    }
  }

  /** Behind the last lap lies the one before, or what was stale before. */
  lemma StaleAfterLap(page: Page, head: nat, k: nat, first: int, since: seq<LogEntry>, w: nat, p: nat, crc: Checksum)
    requires Holds(page, head, k, first, since, w, crc) && Numbered(since, first, crc) && k <= CAPACITY
    requires var b := LapStart(k + w); k <= b && k + w - b <= p < CAPACITY
    ensures Stale(page[SlotOf(head, p)], first + LapStart(k + w) - k + p, crc)
  {
    hide ValidEntry, SlotOf;
    var b := LapStart(k + w);
    if b == 0 {
      assert Stale(page[SlotOf(head, p)], Limit(k, first, p), crc);
    } else if b - CAPACITY + p < k {
      LapSlot(head, p, CAPACITY);
      assert Stale(page[SlotOf(head, p + CAPACITY)], Limit(k, first, p + CAPACITY), crc);
    } else {
      var i := b - CAPACITY + p - k;
      LapStartSlot(head, p, k + w);
      LapSlot(head, k + i, CAPACITY);
      assert page[SlotOf(head, k + i)] == since[i];
    }
  }

  lemma FoundEnds(since: seq<LogEntry>, k: nat, first: int, w: nat, crc: Checksum)
    requires w <= |since| && Numbered(since, first, crc)
    ensures var es := Found(since, k, w);
      && (es == [] ==> k > 0 || w == 0)
      && (es != [] ==> first < es[0].sequence && es[|es| - 1].sequence == es[0].sequence - 1 + |es| == first + w)
      && Numbered(es, Before(es, first), crc)
  {
  }

  lemma RecoverIs(page: Page, head: u32, saved: u32, crc: Checksum)
    ensures var l, es := Recover(page, head, saved, crc), LoadFrom(page, head, 0, saved, crc);
      && l == Log(head, Wrapped(head + |es|), l.sequence, page) && UsedCount(l) == |es| <= CAPACITY
      && l.sequence == if es == [] then saved else es[|es| - 1].sequence
  {
    hide LoadFrom;
  }

  lemma CountsAfterRestart(s: System)
    requires var es := s.since;
      && s.behind == 0 && s.log.tail == Wrapped(s.savedHead + |es|) && UsedCount(s.log) == |es| <= CAPACITY
      && s.log.sequence == (if es == [] then s.savedSequence else es[|es| - 1].sequence)
      && (es != [] ==> s.savedSequence < es[0].sequence && es[|es| - 1].sequence == es[0].sequence - 1 + |es|)
    ensures Counts(s)
  {
    hide UsedCount, Wrapped;
  }

  lemma CrashCounts(s: System, w: nat, crc: Checksum)
    requires Inv(s, crc) && OnDisk(s, w, crc)
    ensures var s', es := Apply(s, Crash, crc), Found(s.since, s.behind, w);
      && s'.log.page == s.disk && s' == s.(log := s'.log, behind := 0, since := es) && Counts(s')
      && First(s') == Before(es, First(s)) && (es == [] ==> First(s') == s.savedSequence)
  {
    hide LoadFrom, ValidEntry, Holds, SlotOf, Numbered, Recover, Found, UsedCount, Wrapped, Counts;
    SavedIsFirst(s);
    CrashFinds(s, w, crc);
    FoundEnds(s.since, s.behind, First(s), w, crc);
    RecoverIs(s.disk, s.savedHead, s.savedSequence, crc);
    CountsAfterRestart(Apply(s, Crash, crc));
  }

  lemma SavedIsFirst(s: System)
    requires Counts(s)
    ensures First(s) >= s.savedSequence && (s.behind > 0 ==> First(s) == s.savedSequence)
  {
    hide UsedCount, Wrapped;
  }

  lemma CrashKeepsInv(s: System, w: nat, crc: Checksum)
    requires Inv(s, crc) && OnDisk(s, w, crc)
    ensures Inv(Apply(s, Crash, crc), crc)
  {
    CrashCounts(s, w, crc);
    HoldsAfterCrash(s.disk, s.savedHead, s.behind, First(s), s.since, w, crc);
    FoundEnds(s.since, s.behind, First(s), w, crc);
    hide ValidEntry, SlotOf, LoadFrom, Holds, Found, Counts, Apply;
    var s' := Apply(s, Crash, crc);
    assert OnDisk(s', |s'.since|, crc);
  }

  lemma EventKeepsInv(s: System, e: Event, crc: Checksum)
    requires Inv(s, crc) && (e.Write? ==> s.log.sequence + 1 < TWO32)
    ensures Inv(Apply(s, e, crc), crc)
  {
    hide Holds, Numbered, Counts, LoadFrom, First;
    var w :| OnDisk(s, w, crc);
    match e {
      case Write(what) => WriteKeepsInv(s, what, w, crc);
      case PageFlushed => FlushKeepsInv(s, crc);
      case Save => SaveKeepsInv(s, w, crc);
      case Checkpoint =>
        ReclaimKeepsInv(s, w, crc);
        SaveKeepsInv(s.(log := Reclaimed(s.log)), w, crc);
      case CheckpointFailed => ReclaimKeepsInv(s, w, crc);
      case Crash => CrashKeepsInv(s, w, crc);
    }
  }

  lemma FlushKeepsInv(s: System, crc: Checksum)
    requires Inv(s, crc)
    ensures Inv(Apply(s, PageFlushed, crc), crc)
  {
    hide Holds, Numbered;
    assert OnDisk(Apply(s, PageFlushed, crc), |s.since|, crc);
  }

  // ---------------------------------------------------------------------------------------------
  // Whole runs
  // ---------------------------------------------------------------------------------------------

  function Run(s: System, es: seq<Event>, crc: Checksum): System {
    if es == [] then s else Apply(Run(s, es[..|es| - 1], crc), es[|es| - 1], crc)
  }

  function Writes(es: seq<Event>): nat {
    if es == [] then 0 else Writes(es[..|es| - 1]) + (if es[|es| - 1].Write? then 1 else 0)
  }

  /** Nothing on the page is newer than the sequence of the manager, whatever that has to do with its head. */
  ghost predicate NothingNewer(page: Page, sequence: u32, crc: Checksum) {
    forall i :: 0 <= i < CAPACITY ==> Stale(page[i], sequence, crc)
  }

  lemma StartInv(head: u32, sequence: u32, page: Page, crc: Checksum)
    requires NothingNewer(page, sequence, crc)
    ensures Inv(Start(head, sequence, page), crc)
  {
    hide ValidEntry, SlotOf;
    var s := Start(head, sequence, page);
    assert forall p :: 0 <= p < CAPACITY ==> Stale(page[SlotOf(head, p)], sequence + p, crc);
    assert OnDisk(s, 0, crc);
  }

  ghost predicate RestartFindsLastLap(s: System, crc: Checksum) {
    exists w: nat :: w <= |s.since| && OnDisk(s, w, crc)
      && LoadFrom(s.disk, s.savedHead, 0, s.savedSequence, crc) == Found(s.since, s.behind, w)
  }

  /**
   Over any run from any empty log, with fewer writes than there are numbers left, the next restart finds exactly
   the last lap of the records written since the last save that reached the disk.
   */
  lemma RunRecovers(head: u32, sequence: u32, page: Page, es: seq<Event>, crc: Checksum)
    requires NothingNewer(page, sequence, crc) && sequence + Writes(es) < TWO32
    ensures RestartFindsLastLap(Run(Start(head, sequence, page), es, crc), crc)
  {
    RunKeepsInv(head, sequence, page, es, crc);
    LastLapOf(Run(Start(head, sequence, page), es, crc), crc);
  }

  lemma LastLapOf(s: System, crc: Checksum)
    requires Inv(s, crc)
    ensures RestartFindsLastLap(s, crc)
  {
    var w :| OnDisk(s, w, crc);
    CrashFinds(s, w, crc);
  }

  lemma {:induction false} RunKeepsInv(head: u32, sequence: u32, page: Page, es: seq<Event>, crc: Checksum)
    requires NothingNewer(page, sequence, crc) && sequence + Writes(es) < TWO32
    ensures var s := Run(Start(head, sequence, page), es, crc);
      Inv(s, crc) && s.log.sequence <= sequence + Writes(es)
    decreases |es|
  {
    hide Inv, NothingNewer, Apply;
    if es == [] {
      StartInv(head, sequence, page, crc);
    } else {
      var front, e := es[..|es| - 1], es[|es| - 1];
      RunKeepsInv(head, sequence, page, front, crc);
      var s := Run(Start(head, sequence, page), front, crc);
      EventKeepsInv(s, e, crc);
      SequenceGrows(s, e, crc);
    }
  }

  /** A restart finds all records since the last save that reached the disk exactly under this condition. */
  lemma CrashFindsAllIff(s: System, w: nat, crc: Checksum)
    requires Inv(s, crc) && OnDisk(s, w, crc)
    ensures w <= |s.since|
    ensures LoadFrom(s.disk, s.savedHead, 0, s.savedSequence, crc) == s.since[..w]
      <==> w == 0 || (s.behind % CAPACITY == 0 && w <= CAPACITY)
  {
    hide ValidEntry, SlotOf, LoadFrom;
    LoadIsExactIff(s.disk, s.savedHead, s.behind, First(s), s.since, w, s.savedSequence, crc);
  }

  lemma SequenceGrows(s: System, e: Event, crc: Checksum)
    requires Inv(s, crc) && (e.Write? ==> s.log.sequence + 1 < TWO32)
    ensures Apply(s, e, crc).log.sequence <= s.log.sequence + (if e.Write? then 1 else 0)
  {
    hide Holds, ValidEntry, LoadFrom, Found;
    if e.Crash? {
      var w :| OnDisk(s, w, crc);
      CrashFinds(s, w, crc);
      FoundEnds(s.since, s.behind, First(s), w, crc);
    }
  }

  /** No record has been overwritten: the log still begins at the saved head. */
  ghost predicate Kept(s: System) {
    s.log.head == s.savedHead && UsedCount(s.log) == s.behind + |s.since| <= CAPACITY
  }

  /** As long as no checkpoint fails to write the superblock, none is. */
  lemma {:induction false} RunKeepsRecords(head: u32, sequence: u32, page: Page, es: seq<Event>, crc: Checksum)
    requires NothingNewer(page, sequence, crc) && sequence + Writes(es) < TWO32 && CheckpointFailed !in es
    ensures Kept(Run(Start(head, sequence, page), es, crc))
    decreases |es|
  {
    if es != [] {
      var front, e := es[..|es| - 1], es[|es| - 1];
      assert e in es && forall x :: x in front ==> x in es;
      RunKeepsRecords(head, sequence, page, front, crc);
      RunKeepsInv(head, sequence, page, front, crc);
      var s := Run(Start(head, sequence, page), front, crc);
      hide Run, NothingNewer;
      EventKeepsRecords(s, e, crc);
    }
  }

  lemma EventKeepsRecords(s: System, e: Event, crc: Checksum)
    requires Inv(s, crc) && Kept(s) && e != CheckpointFailed && (e.Write? ==> s.log.sequence + 1 < TWO32)
    ensures Kept(Apply(s, e, crc))
  {
    hide Inv, Append, Recover, LoadFrom;
    if e.Write? && !IsFull(s.log) {
      AppendIs(s.log, e.what, crc);
    } else if e.Write? {
      FullStays(s.log, e.what, crc);
    } else if e.Crash? {
      RecoverIs(s.disk, s.savedHead, s.savedSequence, crc);
    }
  }

  lemma FullStays(l: Log, what: Allocation, crc: Checksum)
    requires IsFull(l)
    ensures Append(l, what, crc) == l
  {
  }

  /**
   So in a run without such a failure a restart finds all records since the last save that reached the disk if that
   save was of an empty log, a checkpoint above all, and none of them if the log held records then.
   */
  lemma RestartOfKept(s: System, w: nat, crc: Checksum)
    requires Inv(s, crc) && OnDisk(s, w, crc) && Kept(s)
    ensures w <= |s.since|
    ensures LoadFrom(s.disk, s.savedHead, 0, s.savedSequence, crc) == if s.behind == 0 then s.since[..w] else []
  {
    CrashFinds(s, w, crc);
    hide LoadFrom;
    assert s.behind == 0 ==> s.since[0..w] == s.since[..w];
  }

  /** If the last page write has completed, the restart gives the manager as it was. */
  lemma CrashAfterFlushRestoresAll(s: System, crc: Checksum)
    requires Inv(s, crc) && Kept(s) && s.behind == 0 && s.disk == s.log.page
    ensures Apply(s, Crash, crc) == s
  {
    hide ValidEntry, LoadFrom, Holds, SlotOf, Recover, Found;
    assert s.since != [] ==> First(s) + |s.since| == s.log.sequence;
    FlushedOnDisk(s, crc);
    RestartOfKept(s, |s.since|, crc);
    RecoverIs(s.disk, s.savedHead, s.savedSequence, crc);
    assert s.since[..|s.since|] == s.since;
  }

  lemma FlushedOnDisk(s: System, crc: Checksum)
    requires Inv(s, crc) && s.disk == s.log.page
    ensures OnDisk(s, |s.since|, crc)
  {
    hide Holds;
  }

  function Appends(whats: seq<Allocation>): seq<Event> {
    if whats == [] then [] else Appends(whats[..|whats| - 1]) + [Write(whats[|whats| - 1])]
  }

  /** Writes into a log with room for them. */
  lemma {:induction false} RunWrites(s: System, whats: seq<Allocation>, crc: Checksum)
    requires Inv(s, crc) && UsedCount(s.log) + |whats| <= CAPACITY && s.log.sequence + |whats| < TWO32
    ensures var r := Run(s, Appends(whats), crc);
      && Inv(r, crc) && |r.since| == |s.since| + |whats| && UsedCount(r.log) == UsedCount(s.log) + |whats|
      && r.behind == s.behind && r.log.sequence == s.log.sequence + |whats|
    decreases |whats|
  {
    hide Inv, UsedCount, Append;
    if whats != [] {
      var n := |whats| - 1;
      var front := Appends(whats[..n]);
      RunWrites(s, whats[..n], crc);
      RunThen(s, front, Write(whats[n]), crc);
      var r := Run(s, front, crc);
      EventKeepsInv(r, Write(whats[n]), crc);
      AppendIs(r.log, whats[n], crc);
    }
  }

  lemma RunThen(s: System, es: seq<Event>, e: Event, crc: Checksum)
    ensures Run(s, es + [e], crc) == Apply(Run(s, es, crc), e, crc)
  {
    assert (es + [e])[..|es|] == es;
  }

  lemma {:induction false} RunBoth(s: System, a: seq<Event>, b: seq<Event>, crc: Checksum)
    ensures Run(s, a + b, crc) == Run(Run(s, a, crc), b, crc)
    decreases |b|
  {
    hide Apply;
    if b == [] {
      assert a + b == a;
    } else {
      var n := |b| - 1;
      RunBoth(s, a, b[..n], crc);
      assert (a + b)[..|a + b| - 1] == a + b[..n];
    }
  }

  /**
   A checkpoint fails between writes, and the page is flushed. Of the records written since the save before it, a
   restart finds all if and only if they fit into one lap; otherwise it finds those beyond it.
   */
  lemma FailedCheckpointLosesIff(s: System, before: seq<Allocation>, after: seq<Allocation>, crc: Checksum)
    requires Inv(s, crc) && UsedCount(s.log) == 0 && s.behind == 0 && s.since == []
    requires |before| <= CAPACITY && |after| <= CAPACITY && s.log.sequence + |before| + |after| < TWO32
    ensures var r := Run(s, Appends(before) + ([CheckpointFailed] + (Appends(after) + [PageFlushed])), crc);
      var found := LoadFrom(r.disk, r.savedHead, 0, r.savedSequence, crc);
      && |r.since| == |before| + |after|
      && (found == r.since <==> |before| + |after| <= CAPACITY)
      && |found| == |before| + |after| - (if |before| + |after| <= CAPACITY then 0 else CAPACITY)
  {
    hide Run, Appends;
    var s1 := Run(s, Appends(before), crc);
    var s2 := Apply(s1, CheckpointFailed, crc);
    var rest := Appends(after) + [PageFlushed];
    RunWrites(s, before, crc);
    ReclaimedRoom(s1, crc);
    hide *;
    RunWrites(s2, after, crc);
    RunBoth(s, Appends(before), [CheckpointFailed] + rest, crc);
    RunBoth(s1, [CheckpointFailed], rest, crc);
    RunOne(s1, CheckpointFailed, crc);
    RunThen(s2, Appends(after), PageFlushed, crc);
    FlushedFinds(Run(s2, Appends(after), crc), crc);
  }

  /** A checkpoint that fails leaves room for a whole lap, and the records as they are. */
  lemma ReclaimedRoom(s: System, crc: Checksum)
    requires Inv(s, crc)
    ensures var r := Apply(s, CheckpointFailed, crc);
      && Inv(r, crc) && UsedCount(r.log) == 0 && r.since == s.since && r.behind == s.behind
      && r.log.sequence == s.log.sequence
  {
    EventKeepsInv(s, CheckpointFailed, crc);
    ReclaimedIsEmpty(s.log);
    hide Inv, UsedCount, Append, Recover, Saved, LoadFrom, MakeEntry, IsFull;
  }

  lemma ReclaimedIsEmpty(l: Log)
    ensures UsedCount(Reclaimed(l)) == 0
  {
  }

  /** Once the page is flushed, a restart finds the last lap of at most two. */
  lemma FlushedFinds(s: System, crc: Checksum)
    requires Inv(s, crc) && s.behind == 0 && |s.since| <= 2 * CAPACITY
    ensures var r := Apply(s, PageFlushed, crc);
      var found := LoadFrom(r.disk, r.savedHead, 0, r.savedSequence, crc);
      && r.since == s.since
      && (found == r.since <==> |r.since| <= CAPACITY)
      && |found| == |r.since| - (if |r.since| <= CAPACITY then 0 else CAPACITY)
  {
    var r := Apply(s, PageFlushed, crc);
    EventKeepsInv(s, PageFlushed, crc);
    FlushedOnDisk(r, crc);
    CrashFindsAllIff(r, |r.since|, crc);
    CrashFinds(r, |r.since|, crc);
    hide Inv, LoadFrom, Found, OnDisk;
    FoundIs(r.since, r.behind, |r.since|);
    TwoLaps(|r.since|);
    assert r.since[..|r.since|] == r.since;
  }

  lemma RunOne(s: System, e: Event, crc: Checksum)
    ensures Run(s, [e], crc) == Apply(s, e, crc)
  {
    assert [e][..0] == [];
  }

  lemma TwoLaps(n: nat)
    requires n <= 2 * CAPACITY
    ensures LapStart(n) == if n <= CAPACITY then 0 else CAPACITY
  {
  }

  /** What a new engine does: its first file is logged, and the superblock is saved without emptying the log. */
  function FreshEngine(first: Allocation, crc: Checksum): System {
    var s := Start(0, 0, seq(CAPACITY, _ => ZERO_LOG_ENTRY));
    Apply(Apply(Apply(s, Write(first), crc), PageFlushed, crc), Save, crc)
  }

  /** Any number of later allocations are lost when it crashes before its first checkpoint. */
  lemma FreshEngineLosesAllocations(first: Allocation, es: seq<Event>, crc: Checksum)
    requires forall e :: e in es ==> e.Write? || e.PageFlushed?
    requires 1 + Writes(es) < TWO32
    ensures var s := Run(FreshEngine(first, crc), es, crc);
      LoadFrom(s.disk, s.savedHead, 0, s.savedSequence, crc) == []
  {
    FreshInv(first, crc);
    FreshRun(first, es, crc);
    var s := Run(FreshEngine(first, crc), es, crc);
    var w :| OnDisk(s, w, crc);
    RestartOfKept(s, w, crc);
  }

  lemma FreshInv(first: Allocation, crc: Checksum)
    ensures var s := FreshEngine(first, crc);
      Inv(s, crc) && Kept(s) && s.behind == 1 && s.log.sequence == 1
  {
    var s := Start(0, 0, seq(CAPACITY, _ => ZERO_LOG_ENTRY));
    StartInv(0, 0, s.disk, crc);
    var s1 := Apply(s, Write(first), crc);
    EventKeepsInv(s, Write(first), crc);
    EventKeepsInv(s1, PageFlushed, crc);
    EventKeepsInv(Apply(s1, PageFlushed, crc), Save, crc);
    hide Inv, MakeEntry;
  }

  lemma {:induction false} FreshRun(first: Allocation, es: seq<Event>, crc: Checksum)
    requires forall e :: e in es ==> e.Write? || e.PageFlushed?
    requires 1 + Writes(es) < TWO32
    ensures var s := Run(FreshEngine(first, crc), es, crc);
      Inv(s, crc) && Kept(s) && s.behind == 1 && s.log.sequence <= 1 + Writes(es)
    decreases |es|
  {
    FreshInv(first, crc);
    if es != [] {
      var front, e := es[..|es| - 1], es[|es| - 1];
      assert e in es && forall x :: x in front ==> x in es;
      FreshRun(first, front, crc);
      var s := Run(FreshEngine(first, crc), front, crc);
      hide Inv, Kept, FreshEngine;
      EventKeepsInv(s, e, crc);
      EventKeepsRecords(s, e, crc);
      SequenceGrows(s, e, crc);
    }
  }

  /**
   A record appended to an empty log is found again if and only if the number before it is not the last one: the
   comparison of sequences does not wrap as they do.
   */
  lemma AppendedIsFoundIff(l: Log, what: Allocation, crc: Checksum)
    requires l.head == l.tail
    ensures LoadFrom(Append(l, what, crc).page, l.head, 0, l.sequence, crc) != [] <==> l.sequence < TWO32 - 1
  {
    var e, page := MakeEntry(Wrapped(l.sequence + 1), what, crc), Append(l, what, crc).page;
    AppendedEntry(l, what, crc);
    MadeEntryIsValid(Wrapped(l.sequence + 1), what, crc);
    GrowsUnlessLast(l.sequence);
    hide *;
    LoadStep(page, l.head, 0, l.sequence, crc);
  }

  lemma AppendedEntry(l: Log, what: Allocation, crc: Checksum)
    requires l.head == l.tail
    ensures var e := MakeEntry(Wrapped(l.sequence + 1), what, crc);
      e.sequence == Wrapped(l.sequence + 1) && Append(l, what, crc).page[SlotOf(l.head, 0)] == e
  {
    SlotIs(l.head, 0);
    hide MakeEntry, SlotOf, Wrapped;
  }

  lemma GrowsUnlessLast(n: u32)
    ensures Wrapped(n + 1) > n <==> n < TWO32 - 1
  {
  }

  // ---------------------------------------------------------------------------------------------
  // The manager in place
  // ---------------------------------------------------------------------------------------------

  lemma Regroup(a: seq<LogEntry>, e: LogEntry, b: seq<LogEntry>)
    ensures a + ([e] + b) == (a + [e]) + b
  {
  }

  lemma LoadStep(page: Page, head: u32, i: nat, last: u32, crc: Checksum)
    requires i < CAPACITY
    ensures var e := page[SlotOf(head, i)];
      LoadFrom(page, head, i, last, crc) ==
        if ValidEntry(e, crc) && e.sequence > last then [e] + LoadFrom(page, head, i + 1, e.sequence, crc) else []
    ensures LoadFrom(page, head, CAPACITY, last, crc) == []
  {
  }

  class AllocLogManager {
    const crc: Checksum
    var head: u32
    var tail: u32
    var sequence: u32
    const page: array<LogEntry>

    ghost predicate Valid() {
      page.Length == CAPACITY
    }

    ghost function Contents(): Log
      requires Valid()
      reads this, page
    {
      Log(head, tail, sequence, page[..])
    }

    constructor (head: u32, tail: u32, sequence: u32, crc: Checksum)
      ensures Valid() && fresh(page) && this.crc == crc
      ensures Contents() == Log(head, tail, sequence, seq(CAPACITY, _ => ZERO_LOG_ENTRY))
    {
      this.head, this.tail, this.sequence, this.crc := head, tail, sequence, crc;
      page := new LogEntry[CAPACITY](_ => ZERO_LOG_ENTRY);
    }

    /** Refused when the log is full; otherwise the page to be flushed holds the new record. */
    method WriteEntry(what: Allocation) returns (status: int)
      requires Valid()
      modifies this`sequence, this`tail, page
      ensures Contents() == Append(old(Contents()), what, crc)
      ensures status == if IsFull(old(Contents())) then -1 else 0
    {
      hide MakeEntry, Wrapped;
      if (tail - head) % TWO32 >= CAPACITY {
        return -1;
      }
      ghost var was := page[..];
      sequence := Wrapped(sequence + 1);
      var slot := tail % CAPACITY;
      page[slot] := MakeEntry(sequence, what, crc);
      assert page[..] == was[slot := MakeEntry(sequence, what, crc)];
      tail := Wrapped(tail + 1);
      return 0;
    }

    /** Reads the records from the head on and sets tail and sequence from what it finds. */
    method LoadEntries(checkpointSequence: u32) returns (result: seq<LogEntry>)
      requires Valid()
      modifies this`tail, this`sequence
      ensures result == LoadFrom(page[..], head, 0, checkpointSequence, crc)
      ensures tail == Wrapped(head + |result|)
      ensures sequence == if result == [] then old(sequence) else result[|result| - 1].sequence
      ensures old(sequence) == checkpointSequence ==> Contents() == Recover(page[..], head, checkpointSequence, crc)
    {
      hide ValidEntry, SlotOf, LoadFrom;
      result := [];
      ghost var p: Page := page[..];
      var lastSeq := checkpointSequence;
      var i := 0;
      while i < CAPACITY
        invariant 0 <= i <= CAPACITY && |result| == i && sequence == old(sequence)
        invariant result + LoadFrom(p, head, i, lastSeq, crc) == LoadFrom(p, head, 0, checkpointSequence, crc)
      {
        var e := page[SlotOf(head, i)];
        LoadStep(p, head, i, lastSeq, crc);
        if !ValidEntry(e, crc) || e.sequence <= lastSeq {
          break;
        }
        Regroup(result, e, LoadFrom(p, head, i + 1, e.sequence, crc));
        lastSeq := e.sequence;
        result := result + [e];
        i := i + 1;
      }
      tail := Wrapped(head + |result|);
      if result != [] {
        sequence := result[|result| - 1].sequence;
      }
    }

    method Reclaim()
      requires Valid()
      modifies this`head
      ensures Contents() == Reclaimed(old(Contents()))
    {
      head := tail;
    }
  }
}
