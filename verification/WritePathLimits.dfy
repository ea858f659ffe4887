/** Two more runs from the start: a record that cannot be read again, and requests that wait for another put. */
module WritePathLimits {
  import opened Types
  import opened Bytes
  import opened EntryFormat
  import opened BufferRules
  import BufferRuns
  import opened WritePath
  import opened WritePathRuns
  import opened WritePathReads
  import opened WritePathResults
  import opened WritePathLoss
  import WritePathRequests

  // ---------------------------------------------------------------------------------------------
  // A record of too many pages
  // ---------------------------------------------------------------------------------------------

  /** A put too large for the append buffers, its way through the wait queue, and its write, which succeeds. */
  function LargeRun(key: Key, value: seq<Byte>): seq<Event> {
    [Putting(key, value, false, true), ProcessingWaitQueue, Completing(0, true, map[])]
  }

  /** The record has pages beyond what the index entry can count, and fits into a file. */
  predicate Large(cfg: Config, value: seq<Byte>) {
    && PAGE_COUNTS * PAGE_SIZE <= SizeFor(|value|) < TWO32
    && PAGE_SIZE + SizeFor(|value|) <= cfg.fileSize <= PAGE_OFFSETS * PAGE_SIZE
  }

  function LargeRec(key: Key, value: seq<Byte>): Rec {
    Rec(key, 1, false, value)
  }

  function LargeQueued(cfg: Config, key: Key, value: seq<Byte>): Queued {
    var rec := LargeRec(key, value);
    Queued(0, key, Build(rec, cfg.crc), Size(rec) % TWO32, 1, Size(rec) / PAGE_SIZE % PAGE_COUNTS, cfg.tagOf(key))
  }

  ghost predicate Begun(s: State) {
    && WellFormed(s) && s.m == OneBuffer(0, 0, Some(0), []) && s.nextFileId == 1
    && s.activeId == 0 && s.allocating == None && s.index == map[] && s.homes == map[] && s.answers == []
  }

  lemma LargePut(cfg: Config, key: Key, value: seq<Byte>)
    requires Large(cfg, value)
    ensures var s := Start(PAGE_SIZE, 1, 0);
      && Enabled(s, cfg, Putting(key, value, false, true))
      && var r := Step(s, cfg, Putting(key, value, false, true));
        && Begun(r) && r.files == [File(0, 0, false, PAGE_SIZE, true)] && r.ios == []
        && r.requests == [LargeRec(key, value)] && r.waitQ == [LargeQueued(cfg, key, value)]
  {
    var s, m := Start(PAGE_SIZE, 1, 0), OneBuffer(0, 0, Some(0), []);
    StartStage();
    assert BufferRuns.ReserveWithBackpressure(m, SizeFor(|value|), false) == (m, None);
    hide Build, SizeFor, Size;
    var s1 := WithManager(s, m);
    assert s1 == s;
    assert Step(s, cfg, Putting(key, value, false, true)) == Waiting(Accept(s, key, value), cfg);
  }

  lemma LargeLaunched(cfg: Config, s: State, key: Key, value: seq<Byte>)
    requires Large(cfg, value) && Begun(s) && s.files == [File(0, 0, false, PAGE_SIZE, true)] && s.ios == []
    requires s.requests == [LargeRec(key, value)] && s.waitQ == [LargeQueued(cfg, key, value)]
    ensures var r := Step(s, cfg, ProcessingWaitQueue);
      && Begun(r) && r.requests == s.requests && |r.ios| == 1 && r.ios[0].DirectIo?
      && r.ios[0].id == 0 && r.ios[0].fileId == 0 && r.ios[0].entry.key == key && r.ios[0].data == s.waitQ[0].data
      && r.ios[0].span == Span(0, 1, Size(LargeRec(key, value)) / PAGE_SIZE)
  {
    var q, t := s.waitQ[0], s.(waitQ := []);
    FirstFile(s.files[0]);
    assert s.waitQ[1..] == [];
    var r := LaunchDirect(t, q, 0);
    assert WritePathRequests.DrainOne(s, cfg) == r;
    WritePathRequests.DrainUnfolds(s, cfg);
    WritePathRequests.DrainUnfolds(r, cfg);
    hide Drain, WritePathRequests.DrainOne, Build;
  }

  lemma LargeWritten(cfg: Config, s: State, key: Key, value: seq<Byte>)
    requires Large(cfg, value) && Begun(s) && s.requests == [LargeRec(key, value)]
    requires |s.ios| == 1 && s.ios[0].DirectIo? && s.ios[0].id == 0 && s.ios[0].fileId == 0
    requires s.ios[0].entry.key == key && s.ios[0].data == Build(LargeRec(key, value), cfg.crc)
    requires s.ios[0].span == Span(0, 1, Size(LargeRec(key, value)) / PAGE_SIZE)
    ensures Enabled(s, cfg, Completing(0, true, map[]))
    ensures var r := Step(s, cfg, Completing(0, true, map[]));
      && r.requests == s.requests && r.nextFileId == 1
      && key in r.homes && r.homes[key].id == 0 && r.answers == [Answer(0, Success)]
  {
    LargeFits(cfg, key, value);
    hide WriteTo, Build, Size, SizeFor;
    var d, l := Detach(s, cfg, 0, true, map[]), Landing(0, 0, s.ios[0].entry, s.ios[0].span);
    assert LandingsOf(s, s.ios[0]) == [l];
    assert LandTo(d, [l], true, 0) == d;
    assert LandTo(d, [l], true, 1) == Land(d, l, true);
  }

  lemma LargeFits(cfg: Config, key: Key, value: seq<Byte>)
    requires Large(cfg, value)
    ensures var rec := LargeRec(key, value);
      && var pages := Size(rec) / PAGE_SIZE;
      && pages * PAGE_SIZE == Size(rec) == |Build(rec, cfg.crc)| && pages >= PAGE_COUNTS
      && (1 + pages) * PAGE_SIZE <= cfg.fileSize
  {
    hide Build;
  }

  /** Such a put is acknowledged, and no read returns a value for it afterwards. */
  lemma LargeRecordCannotBeRead(cfg: Config, key: Key, value: seq<Byte>, room: nat)
    requires Large(cfg, value)
    ensures var s := Start(PAGE_SIZE, 1, 0);
      && Runs(s, cfg, LargeRun(key, value))
      && var r := After(s, cfg, LargeRun(key, value));
        && r.requests == [LargeRec(key, value)] && r.answers == [Answer(0, Success)]
        && !Get(r, key, room).Found?
  {
    var s0 := Start(PAGE_SIZE, 1, 0);
    LargePut(cfg, key, value);
    var s1 := Step(s0, cfg, Putting(key, value, false, true));
    LargeLaunched(cfg, s1, key, value);
    var s2 := Step(s1, cfg, ProcessingWaitQueue);
    LargeWritten(cfg, s2, key, value);
    var s3 := Step(s2, cfg, Completing(0, true, map[]));
    LargeReading(cfg, key, value, room);
    hide Step, Start, Build, Get, Runs, After, Large, SafeRun, Reading;
    NoEvents(s3, cfg);
    RunsOn(s2, cfg, Completing(0, true, map[]), []);
    RunsOn(s1, cfg, ProcessingWaitQueue, [Completing(0, true, map[])] + []);
    RunsOn(s0, cfg, Putting(key, value, false, true), [ProcessingWaitQueue] + ([Completing(0, true, map[])] + []));
    assert LargeRun(key, value) == [Putting(key, value, false, true)]
        + ([ProcessingWaitQueue] + ([Completing(0, true, map[])] + []));
    StartOk(cfg, PAGE_SIZE, 1, 0);
    StepKeepsInv(s0, cfg, Putting(key, value, false, true));
    StepKeepsInv(s1, cfg, ProcessingWaitQueue);
    StepKeepsInv(s2, cfg, Completing(0, true, map[]));
    LargeWithin(cfg, value, s3);
    GetIsExact(s3, cfg, key, room);
  }

  lemma LargeReading(cfg: Config, key: Key, value: seq<Byte>, room: nat)
    requires Large(cfg, value)
    ensures !Reading(LargeRec(key, value), room).Found?
  {
    LargeFits(cfg, key, value);
    hide Build, Size;
  }

  lemma LargeWithin(cfg: Config, value: seq<Byte>, s: State)
    requires Large(cfg, value) && s.nextFileId == 1
    ensures WithinLimits(s, cfg)
  {
  }

  // ---------------------------------------------------------------------------------------------
  // Requests that wait
  // ---------------------------------------------------------------------------------------------

  /** The record of the value fills a buffer up to the threshold at which a put submits it. */
  predicate Fills(value: seq<Byte>) {
    SizeFor(|value|) == 2_031_616
  }

  const FULL_BUFFER: Buffer := NewBuffer(APPEND_BUFFER_SIZE).(used := FLUSH_THRESHOLD, entries := 1)

  /** Thirteen buffers, the first k of them filled and waiting to be written. */
  function Filled(k: nat): Manager
    requires k <= HIGH_WATER
  {
    Manager(APPEND_BUFFER_SIZE,
            seq(HIGH_WATER + 1, i => if i < k then FULL_BUFFER else NewBuffer(APPEND_BUFFER_SIZE)), Some(k),
            seq(k, i => i), seq(HIGH_WATER - k, i => k + 1 + i), [], false)
  }

  function FillPut(key: Key, value: seq<Byte>): Event {
    Putting(key, value, false, true)
  }

  /** The puts that fill the other buffers up to the mark, and one more, without a poll in between. */
  function FillRun(key: Key, value: seq<Byte>, k: nat): seq<Event>
    requires k <= HIGH_WATER
    decreases HIGH_WATER - k
  {
    [FillPut(key, value)] + (if k == HIGH_WATER then [] else FillRun(key, value, k + 1))
  }

  lemma {:induction false} WithBuffersIs(size: nat, n: nat)
    requires n <= MAX_BUFFERS
    ensures WithBuffers(size, n) == Manager(size, seq(n, _ => NewBuffer(size)), None, [], seq(n, i => i), [], false)
    decreases n
  {
    hide NewBuffer;
    if n > 0 {
      WithBuffersIs(size, n - 1);
      assert seq(n, _ => NewBuffer(size)) == seq(n - 1, _ => NewBuffer(size)) + [NewBuffer(size)];
      assert seq(n, i => i) == seq(n - 1, i => i) + [n - 1];
    }
  }

  lemma StartFilled()
    ensures Initialize(APPEND_BUFFER_SIZE, HIGH_WATER + 1) == Filled(0)
  {
    WithBuffersIs(APPEND_BUFFER_SIZE, HIGH_WATER + 1);
    hide NewBuffer, WithBuffers;
    var n := HIGH_WATER + 1;
    assert seq(n, i => i)[1..] == seq(HIGH_WATER, i => 0 + 1 + i);
    assert seq(n, _ => NewBuffer(APPEND_BUFFER_SIZE)) == Filled(0).buffers;
  }

  /** The manager once the active buffer is filled. */
  function Filling(k: nat): Manager
    requires k < HIGH_WATER
  {
    Filled(k).(buffers := Filled(k).buffers[k := FULL_BUFFER])
  }

  lemma FillReserve(k: nat)
    requires k < HIGH_WATER
    ensures IdsOk(Filled(k)) && IdsOk(Filling(k)) && Filling(k).active == Some(k) && Filling(k).buffers[k].IsFull()
    ensures |Filling(k).buffers| == |Filled(k).buffers|
    ensures BufferRuns.ReserveWithBackpressure(Filled(k), FLUSH_THRESHOLD, false) == (Filling(k), Some(0))
  {
  }

  lemma FillFlush(k: nat)
    requires k < HIGH_WATER
    ensures IdsOk(Filling(k)) && SubmitCurrent(Filling(k)) == Filled(k + 1)
  {
    var m := Filling(k);
    assert m.buffers == Filled(k + 1).buffers;
    assert m.submitRing + [k] == Filled(k + 1).submitRing;
    assert m.completeRing[1..] == Filled(k + 1).completeRing;
  }

  lemma LastReserve()
    ensures IdsOk(Filled(HIGH_WATER))
    ensures BufferRuns.ReserveWithBackpressure(Filled(HIGH_WATER), FLUSH_THRESHOLD, false)
         == (Filled(HIGH_WATER).(backpressure := true), None)
  {
  }

  /** The put fills the active buffer and submits it. */
  lemma PutFills(cfg: Config, s: State, key: Key, value: seq<Byte>, k: nat)
    requires WellFormed(s) && k < HIGH_WATER && s.m == Filled(k) && value != [] && Fills(value)
    ensures Step(s, cfg, FillPut(key, value)).m == Filled(k + 1)
  {
    FillReserve(k);
    FillFlush(k);
    hide Build, Size, SizeFor, Filled, Filling, SubmitCurrent, BufferRuns.ReserveWithBackpressure;
    var r := Accept(WithManager(s, Filling(k)), key, value);
    BufferedKeepsManager(cfg, r);
    assert Step(s, cfg, FillPut(key, value)) == PutInBuffer(WithManager(s, Filling(k)), cfg, key, value, 0);
  }

  lemma PutWaits(cfg: Config, s: State, key: Key, value: seq<Byte>)
    requires WellFormed(s) && s.m == Filled(HIGH_WATER) && value != [] && Fills(value)
    ensures var r := Step(s, cfg, FillPut(key, value)); r.m.backpressure && r.waitQ != []
  {
    LastReserve();
    hide Build, Size, SizeFor, Filled, BufferRuns.ReserveWithBackpressure;
  }

  lemma {:induction false} FillRunWaits(cfg: Config, s: State, key: Key, value: seq<Byte>, k: nat)
    requires WellFormed(s) && k <= HIGH_WATER && s.m == Filled(k)
    requires value != [] && Fills(value) && Enabled(s, cfg, FillPut(key, value))
    ensures Runs(s, cfg, FillRun(key, value, k))
    ensures var r := After(s, cfg, FillRun(key, value, k)); r.m.backpressure && r.waitQ != []
    decreases HIGH_WATER - k
  {
    var r := Step(s, cfg, FillPut(key, value));
    assert Enabled(r, cfg, FillPut(key, value));
    hide Filled, Runs, After, Step, WellFormed, Enabled, Fills;
    if k == HIGH_WATER {
      PutWaits(cfg, s, key, value);
      NoEvents(r, cfg);
      RunsOn(s, cfg, FillPut(key, value), []);
    } else {
      PutFills(cfg, s, key, value, k);
      FillRunWaits(cfg, r, key, value, k + 1);
      RunsOn(s, cfg, FillPut(key, value), FillRun(key, value, k + 1));
    }
  }

  /**
   A run from the start after which a request waits under backpressure, and so until there is another put: thirteen
   puts between two polls, of which each of the first twelve fills a buffer and submits it.
   */
  lemma RequestsWaitUnderBackpressure(cfg: Config, key: Key, value: seq<Byte>)
    requires Fills(value)
    ensures var s := Start(APPEND_BUFFER_SIZE, HIGH_WATER + 1, 0);
      && Runs(s, cfg, FillRun(key, value, 0))
      && var r := After(s, cfg, FillRun(key, value, 0)); r.m.backpressure && r.waitQ != []
  {
    StartFilled();
    FillingValue(value);
    hide Filled, Runs, After, Step, Fills;
    FillRunWaits(cfg, Start(APPEND_BUFFER_SIZE, HIGH_WATER + 1, 0), key, value, 0);
  }

  lemma FillingValue(value: seq<Byte>)
    requires Fills(value)
    ensures value != [] && |value| < TWO32
  {
  }
}
