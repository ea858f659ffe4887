/** A run from the start that loses an acknowledged put. */
module WritePathLoss {
  // A file is being allocated for queued records, meanwhile an append buffer goes to a file of its own, and then the
  // allocation fails and takes that file back.

  import opened Types
  import opened Bytes
  import opened EntryFormat
  import opened BufferRules
  import BufferRuns
  import opened WritePath
  import opened WritePathRuns
  import opened WritePathResults
  import WritePathRequests

  /** One buffer of a page, files of a header and one page, values of one byte. */
  const SMALL_FILE: nat := 2 * PAGE_SIZE
  const VALUE: seq<Byte> := [0]

  function Puts(key: Key): Event {
    Putting(key, VALUE, false, true)
  }

  /** Three puts, of which the last two wait; the queue, the buffer; its write succeeds, the allocation fails. */
  const LOSING_RUN: seq<Event> := [
    Puts(1), Puts(2), Puts(3), ProcessingWaitQueue, Flushing, SubmittingPending([true]),
    Completing(1, true, map[]), Allocated(false)]

  function OneBuffer(used: nat, entries: nat, active: Option<nat>, submitRing: seq<nat>): Manager {
    Manager(PAGE_SIZE, [NewBuffer(PAGE_SIZE).(used := used, entries := entries)], active, submitRing, [], [], false)
  }

  lemma StartManager()
    ensures Initialize(PAGE_SIZE, 1) == OneBuffer(0, 0, Some(0), [])
  {
    assert WithBuffers(PAGE_SIZE, 0).buffers == [];
    assert WithBuffers(PAGE_SIZE, 1) == Manager(PAGE_SIZE, [NewBuffer(PAGE_SIZE)], None, [], [0], [], false);
  }

  lemma FirstReserve()
    ensures IdsOk(OneBuffer(0, 0, Some(0), []))
    ensures BufferRuns.ReserveWithBackpressure(OneBuffer(0, 0, Some(0), []), PAGE_SIZE, false)
         == (OneBuffer(PAGE_SIZE, 1, Some(0), []), Some(0))
  {
    var b := NewBuffer(PAGE_SIZE);
    assert [b][0 := b.(used := PAGE_SIZE, entries := 1)] == [b.(used := PAGE_SIZE, entries := 1)];
  }

  lemma NextReserve()
    ensures IdsOk(OneBuffer(PAGE_SIZE, 1, Some(0), []))
    ensures BufferRuns.ReserveWithBackpressure(OneBuffer(PAGE_SIZE, 1, Some(0), []), PAGE_SIZE, false)
         == (OneBuffer(PAGE_SIZE, 1, Some(0), []), None)
  {
    var b := NewBuffer(PAGE_SIZE).(used := PAGE_SIZE, entries := 1);
    assert [b][0 := b] == [b];
  }

  lemma OnePage(rec: Rec)
    requires rec.value == VALUE
    ensures Size(rec) == PAGE_SIZE == SizeFor(|VALUE|)
  {
  }

  // ---------------------------------------------------------------------------------------------
  // The states of the run
  // ---------------------------------------------------------------------------------------------

  /** The engine without files coming or going: one buffer, the first file with its end at a page. */
  ghost predicate Stage(s: State, m: Manager, waiting: nat, end: nat) {
    && WellFormed(s) && s.m == m
    && s.files == [File(0, 0, false, end, true)] && s.nextFileId == 1 && s.nextBlob == 1
    && s.activeId == 0 && s.allocating == None
    && |s.waitQ| == waiting && (forall i :: 0 <= i < waiting ==> s.waitQ[i].size == PAGE_SIZE)
    && s.pendQ == [] && s.ios == [] && s.index == map[] && s.answers == []
  }

  /** The first request is the one record of the buffer. */
  ghost predicate FirstBuffered(s: State) {
    && |s.contents| == |s.pend| == 1 && |s.contents[0]| >= PAGE_SIZE
    && |s.pend[0]| == 1 && s.pend[0][0].id == 0 && s.pend[0][0].key == 1 && s.pend[0][0].offset == 0
  }

  lemma FirstPut(cfg: Config, s: State)
    requires Stage(s, OneBuffer(0, 0, Some(0), []), 0, PAGE_SIZE) && s.requests == [] && s.pend == [[]]
    ensures var r := Step(s, cfg, Puts(1));
      Stage(r, OneBuffer(PAGE_SIZE, 1, Some(0), []), 0, PAGE_SIZE) && FirstBuffered(r)
  {
    FirstPutIs(cfg, s);
    hide Build, Step, Size;
    var m1 := OneBuffer(PAGE_SIZE, 1, Some(0), []);
    var s1 := WithManager(s, m1);
    assert s1.pend == s.pend && s1.contents == s.contents;
    OnePage(Accept(s1, 1, VALUE).requests[0]);
  }

  lemma FirstPutIs(cfg: Config, s: State)
    requires WellFormed(s) && s.m == OneBuffer(0, 0, Some(0), [])
    ensures var m1 := OneBuffer(PAGE_SIZE, 1, Some(0), []);
      IdsOk(m1) && Step(s, cfg, Puts(1)) == Buffered(Accept(WithManager(s, m1), 1, VALUE), cfg, 0)
  {
    FirstReserve();
    OnePage(Rec(1, 0, false, VALUE));
    hide Build, BufferRuns.ReserveWithBackpressure, Buffered, WithManager, Accept;
    var m1 := OneBuffer(PAGE_SIZE, 1, Some(0), []);
    assert !m1.buffers[0].IsFull();
    BufferedKeepsManager(cfg, Accept(WithManager(s, m1), 1, VALUE));
  }

  lemma BufferedKeepsManager(cfg: Config, s: State)
    requires WellFormed(s) && s.m.active.Some? && s.requests != []
    ensures Buffered(s, cfg, 0).m == s.m
  {
  }

  lemma NextPut(cfg: Config, s: State, key: Key, waiting: nat)
    requires Stage(s, OneBuffer(PAGE_SIZE, 1, Some(0), []), waiting, PAGE_SIZE) && FirstBuffered(s)
    ensures var r := Step(s, cfg, Puts(key));
      Stage(r, OneBuffer(PAGE_SIZE, 1, Some(0), []), waiting + 1, PAGE_SIZE) && FirstBuffered(r)
  {
    NextReserve();
    hide Build;
    var r := Step(s, cfg, Puts(key));
    var s1 := WithManager(s, s.m);
    assert s1.pend == s.pend && s1.contents == s.contents;
    var s2 := Accept(s1, key, VALUE);
    OnePage(s2.requests[|s.requests|]);
    assert r == Waiting(s2, cfg);
  }

  const FULL: File := File(0, 0, true, SMALL_FILE, true)
  const UNOPENED: File := File(1, 1, false, PAGE_SIZE, false)

  /** One queued record in flight, the other waits for the file that is being allocated. */
  ghost predicate Allocating(s: State, m: Manager) {
    && WellFormed(s) && s.m == m
    && s.files == [FULL, UNOPENED] && s.nextFileId == 2 && s.nextBlob == 2
    && s.activeId == 0 && s.allocating == Some(1)
    && |s.ios| == 1 && s.ios[0].DirectIo? && s.index == map[] && s.answers == []
  }

  lemma FirstDrained(cfg: Config, s: State)
    requires cfg.fileSize == SMALL_FILE && Stage(s, OneBuffer(PAGE_SIZE, 1, Some(0), []), 2, PAGE_SIZE) &&
        FirstBuffered(s)
    ensures var r := WritePathRequests.DrainOne(s, cfg);
      && r == s.(files := [File(0, 0, false, SMALL_FILE, true)], waitQ := [s.waitQ[1]], ios := r.ios,
          foreground := r.foreground)
      && |r.ios| == 1 && r.ios[0].DirectIo?
  {
    FirstFile(s.files[0]);
    var f := s.files[0];
    assert [f][0 := f.(end := SMALL_FILE)] == [f.(end := SMALL_FILE)];
    assert s.waitQ[1..] == [s.waitQ[1]];
  }

  lemma FirstFile(f: File)
    requires f.id == 0
    ensures FileAt([f], 0) == Some(0)
  {
    assert [f][..0] == [];
  }

  lemma SecondDrained(cfg: Config, s: State)
    requires cfg.fileSize == SMALL_FILE && WellFormed(s) && s.files == [File(0, 0, false, SMALL_FILE, true)]
    requires s.nextFileId == 1 && s.nextBlob == 1 && s.activeId == 0 && s.allocating == None
    requires |s.waitQ| == 1 && s.waitQ[0].size == PAGE_SIZE
    ensures var r := WritePathRequests.DrainOne(s, cfg);
      r == s.(files := [FULL, UNOPENED], nextFileId := 2, nextBlob := 2, allocating := Some(1), waitQ := [],
              pendQ := r.pendQ)
  {
    var f := s.files[0];
    FirstFile(f);
    assert [f][0 := f.(isSealed := true)] == [FULL];
    assert [FULL] + [UNOPENED] == [FULL, UNOPENED];
    assert s.waitQ[1..] == [];
  }

  lemma Drained(cfg: Config, s: State)
    requires cfg.fileSize == SMALL_FILE && Stage(s, OneBuffer(PAGE_SIZE, 1, Some(0), []), 2, PAGE_SIZE) &&
        FirstBuffered(s)
    ensures var r := Step(s, cfg, ProcessingWaitQueue);
      Allocating(r, OneBuffer(PAGE_SIZE, 1, Some(0), [])) && FirstBuffered(r)
  {
    var t := WritePathRequests.DrainOne(s, cfg);
    var r := WritePathRequests.DrainOne(t, cfg);
    FirstDrained(cfg, s);
    SecondDrained(cfg, t);
    WritePathRequests.DrainUnfolds(s, cfg);
    WritePathRequests.DrainUnfolds(t, cfg);
    WritePathRequests.DrainUnfolds(r, cfg);
    hide Drain, WritePathRequests.DrainOne;
  }

  lemma Flushed(cfg: Config, s: State)
    requires Allocating(s, OneBuffer(PAGE_SIZE, 1, Some(0), [])) && FirstBuffered(s)
    ensures var r := Step(s, cfg, Flushing);
      Allocating(r, OneBuffer(PAGE_SIZE, 1, None, [0])) && FirstBuffered(r)
  {
  }

  const OWN: File := File(2, 2, false, SMALL_FILE, true)
  const OWN_WRITE: Io := BufferIo(0, 2, 1, Span(2, 1, 1))

  /** The buffer is being written to a file of its own, behind the one that is being allocated. */
  ghost predicate Submitted(s: State) {
    && WellFormed(s) && s.m == OneBuffer(PAGE_SIZE, 1, None, [])
    && s.files == [FULL, UNOPENED, OWN] && s.nextFileId == 3 && s.allocating == Some(1)
    && |s.ios| == 2 && s.ios[1] == OWN_WRITE && s.index == map[] && s.answers == []
  }

  lemma FullFirst()
    ensures FileAt([FULL, UNOPENED], 0) == Some(0)
  {
    FirstFile(FULL);
    assert [FULL, UNOPENED][..1] == [FULL];
  }

  lemma BufferSubmitted(cfg: Config, s: State)
    requires cfg.fileSize == SMALL_FILE && Allocating(s, OneBuffer(PAGE_SIZE, 1, None, [0])) && FirstBuffered(s)
    ensures var r := Step(s, cfg, SubmittingPending([true])); Submitted(r) && FirstBuffered(r)
  {
    var t := s.(m := OneBuffer(PAGE_SIZE, 1, None, []));
    OneSubmitted(cfg, s);
    OwnFileNeeded(cfg, t);
    OwnWrite(t);
    hide Step, SubmitBuffer, OneBuffer, AddFile, LaunchBuffer;
  }

  lemma OwnWrite(t: State)
    requires WellFormed(t) && t.m == OneBuffer(PAGE_SIZE, 1, None, [])
    requires t.files == [FULL, UNOPENED] && t.nextFileId == 2 && t.nextBlob == 2
    ensures LaunchBuffer(AddFile(t, true).(activeId := 2), 0, 2) ==
      t.(files := [FULL, UNOPENED, OWN], nextFileId := 3, nextBlob := 3, activeId := 2, ios := t.ios + [OWN_WRITE],
         foreground := t.foreground + 1)
  {
    OnePageUsed();
    hide OneBuffer;
    var s1 := AddFile(t, true).(activeId := 2);
    assert s1.files == [FULL, UNOPENED, OWN.(end := PAGE_SIZE)];
    assert s1.files[2 := OWN] == [FULL, UNOPENED, OWN];
  }

  lemma OnePageUsed()
    ensures OneBuffer(PAGE_SIZE, 1, None, []).buffers[0].used == PAGE_SIZE
  {
  }

  /** The active file is full, and sealed already. */
  lemma OwnFileNeeded(cfg: Config, t: State)
    requires cfg.fileSize == SMALL_FILE && WellFormed(t) && t.m == OneBuffer(PAGE_SIZE, 1, None, [])
    requires t.files == [FULL, UNOPENED] && t.nextFileId == 2 && t.activeId == 0
    ensures SubmitBuffer(t, cfg, 0, true) == LaunchBuffer(AddFile(t, true).(activeId := 2), 0, 2)
  {
    FullFirst();
    assert [FULL, UNOPENED][0 := FULL] == [FULL, UNOPENED];
    assert SealActive(t) == t;
    hide LaunchBuffer, FileAt;
  }

  lemma OneSubmitted(cfg: Config, s: State)
    requires WellFormed(s) && s.m == OneBuffer(PAGE_SIZE, 1, None, [0])
    ensures var t := s.(m := OneBuffer(PAGE_SIZE, 1, None, []));
      WellFormed(t) && Step(s, cfg, SubmittingPending([true])) == SubmitBuffer(t, cfg, 0, true)
  {
    var (m1, batch) := TakePending(s.m, MAX_BATCH);
    assert batch == [0] && m1 == OneBuffer(PAGE_SIZE, 1, None, []);
    var t := s.(m := m1);
    hide SubmitBuffer;
    assert SubmitTo(t, cfg, batch, [true], 0) == t;
    assert SubmitTo(t, cfg, batch, [true], 1) == SubmitBuffer(t, cfg, 0, true);
  }

  /** The put is acknowledged and indexed in that file. */
  lemma WriteCompleted(cfg: Config, s: State)
    requires cfg.fileSize == SMALL_FILE && Submitted(s) && FirstBuffered(s)
    ensures Enabled(s, cfg, Completing(1, true, map[]))
    ensures var r := Step(s, cfg, Completing(1, true, map[]));
      && r.files == s.files && r.nextFileId == 3 && r.allocating == Some(1)
      && 1 in r.index && r.index[1].fileId == 2 && !r.index[1].deleted && r.answers == [Answer(0, Success)]
  {
    var d := Detach(s, cfg, 1, true, map[]);
    var l := LandingOf(OWN_WRITE, s.pend[0][0]);
    var ls := LandingsOf(s, OWN_WRITE);
    assert ls == [l];
    hide WriteTo;
    assert LandTo(d, ls, true, 0) == d;
    assert LandTo(d, ls, true, 1) == Land(d, l, true);
  }

  /** The failed allocation takes the file back, and the put cannot be read any more. */
  lemma FileTakenBack(cfg: Config, s: State, room: nat)
    requires WellFormed(s) && s.files == [FULL, UNOPENED, OWN] && s.nextFileId == 3 && s.allocating == Some(1)
    requires 1 in s.index && s.index[1].fileId == 2 && !s.index[1].deleted
    ensures Enabled(s, cfg, Allocated(false)) && Get(Step(s, cfg, Allocated(false)), 1, room) == ReadError
    ensures forall a :: a in s.answers ==> a in Step(s, cfg, Allocated(false)).answers
  {
    assert [FULL, UNOPENED, OWN][..2] == [FULL, UNOPENED];
    assert [FULL, UNOPENED][..1] == [FULL];
    assert [FULL][..0] == [];
    assert FileAt([FULL], 2) == None;
    assert FileAt([FULL, UNOPENED], 2) == None;
  }

  // ---------------------------------------------------------------------------------------------
  // The run
  // ---------------------------------------------------------------------------------------------

  lemma RunsOn(s: State, cfg: Config, e: Event, es: seq<Event>)
    requires WellFormed(s) && Enabled(s, cfg, e) && Runs(Step(s, cfg, e), cfg, es)
    ensures Runs(s, cfg, [e] + es) && After(s, cfg, [e] + es) == After(Step(s, cfg, e), cfg, es)
  {
    assert ([e] + es)[1..] == es;
  }

  lemma {:induction false} RunsBoth(s: State, cfg: Config, a: seq<Event>, b: seq<Event>)
    requires WellFormed(s) && Runs(s, cfg, a) && Runs(After(s, cfg, a), cfg, b)
    ensures Runs(s, cfg, a + b) && After(s, cfg, a + b) == After(After(s, cfg, a), cfg, b)
    decreases |a|
  {
    hide WellFormed, Step, Enabled;
    if a == [] {
      assert a + b == b;
    } else {
      RunsBoth(Step(s, cfg, a[0]), cfg, a[1..], b);
      assert (a + b)[1..] == a[1..] + b;
    }
  }

  /** The last four events, from where the file is being allocated. */
  const LAST_EVENTS: seq<Event> := [Flushing, SubmittingPending([true]), Completing(1, true, map[]), Allocated(false)]

  ghost predicate Lost(s: State, room: nat) {
    Answer(0, Success) in s.answers && Get(s, 1, room) == ReadError
  }

  lemma LostAtLast(cfg: Config, s: State, room: nat)
    requires cfg.fileSize == SMALL_FILE && Allocating(s, OneBuffer(PAGE_SIZE, 1, Some(0), [])) && FirstBuffered(s)
    ensures Runs(s, cfg, LAST_EVENTS) && Lost(After(s, cfg, LAST_EVENTS), room)
  {
    hide Step, Submitted, Get, Runs, After, OneBuffer;
    Flushed(cfg, s);
    var s5 := Step(s, cfg, Flushing);
    BufferSubmitted(cfg, s5);
    var s6 := Step(s5, cfg, SubmittingPending([true]));
    SubmittedShape(s6);
    WriteCompleted(cfg, s6);
    var s7 := Step(s6, cfg, Completing(1, true, map[]));
    FileTakenBack(cfg, s7, room);
    var s8 := Step(s7, cfg, Allocated(false));
    NoEvents(s8, cfg);
    RunsOn(s7, cfg, Allocated(false), []);
    RunsOn(s6, cfg, Completing(1, true, map[]), [Allocated(false)] + []);
    RunsOn(s5, cfg, SubmittingPending([true]), [Completing(1, true, map[])] + ([Allocated(false)] + []));
    RunsOn(s, cfg, Flushing, [SubmittingPending([true])] + ([Completing(1, true, map[])] + ([Allocated(false)] + [])));
    assert LAST_EVENTS ==
      [Flushing] + ([SubmittingPending([true])] + ([Completing(1, true, map[])] + ([Allocated(false)] + [])));
  }

  lemma SubmittedShape(s: State)
    requires Submitted(s)
    ensures WellFormed(s) && s.files == [FULL, UNOPENED, OWN]
  {
  }

  lemma NoEvents(s: State, cfg: Config)
    requires WellFormed(s)
    ensures Runs(s, cfg, []) && After(s, cfg, []) == s
  {
  }

  lemma StartStage()
    ensures var s := Start(PAGE_SIZE, 1, 0);
      Stage(s, OneBuffer(0, 0, Some(0), []), 0, PAGE_SIZE) && s.requests == [] && s.pend == [[]]
  {
    StartManager();
    assert Start(PAGE_SIZE, 1, 0).pend == [[]];
  }

  /** The first half of that run: a queued record is in flight, and the other waits for a file. */
  const AWAITING_RUN: seq<Event> := [Puts(1), Puts(2), Puts(3), ProcessingWaitQueue]

  lemma FileIsAwaited(cfg: Config)
    requires cfg.fileSize == SMALL_FILE
    ensures var s := Start(PAGE_SIZE, 1, 0);
      && Runs(s, cfg, AWAITING_RUN)
      && var r := After(s, cfg, AWAITING_RUN);
        Allocating(r, OneBuffer(PAGE_SIZE, 1, Some(0), [])) && FirstBuffered(r)
  {
    hide Step, Runs, After, OneBuffer, FirstBuffered, Start, Allocating;
    var s0 := Start(PAGE_SIZE, 1, 0);
    StartStage();
    FirstPut(cfg, s0);
    var s1 := Step(s0, cfg, Puts(1));
    NextPut(cfg, s1, 2, 0);
    var s2 := Step(s1, cfg, Puts(2));
    NextPut(cfg, s2, 3, 1);
    var s3 := Step(s2, cfg, Puts(3));
    Drained(cfg, s3);
    var s4 := Step(s3, cfg, ProcessingWaitQueue);
    NoEvents(s4, cfg);
    RunsOn(s3, cfg, ProcessingWaitQueue, []);
    RunsOn(s2, cfg, Puts(3), [ProcessingWaitQueue] + []);
    RunsOn(s1, cfg, Puts(2), [Puts(3)] + ([ProcessingWaitQueue] + []));
    RunsOn(s0, cfg, Puts(1), [Puts(2)] + ([Puts(3)] + ([ProcessingWaitQueue] + [])));
    assert AWAITING_RUN == [Puts(1)] + ([Puts(2)] + ([Puts(3)] + ([ProcessingWaitQueue] + [])));
  }

  /** An acknowledged put can be lost: after this run from the start its key cannot be read. */
  lemma AcknowledgedPutIsLost(cfg: Config, room: nat)
    requires cfg.fileSize == SMALL_FILE
    ensures var s := Start(PAGE_SIZE, 1, 0);
      && Runs(s, cfg, LOSING_RUN)
      && Answer(0, Success) in After(s, cfg, LOSING_RUN).answers && Get(After(s, cfg, LOSING_RUN), 1, room) == ReadError
  {
    hide Step, Get, Runs, After, OneBuffer, FirstBuffered, Start, Allocating;
    var s := Start(PAGE_SIZE, 1, 0);
    FileIsAwaited(cfg);
    LostAtLast(cfg, After(s, cfg, AWAITING_RUN), room);
    RunsBoth(s, cfg, AWAITING_RUN, LAST_EVENTS);
    assert LOSING_RUN == AWAITING_RUN + LAST_EVENTS;
  }
}
