/** What a completion leaves, and what the answers to requests mean: which event gives which status, and to whom. */
module WritePathAnswers {
  import opened Types
  import opened Bytes
  import EntryFormat
  import opened BufferRules
  import BufferRuns
  import opened WritePath
  import opened WritePathInvariant
  import opened WritePathRuns
  import opened WritePathRequests

  /** Success and an IO error come from a completion, as it went; no space from a batch or an allocation that failed;
      an internal error from an allocation that ended well. A put, a flush and the drain of the wait queue answer
      nothing. */
  predicate Explains(e: Event, status: Status) {
    match status
    case Success => e.Completing? && e.ok
    case IoError => e.Completing? && !e.ok
    case NoSpace => e.SubmittingPending? || (e.Allocated? && !e.ok)
    case InternalError => e.Allocated? && e.ok
  }

  /** r has all answers of s, and after them only such as the event explains. */
  ghost predicate Answered(s: State, r: State, e: Event) {
    && |s.answers| <= |r.answers| && r.answers[..|s.answers|] == s.answers
    && forall k :: |s.answers| <= k < |r.answers| ==> Explains(e, r.answers[k].status)
  }

  lemma SameAnswers(s: State, r: State, e: Event)
    requires r.answers == s.answers
    ensures Answered(s, r, e)
  {
  }

  lemma MoreAnswers(s: State, s': State, r: State, e: Event, more: seq<Answer>)
    requires Answered(s, s', e) && r.answers == s'.answers + more
    requires forall k :: 0 <= k < |more| ==> Explains(e, more[k].status)
    ensures Answered(s, r, e)
  {
  }

  // ---------------------------------------------------------------------------------------------
  // A batch
  // ---------------------------------------------------------------------------------------------

  /** A buffer is answered only if a file it needs cannot be had, and then every request in it. */
  lemma SubmitBufferAnswers(s: State, cfg: Config, b: nat, alloc: bool)
    requires WellFormed(s) && b < |s.m.buffers|
    ensures var r := SubmitBuffer(s, cfg, b, alloc);
      r.answers == s.answers +
        if s.m.buffers[b].used > 0 && NeedsFile(s, cfg, s.m.buffers[b].used) && !alloc
        then seq(|s.pend[b]|, i requires 0 <= i < |s.pend[b]| => Answer(s.pend[b][i].id, NoSpace)) else []
  {
    hide NeedsFile, FileAt, ReturnBuffer;
    SealFrame(s);
  }

  lemma ListsMatch(s: State, b: nat)
    requires WellFormed(s) && b < |s.m.buffers|
    ensures b < |s.pend|
  {
  }

  lemma {:induction false} SubmitToAnswers(s: State, cfg: Config, batch: seq<nat>, allocs: seq<bool>, n: nat, e: Event)
    requires WellFormed(s) && n <= |batch| && e.SubmittingPending?
    requires forall i :: 0 <= i < |batch| ==> batch[i] < |s.m.buffers|
    ensures Answered(s, SubmitTo(s, cfg, batch, allocs, n), e)
    decreases n
  {
    hide SubmitBuffer, WellFormed, Answered, NeedsFile;
    if n == 0 {
      SameAnswers(s, s, e);
    } else {
      SubmitToAnswers(s, cfg, batch, allocs, n - 1, e);
      var s', b, alloc := SubmitTo(s, cfg, batch, allocs, n - 1), batch[n - 1], n <= |allocs| && allocs[n - 1];
      SubmitBufferAnswers(s', cfg, b, alloc);
      ListsMatch(s', b);
      var failed := seq(|s'.pend[b]|, i requires 0 <= i < |s'.pend[b]| => Answer(s'.pend[b][i].id, NoSpace));
      var more := if s'.m.buffers[b].used > 0 && NeedsFile(s', cfg, s'.m.buffers[b].used) && !alloc then failed else [];
      MoreAnswers(s, s', SubmitBuffer(s', cfg, b, alloc), e, more);
    }
  }

  // ---------------------------------------------------------------------------------------------
  // A completion
  // ---------------------------------------------------------------------------------------------

  lemma {:induction false} LandToAnswers(s: State, ls: seq<Landing>, ok: bool, n: nat)
    requires WellFormed(s) && n <= |ls|
    ensures LandTo(s, ls, ok, n).answers
         == s.answers + seq(n, i requires 0 <= i < n => Answer(ls[i].id, if ok then Success else IoError))
    decreases n
  {
    hide WellFormed;
    var status := if ok then Success else IoError;
    if n > 0 {
      LandToAnswers(s, ls, ok, n - 1);
      var front := seq(n - 1, i requires 0 <= i < n - 1 => Answer(ls[i].id, status));
      assert front + [Answer(ls[n - 1].id, status)] == seq(n, i requires 0 <= i < n => Answer(ls[i].id, status));
    }
  }

  /** The requests of a write: the one it was made for, or all in its buffer, in their order. */
  function RequestsOf(s: State, io: Io): seq<nat>
    requires io.BufferIo? ==> io.buffer < |s.pend|
  {
    if io.DirectIo? then [io.id] else PendingIds(s.pend[io.buffer])
  }

  /** A completion answers every request of its write, each with the same status, whether or not it changes the index:
      also a put that a newer one has overtaken succeeds. */
  lemma CompletionAnswers(s: State, cfg: Config, i: nat, ok: bool, junk: Disk)
    requires WellFormed(s) && Enabled(s, cfg, Completing(i, ok, junk))
    ensures var ids := RequestsOf(s, s.ios[i]);
      Step(s, cfg, Completing(i, ok, junk)).answers
        == s.answers + seq(|ids|, k requires 0 <= k < |ids| => Answer(ids[k], if ok then Success else IoError))
  {
    hide WriteTo, Scribble, CanSucceed, ReturnBuffer, LandTo;
    var ls, ids := LandingsOf(s, s.ios[i]), RequestsOf(s, s.ios[i]);
    LandToAnswers(Detach(s, cfg, i, ok, junk), ls, ok, |ls|);
    assert |ids| == |ls| && forall k :: 0 <= k < |ls| ==> ls[k].id == ids[k];
    var status := if ok then Success else IoError;
    assert seq(|ids|, k requires 0 <= k < |ids| => Answer(ids[k], status))
        == seq(|ls|, k requires 0 <= k < |ls| => Answer(ls[k].id, status));
  }

  /** Page k of the data of a write. */
  function DataPage(s: State, io: Io, k: int): seq<Byte>
    requires io.BufferIo? ==> io.buffer < |s.contents|
  {
    var data := DataOf(s, io);
    if 0 <= k && (k + 1) * 4096 <= |data| then data[k * 4096..(k + 1) * 4096] else []
  }

  /** A write that fails may leave anything on the pages it was for, and nothing elsewhere; one that succeeds leaves its
      data there. */
  lemma CompletionWrites(s: State, cfg: Config, i: nat, ok: bool, junk: Disk, p: (nat, nat))
    requires WellFormed(s) && Enabled(s, cfg, Completing(i, ok, junk))
    ensures var r := Step(s, cfg, Completing(i, ok, junk)); var at := s.ios[i].span;
      var inside := p.0 == at.blob && at.first <= p.1 < at.first + at.pages;
      && (!ok && inside && p in junk ==> p in r.disk && r.disk[p] == junk[p])
      && (ok && inside ==> p in r.disk && r.disk[p] == DataPage(s, s.ios[i], p.1 - at.first))
      && (!inside ==> (p in r.disk <==> p in s.disk) && (p in s.disk ==> r.disk[p] == s.disk[p]))
  {
    hide ReturnBuffer, LandTo;
    var ls := LandingsOf(s, s.ios[i]);
    LandToKeepsDisk(Detach(s, cfg, i, ok, junk), ls, ok, |ls|);
    if ok {
      var at, data := s.ios[i].span, DataOf(s, s.ios[i]);
      WrittenPage(s.disk, at, data, at.pages, p);
      hide WriteTo;
    }
  }

  lemma {:induction false} WrittenPage(disk: Disk, at: Span, data: seq<Byte>, n: nat, p: (nat, nat))
    requires n * PAGE_SIZE <= |data|
    ensures var r := WriteTo(disk, at, data, n);
      if p.0 == at.blob && at.first <= p.1 < at.first + n
      then p in r && (p.1 - at.first + 1) * PAGE_SIZE <= |data| && r[p] == Page(data, p.1 - at.first)
      else (p in r <==> p in disk) && (p in disk ==> r[p] == disk[p])
    decreases n
  {
    if n > 0 {
      WrittenPage(disk, at, data, n - 1, p);
    }
  }

  lemma {:induction false} LandToKeepsDisk(s: State, ls: seq<Landing>, ok: bool, n: nat)
    requires WellFormed(s) && n <= |ls|
    ensures LandTo(s, ls, ok, n).disk == s.disk
    decreases n
  {
    hide WellFormed;
    if n > 0 {
      LandToKeepsDisk(s, ls, ok, n - 1);
    }
  }

  // ---------------------------------------------------------------------------------------------
  // The end of an allocation
  // ---------------------------------------------------------------------------------------------

  lemma {:induction false} LaunchToAnswers(s: State, qs: seq<Queued>, i: nat, n: nat)
    requires WellFormed(s) && i < |s.files| && n <= |qs|
    ensures var r := LaunchTo(s, qs, i, n); r.answers == s.answers && r.pendQ == s.pendQ && |r.ios| == |s.ios| + n
    decreases n
  {
    hide WellFormed;
    if n > 0 {
      LaunchToAnswers(s, qs, i, n - 1);
    }
  }

  function IdsWith(qs: seq<Queued>, status: Status): (r: seq<Answer>)
    ensures |r| == |qs|
  {
    seq(|qs|, i requires 0 <= i < |qs| => Answer(qs[i].id, status))
  }

  /** No request waits for a file any longer: after a failure each is answered, and otherwise each is being written or,
      if the file that becomes active is not open, answered. */
  lemma AllocationAnswers(s: State, cfg: Config, ok: bool)
    requires WellFormed(s) && Enabled(s, cfg, Allocated(ok))
    ensures var r := Step(s, cfg, Allocated(ok));
      && r.pendQ == [] && r.allocating == None
      && (!ok ==> r.answers == s.answers + IdsWith(s.pendQ, NoSpace) && r.ios == s.ios)
      && (ok ==>
           || (r.answers == s.answers && |r.ios| == |s.ios| + |s.pendQ|)
           || (r.answers == s.answers + IdsWith(s.pendQ, InternalError) && r.ios == s.ios))
  {
    hide FileAt, LaunchTo;
    if ok {
      var at := s.allocating.value;
      var s1 := s.(allocating := None, files := s.files[at := s.files[at].(isOpen := true)],
                   activeId := s.files[|s.files| - 1].id);
      var a := FileAt(s1.files, s1.activeId);
      if a.Some? && s1.files[a.value].isOpen {
        LaunchToAnswers(s1.(pendQ := []), s1.pendQ, a.value, |s1.pendQ|);
        LaunchToKeepsAllocating(s1.(pendQ := []), s1.pendQ, a.value, |s1.pendQ|);
      }
    }
  }

  lemma {:induction false} LaunchToKeepsAllocating(s: State, qs: seq<Queued>, i: nat, n: nat)
    requires WellFormed(s) && i < |s.files| && n <= |qs|
    ensures LaunchTo(s, qs, i, n).allocating == s.allocating
    decreases n
  {
    hide WellFormed;
    if n > 0 {
      LaunchToKeepsAllocating(s, qs, i, n - 1);
    }
  }

  // ---------------------------------------------------------------------------------------------
  // Every event, and every run
  // ---------------------------------------------------------------------------------------------

  lemma PutAnswersNothing(s: State, cfg: Config, key: Key, value: seq<Byte>, memory: bool, dma: bool)
    requires WellFormed(s)
    ensures PutBuffered(s, cfg, key, value, memory, dma).answers == s.answers
  {
    hide EntryFormat.Build, EntryFormat.Size, Overwrite, BufferRuns.ReserveWithBackpressure;
    if value != [] {
      ReserveShape(s.m, EntryFormat.SizeFor(|value|), memory);
    }
  }

  lemma {:induction false} DrainAnswersNothing(s: State, cfg: Config)
    requires WellFormed(s)
    ensures Drain(s, cfg).answers == s.answers
    decreases |s.waitQ|
  {
    DrainUnfolds(s, cfg);
    hide Drain, FileAt;
    if s.waitQ != [] {
      SealFrame(s.(waitQ := s.waitQ[1..], pendQ := s.pendQ + [s.waitQ[0]]));
      DrainAnswersNothing(DrainOne(s, cfg), cfg);
    }
  }

  lemma StepAnswers(s: State, cfg: Config, e: Event)
    requires WellFormed(s) && Enabled(s, cfg, e)
    ensures Answered(s, Step(s, cfg, e), e)
  {
    hide PutBuffered, SubmitTo, Complete, Drain, AllocationDone, AllocationFailed;
    match e
    case Putting(key, value, memory, dma) => PutAnswersNothing(s, cfg, key, value, memory, dma);
    case Flushing =>
    case SubmittingPending(allocs) =>
      var (m1, batch) := TakePending(s.m, MAX_BATCH);
      SubmitToAnswers(s.(m := m1), cfg, batch, allocs, |batch|, e);
    case Completing(i, ok, junk) => CompletionAnswers(s, cfg, i, ok, junk);
    case ProcessingWaitQueue => DrainAnswersNothing(s, cfg);
    case Allocated(ok) => AllocationAnswers(s, cfg, ok);
  }

  /** Every answer given in a run is explained by an event of it. */
  lemma {:induction false} RunAnswers(s: State, cfg: Config, es: seq<Event>, k: nat)
    requires WellFormed(s) && Runs(s, cfg, es)
    requires |s.answers| <= k < |After(s, cfg, es).answers|
    ensures exists j :: 0 <= j < |es| && Explains(es[j], After(s, cfg, es).answers[k].status)
    decreases |es|
  {
    if es != [] {
      StepAnswers(s, cfg, es[0]);
      var r := Step(s, cfg, es[0]);
      hide Step, WellFormed, Enabled, Explains;
      if k < |r.answers| {
        AnswersStay(r, cfg, es[1..], k);
        assert Explains(es[0], r.answers[k].status);
      } else {
        RunAnswers(r, cfg, es[1..], k);
        var j :| 0 <= j < |es[1..]| && Explains(es[1..][j], After(r, cfg, es[1..]).answers[k].status);
        assert es[j + 1] == es[1..][j];
      }
    }
  }

  /** An answer once given is never taken back or changed. */
  lemma {:induction false} AnswersStay(s: State, cfg: Config, es: seq<Event>, k: nat)
    requires WellFormed(s) && Runs(s, cfg, es) && k < |s.answers|
    ensures k < |After(s, cfg, es).answers| && After(s, cfg, es).answers[k] == s.answers[k]
    decreases |es|
  {
    if es != [] {
      StepAnswers(s, cfg, es[0]);
      var r := Step(s, cfg, es[0]);
      hide Step, WellFormed, Enabled;
      assert r.answers[..|s.answers|][k] == s.answers[k];
      AnswersStay(r, cfg, es[1..], k);
    }
  }
}
