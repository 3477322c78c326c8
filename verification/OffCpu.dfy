/** The off-CPU collector: src/platform/linux/off_cpu.rs, lines 183-356. */
module OffCpu {
  import opened Machine
  import opened Sums
  import opened CappedGroupBy
  import opened ProfileTypes
  import opened Subsequences
  import opened OffCpuEvents
  import opened OffCpuIntervals

  datatype PendingInterval = PendingInterval(pid: u32, started: u64, stack: seq<u64>)
  datatype KernelStats = KernelStats(ringbufDrops: u64, stackFailures: u64)

  /** What a window reports beside its samples. */
  datatype Diagnostics = Diagnostics(
    switchOutEvents: nat, completedIntervals: nat, incompleteIntervals: nat, nanoseconds: nat,
    aggregationDroppedEvents: nat, ringBufferDrops: nat)

  /** How many events did what: switched a thread out, were too short to be read, completed an
      interval, or left one incomplete. */
  datatype Counts = Counts(switchOuts: nat, malformed: nat, completed: nat, incomplete: nat)

  function AddCounts(a: Counts, b: Counts): Counts {
    Counts(a.switchOuts + b.switchOuts, a.malformed + b.malformed, a.completed + b.completed, a.incomplete + b.incomplete)
  }

  lemma AddAssociates(a: Counts, b: Counts, c: Counts)
    ensures AddCounts(a, AddCounts(b, c)) == AddCounts(AddCounts(a, b), c)
  {
  }

  lemma AddNothing(a: Counts)
    ensures AddCounts(a, Counts(0, 0, 0, 0)) == a
  {
  }

  /** What one event counts as, with these intervals running. */
  function CountOf(log: Log, e: Event): Counts {
    match e
    case Malformed => Counts(0, 1, 0, 1)
    case SwitchOut(_, tid, _, frames) => Counts(1, 0, 0, if frames == [] || tid in log.serial then 1 else 0)
    case SwitchIn(tid, _) => Counts(0, 0, if tid in log.serial then 1 else 0, 0)
    case Unknown => Counts(0, 0, 0, 0)
  }

  /** A window as it was reported: its diagnostics, the records too short to be read, the stacks the
      kernel failed to read, and the intervals still running at its end. */
  datatype Report = Report(d: Diagnostics, malformed: nat, stackFailures: nat, pending: nat)

  function PendingAfter(reports: seq<Report>): nat {
    if reports == [] then 0 else reports[|reports| - 1].pending
  }

  /** Every switch-out, or record too short to be one, and every interval running before was
      completed, reported as incomplete, or is still running; but a stack the kernel failed to read is
      reported once more. */
  predicate WindowBalances(before: nat, r: Report) {
    before + r.d.switchOutEvents + r.malformed + r.stackFailures
    == r.d.completedIntervals + r.d.incompleteIntervals + r.pending
  }

  predicate EachBalances(reports: seq<Report>) {
    forall k :: 0 <= k < |reports| ==> WindowBalances(PendingAfter(reports[..k]), reports[k])
  }

  /** The reported counters of several windows, summed. */
  function TotalsOf(reports: seq<Report>): Counts {
    if reports == [] then Counts(0, 0, 0, 0)
    else
      var r := reports[|reports| - 1];
      AddCounts(TotalsOf(reports[..|reports| - 1]),
                Counts(r.d.switchOutEvents, r.malformed, r.d.completedIntervals, r.d.incompleteIntervals))
  }

  function StackFailures(reports: seq<Report>): nat {
    if reports == [] then 0 else StackFailures(reports[..|reports| - 1]) + reports[|reports| - 1].stackFailures
  }

  /** The counters of the open window, the windows reported, and the kernel's counters at the last report. */
  datatype Books = Books(tally: Counts, reports: seq<Report>, stats: KernelStats)

  function Continue(v: Books, more: Counts): Books {
    v.(tally := AddCounts(v.tally, more))
  }

  /** The open window is reported: its own counters and how far the kernel's moved, with the stacks
      the kernel failed to read among the incomplete intervals; and the next window starts at zero. */
  predicate Closes(v: Books, w: Books, d: Diagnostics, stats: KernelStats, userspaceDrops: nat, pending: nat) {
    var failures := SaturatingSub(stats.stackFailures, v.stats.stackFailures);
    && d.switchOutEvents == v.tally.switchOuts
    && d.completedIntervals == v.tally.completed
    && d.incompleteIntervals == v.tally.incomplete + failures
    && d.ringBufferDrops == SaturatingSub(stats.ringbufDrops, v.stats.ringbufDrops) + userspaceDrops
    && w == Books(Counts(0, 0, 0, 0), v.reports + [Report(d, v.tally.malformed, failures, pending)], stats)
  }

  lemma TotalsPush(reports: seq<Report>, r: Report)
    ensures TotalsOf(reports + [r]) == AddCounts(
              TotalsOf(reports), Counts(r.d.switchOutEvents, r.malformed, r.d.completedIntervals, r.d.incompleteIntervals))
    ensures StackFailures(reports + [r]) == StackFailures(reports) + r.stackFailures
  {
    assert (reports + [r])[..|reports|] == reports;
  }

  lemma {:induction false} ReportsBalance(reports: seq<Report>, j: nat, k: nat)
    requires j <= k <= |reports| && EachBalances(reports)
    ensures var all := TotalsOf(reports[j..k]);
            PendingAfter(reports[..j]) + all.switchOuts + all.malformed + StackFailures(reports[j..k])
            == all.completed + all.incomplete + PendingAfter(reports[..k])
    decreases k
  {
    if j < k {
      ReportsBalance(reports, j, k - 1);
      var r := reports[k - 1];
      assert reports[j..k] == reports[j..k - 1] + [r];
      TotalsPush(reports[j..k - 1], r);
      assert WindowBalances(PendingAfter(reports[..k - 1]), r) && PendingAfter(reports[..k]) == r.pending;
    } else {
      assert reports[j..k] == [] && TotalsOf([]) == Counts(0, 0, 0, 0) && StackFailures([]) == 0;
    }
    hide *;
  }

  lemma CappedClamped<K>(rs: seq<Record<K>>, cap: nat, k: K)
    requires k in Capped(rs, cap)
    ensures Capped(rs, cap)[k].first <= I64_MAX && Capped(rs, cap)[k].second <= I64_MAX
  {
  }

  /** The pending intervals a history asks for. */
  ghost function PendingOf(log: Log): map<u32, PendingInterval>
    requires LogValid(log)
  {
    map t | t in log.serial ::
      var i := log.intervals[log.serial[t]]; PendingInterval(i.pid, i.Last(), i.stack)
  }

  class OffCpuCollector {
    const maxStacks: nat
    const maxThreads: nat
    var trackedTids: map<u32, u32>
    var pending: map<u32, PendingInterval>
    var samples: map<AttributedStack, Pair>
    var previousStats: KernelStats
    var switchOutEvents: nat
    var completedIntervals: nat
    var incompleteIntervals: nat
    var aggregationDroppedEvents: nat

    /** The history of the run, where this window's part begins, the records of this window that were
        too short, and what earlier windows reported. */
    ghost var log: Log
    ghost var windowStart: nat
    ghost var malformed: nat
    ghost var reports: seq<Report>

    /** The counters of this window. */
    ghost function Tally(): Counts
      reads this`switchOutEvents, this`completedIntervals, this`incompleteIntervals, this`malformed
    {
      Counts(switchOutEvents, malformed, completedIntervals, incompleteIntervals)
    }

    /** Contributions of this window. */
    ghost function Window(): seq<Record<AttributedStack>>
      requires windowStart <= |log.handed|
      reads this`windowStart, this`log
    {
      Records(log.handed[windowStart..])
    }

    ghost predicate Aggregated()
      reads this`samples, this`completedIntervals, this`aggregationDroppedEvents, this`log, this`windowStart
    {
      && windowStart <= |log.handed|
      && samples == Capped(Window(), maxStacks)
      && aggregationDroppedEvents == |Dropped(Window(), maxStacks)|
      && Sum(Window()).first == completedIntervals
    }

    /** Nothing is lost: every switch-out, or record too short to be one, ended in an interval that
        was completed, counted incomplete or is one of those still running. */
    ghost predicate Balanced(running: nat)
      reads this`switchOutEvents, this`completedIntervals, this`incompleteIntervals, this`malformed, this`reports
    {
      && PendingAfter(reports) + switchOutEvents + malformed == completedIntervals + incompleteIntervals + running
      && EachBalances(reports)
    }

    ghost predicate Valid()
      reads this`pending, this`samples, this`switchOutEvents, this`completedIntervals, this`incompleteIntervals,
            this`aggregationDroppedEvents, this`log, this`windowStart, this`malformed, this`reports
    {
      LogValid(log) && pending == PendingOf(log) && Aggregated() && Balanced(|pending|)
    }

    constructor (maxStacks: nat, maxThreads: nat, trackedTids: map<u32, u32>, stats: KernelStats)
      ensures Valid() && log == EMPTY_LOG && Tally() == Counts(0, 0, 0, 0) && reports == []
      ensures this.maxStacks == maxStacks && this.maxThreads == maxThreads && this.trackedTids == trackedTids
      ensures previousStats == stats
    {
      this.maxStacks, this.maxThreads, this.trackedTids, previousStats := maxStacks, maxThreads, trackedTids, stats;
      pending, samples := map[], map[];
      switchOutEvents, completedIntervals, incompleteIntervals, aggregationDroppedEvents := 0, 0, 0, 0;
      log, windowStart, malformed, reports := EMPTY_LOG, 0, 0, [];
      new;
      Empty<AttributedStack>(maxStacks);
    }

    /** `aggregate`; the thread's name is what its `comm` file says at this moment. */
    method Aggregate(pid: u32, tid: u32, stack: seq<u64>, elapsed: u64, completed: bool, name: Option<string>,
                     ghost rs: seq<Record<AttributedStack>>)
      requires samples == Capped(rs, maxStacks) && aggregationDroppedEvents == |Dropped(rs, maxStacks)|
      modifies this`samples, this`aggregationDroppedEvents
      ensures var r := Record(AttributedStack(stack, pid, tid, name), if completed then 1 else 0, elapsed as nat);
              samples == Capped(rs + [r], maxStacks) && aggregationDroppedEvents == |Dropped(rs + [r], maxStacks)|
    {
      hide Capped, Dropped;
      var key := AttributedStack(stack, pid, tid, name);
      ghost var r := Record(key, if completed then 1 else 0, elapsed as nat);
      Step(rs, r, maxStacks);
      var full := |samples| >= maxStacks;
      var value: Pair;
      if key in samples {
        value := samples[key];
        CappedClamped(rs, maxStacks, key);
      } else if !full {
        value := Pair(0, 0);
      } else {
        aggregationDroppedEvents := aggregationDroppedEvents + 1;
        return;
      }
      if completed {
        value := Pair(SatI64(value.first + 1), value.second);
      }
      value := Pair(value.first, SatI64(value.second + SatI64(elapsed)));
      samples := samples[key := value];
    }

    /** Hands one piece of an interval to the table and records it. */
    method Bill(pid: u32, tid: u32, stack: seq<u64>, elapsed: u64, completed: bool, name: Option<string>,
                ghost next: Log)
      requires windowStart <= |log.handed| && samples == Capped(Window(), maxStacks)
      requires aggregationDroppedEvents == |Dropped(Window(), maxStacks)|
      requires Sum(Window()).first + (if completed then 1 else 0) == completedIntervals
      requires |next.handed| == |log.handed| + 1 && next.handed[..|log.handed|] == log.handed
      requires next.handed[|log.handed|].key == AttributedStack(stack, pid, tid, name)
      requires next.handed[|log.handed|].piece == Piece(elapsed, completed)
      modifies this`samples, this`aggregationDroppedEvents, this`log
      ensures log == next && Aggregated()
    {
      hide Capped, Dropped, Sum;
      ghost var before := Window();
      Aggregate(pid, tid, stack, elapsed, completed, name, before);
      ghost var r := Record(AttributedStack(stack, pid, tid, name), if completed then 1 else 0, elapsed as nat);
      assert next.handed[windowStart..] == log.handed[windowStart..] + [next.handed[|log.handed|]];
      log := next;
      assert Window() == before + [r];
      SumStep(before, r);
    }

    /** `apply`: an event does to the collector what it means for the history. */
    method Apply(bytes: seq<u8>, name: Option<string>)
      requires Valid()
      modifies this`pending, this`samples, this`switchOutEvents, this`completedIntervals, this`incompleteIntervals,
               this`aggregationDroppedEvents, this`log, this`malformed
      ensures Valid() && log == Advance(old(log), Decode(bytes), name)
      ensures Tally() == AddCounts(old(Tally()), CountOf(old(log), Decode(bytes)))
    {
      hide Decode, Capped, Dropped, PiecesFor, Pieces, LogValid, PendingOf, Begin, End, Drop, Records, Sum;
      PendingIs(log);
      var e := Decode(bytes);
      match e {
        case Malformed =>
          incompleteIntervals := incompleteIntervals + 1;
          malformed := malformed + 1;
        case SwitchOut(pid, tid, time, frames) =>
          switchOutEvents := switchOutEvents + 1;
          if frames == [] {
            incompleteIntervals := incompleteIntervals + 1;
            return;
          }
          Switched(pid, tid, time, frames);
        case SwitchIn(tid, time) =>
          Returned(tid, time, name);
        case Unknown =>
      }
    }

    /** A switch-in completes the interval its thread is in. */
    method Returned(tid: u32, time: u64, name: Option<string>)
      requires Valid()
      modifies this`pending, this`samples, this`completedIntervals, this`aggregationDroppedEvents, this`log
      ensures Valid()
      ensures log == if tid in old(log).serial then End(old(log), tid, time, name) else old(log)
      ensures completedIntervals == old(completedIntervals) + (if tid in old(pending) then 1 else 0)
    {
      hide Capped, Dropped, PiecesFor, Pieces, LogValid, PendingOf, Records, Sum;
      PendingIs(log);
      if tid in pending {
        var interval := pending[tid];
        EndFacts(log, tid, time, name);
        pending := pending - {tid};
        completedIntervals := completedIntervals + 1;
        Bill(interval.pid, tid, interval.stack, SaturatingSub(time, interval.started), true, name, End(log, tid, time, name));
      }
    }

    /** A switch-out with a stack opens an interval; one still open for the thread is given up. */
    method Switched(pid: u32, tid: u32, time: u64, frames: seq<u64>)
      requires LogValid(log) && pending == PendingOf(log) && Aggregated()
      requires Balanced(|pending| + 1)
      modifies this`pending, this`incompleteIntervals, this`log
      ensures Valid()
      ensures log == Begin(if tid in old(log).serial then Drop(old(log), tid) else old(log), pid, tid, frames, time)
      ensures incompleteIntervals == old(incompleteIntervals) + (if tid in old(pending) then 1 else 0)
    {
      hide Capped, Dropped, PiecesFor, Pieces, LogValid, PendingOf, Records, Sum, Begin, Drop;
      PendingIs(log);
      var replaced := tid in pending;
      if replaced {
        DropFacts(log, tid);
        log := Drop(log, tid);
      }
      BeginFacts(log, pid, tid, frames, time);
      log := Begin(log, pid, tid, frames, time);
      pending := pending[tid := PendingInterval(pid, time, frames)];
      if replaced {
        incompleteIntervals := incompleteIntervals + 1;
      }
    }

    ghost function Opened(): Open
      reads this`pending, this`log, this`incompleteIntervals
    {
      Open(pending, log, incompleteIntervals)
    }

    method GiveUp(tid: u32)
      requires Valid()
      modifies this`pending, this`incompleteIntervals, this`log
      ensures Valid() && GaveUp(old(Opened()), Opened(), {tid})
    {
      hide Capped, Dropped, PiecesFor, Pieces, LogValid, PendingOf, Records, Sum, Drop, GaveUp;
      PendingIs(log);
      OneGone(pending, log, tid, incompleteIntervals);
      if tid in pending {
        DropFacts(log, tid);
        log := Drop(log, tid);
        pending := pending - {tid};
        incompleteIntervals := incompleteIntervals + 1;
      }
    }

    /** The intervals of threads that are gone, in any order. */
    method GiveUpAll(gone: set<u32>)
      requires Valid()
      modifies this`pending, this`incompleteIntervals, this`log
      ensures Valid() && GaveUp(old(Opened()), Opened(), gone)
    {
      hide *;
      var remaining := gone;
      ghost var done: set<u32> := {};
      ghost var start := Opened();
      NoneGone(start);
      while remaining != {}
        invariant remaining <= gone && done == gone - remaining
        invariant Valid() && GaveUp(start, Opened(), done)
        decreases |remaining|
      {
        var tid :| tid in remaining;
        ghost var before := Opened();
        GiveUp(tid);
        MoreGone(start, before, Opened(), done, tid);
        remaining, done := remaining - {tid}, done + {tid};
      }
      assert done == gone;
    }

    /** `apply_threads`. The kernel accepts the updates of its thread table or not. */
    method ApplyThreads(current: map<u32, u32>, updated: bool) returns (ok: bool)
      requires Valid()
      modifies this`trackedTids, this`pending, this`incompleteIntervals, this`log
      ensures ok <==> |current| <= maxThreads && updated
      ensures !ok ==> unchanged(this)
      ensures ok ==>
        Valid() && trackedTids == current && GaveUp(old(Opened()), Opened(), old(trackedTids).Keys - current.Keys)
    {
      hide OffCpuCollector.Valid, GaveUp;
      if |current| > maxThreads || !updated {
        return false;
      }
      GiveUpAll(trackedTids.Keys - current.Keys);
      trackedTids := current;
      ok := true;
    }

    /** `drain`: the events received, in order. */
    method Drain(queue: seq<Received>)
      requires Valid()
      modifies this`pending, this`samples, this`switchOutEvents, this`completedIntervals, this`incompleteIntervals,
               this`aggregationDroppedEvents, this`log, this`malformed
      ensures Valid() && log == AdvanceAll(old(log), queue)
      ensures Tally() == AddCounts(old(Tally()), CountAll(old(log), queue))
    {
      hide LogValid, Advance, Decode, CountOf, AddCounts, OffCpuCollector.Aggregated, OffCpuCollector.Balanced;
      assert queue[0..] == queue;
      ghost var all := CountAll(old(log), queue);
      for i := 0 to |queue|
        invariant Valid() && AdvanceAll(log, queue[i..]) == AdvanceAll(old(log), queue)
        invariant AddCounts(Tally(), CountAll(log, queue[i..])) == AddCounts(old(Tally()), all)
      {
        assert queue[i..][0] == queue[i] && queue[i..][1..] == queue[i + 1..];
        ghost var tally, more := Tally(), CountOf(log, Decode(queue[i].bytes));
        Apply(queue[i].bytes, queue[i].name);
        AddAssociates(tally, more, CountAll(log, queue[i + 1..]));
      }
      AddNothing(Tally());
    }

    /** One pending interval handed on up to a boundary. */
    method CutOne(tid: u32, interval: PendingInterval, boundary: u64, name: Option<string>)
      requires LogValid(log) && Aggregated() && tid in log.serial && PendingOf(log)[tid] == interval
      modifies this`samples, this`aggregationDroppedEvents, this`log
      ensures LogValid(log) && Aggregated()
      ensures log.serial == old(log).serial && tid in old(log).serial && old(log).serial[tid] < |old(log).intervals|
      ensures log == Cut(old(log), tid, boundary, name)
    {
      hide Capped, Dropped, PiecesFor, Pieces, LogValid, PendingOf, Records, Sum;
      CutFacts(log, tid, boundary, name);
      Bill(interval.pid, tid, interval.stack, SaturatingSub(boundary, interval.started), false, name,
           Cut(log, tid, boundary, name));
    }

    /** Every interval that was pending is handed on up to the boundary, in any order. */
    method CutEach(cut: map<u32, PendingInterval>, boundary: u64, comms: (u32, u32) -> Option<string>)
      requires LogValid(log) && Aggregated() && cut == PendingOf(log) && cut.Keys == log.serial.Keys
      modifies this`samples, this`aggregationDroppedEvents, this`log
      ensures LogValid(log) && Aggregated() && CutAt(old(log), log, boundary, cut.Keys)
    {
      hide Capped, Dropped, PiecesFor, Pieces, LogValid, PendingOf, Records, Sum, CutAt, Cut, OffCpuCollector.Aggregated;
      ghost var start := log;
      var remaining := cut.Keys;
      ghost var done: set<u32> := {};
      CutNone(log, boundary);
      while remaining != {}
        invariant remaining <= cut.Keys && done == cut.Keys - remaining
        invariant LogValid(log) && Aggregated()
        invariant log.serial == start.serial && CutAt(start, log, boundary, done)
        decreases |remaining|
      {
        var t :| t in remaining;
        var interval := cut[t];
        CutMore(start, log, boundary, done, t, comms(interval.pid, t));
        PendingUncut(start, log, boundary, done, t);
        CutOne(t, interval, boundary, comms(interval.pid, t));
        remaining, done := remaining - {t}, done + {t};
      }
      assert done == cut.Keys;
    }

    /** Every pending interval is cut at the boundary and goes on from there, in any order. */
    method CutPending(boundary: u64, comms: (u32, u32) -> Option<string>)
      requires Valid()
      modifies this`pending, this`samples, this`aggregationDroppedEvents, this`log
      ensures Valid() && pending.Keys == old(pending).Keys && CutAt(old(log), log, boundary, old(pending).Keys)
    {
      hide Capped, Dropped, PiecesFor, Pieces, LogValid, PendingOf, Records, Sum, CutAt, OffCpuCollector.Balanced,
        OffCpuCollector.Aggregated;
      ghost var start := log;
      PendingIs(log);
      var cut := pending;
      pending := map t | t in cut :: cut[t].(started := boundary);
      assert |pending| == |cut| by {
        assert pending.Keys == cut.Keys && |pending| == |pending.Keys| && |cut| == |cut.Keys|;
      }
      assert pending == map t | t in PendingOf(start) :: PendingOf(start)[t].(started := boundary);
      CutEach(cut, boundary, comms);
      PendingCut(start, log, boundary);
    }

    /** What a window that ends here shows, given the kernel's counters. */
    ghost predicate Shows(rs: seq<Record<AttributedStack>>, shown: map<AttributedStack, Pair>, d: Diagnostics) {
      && shown == Capped(rs, maxStacks)
      && d.aggregationDroppedEvents == |Dropped(rs, maxStacks)|
      && d.nanoseconds == SatI64(Total(Seconds(shown)))
      && Sum(rs).first == d.completedIntervals
    }

    /** A stack and thread that a window shows stands there with the number of intervals completed and all
        the time handed on for it. */
    lemma ShownValues(handed: seq<Handed>, shown: map<AttributedStack, Pair>, d: Diagnostics, key: AttributedStack)
      requires Shows(Records(handed), shown, d)
      ensures key in shown ==> shown[key] == Pair(SatI64(Count(handed, key)), SatI64(Time(handed, key)))
    {
      SumIsCount(handed, key);
      hide SumOf, Kept, Dropped, Sum, Total;
    }

    /** The events shown and those dropped are the intervals completed, and the same holds of the time
        handed on, each unless it passes the `i64` ceiling. */
    lemma EventsAreCompletions(rs: seq<Record<AttributedStack>>, shown: map<AttributedStack, Pair>, d: Diagnostics)
      requires Shows(rs, shown, d)
      ensures d.completedIntervals <= I64_MAX
        ==> Total(Firsts(shown)) + Sum(Dropped(rs, maxStacks)).first == d.completedIntervals
      ensures Sum(rs).second <= I64_MAX
        ==> Total(Seconds(shown)) + Sum(Dropped(rs, maxStacks)).second == Sum(rs).second
    {
      Conservation(rs, maxStacks);
    }

    ghost function Kept(): Books
      reads this`switchOutEvents, this`completedIntervals, this`incompleteIntervals, this`malformed, this`reports,
            this`previousStats
    {
      Books(Tally(), reports, previousStats)
    }

    lemma Showing(d: Diagnostics)
      requires Valid()
      requires d.aggregationDroppedEvents == aggregationDroppedEvents && d.completedIntervals == completedIntervals
      requires d.nanoseconds == SatI64(Total(Seconds(samples)))
      ensures windowStart <= |log.handed| && Shows(Records(log.handed[windowStart..]), samples, d)
    {
      hide Capped, Dropped, Sum, LogValid, PendingOf, Total, Seconds, Records, EachBalances;
    }

    lemma Reporting(r: Report)
      requires Valid() && r.malformed == malformed && r.pending == |pending|
      requires r.d.switchOutEvents == switchOutEvents && r.d.completedIntervals == completedIntervals
      requires r.d.incompleteIntervals == incompleteIntervals + r.stackFailures
      ensures LogValid(log) && pending == PendingOf(log)
      ensures EachBalances(reports + [r]) && PendingAfter(reports + [r]) == |pending|
    {
      hide Capped, Dropped, Sum, LogValid, PendingOf, Records, EachBalances;
      ReportPush(reports, r);
    }

    lemma Emptied()
      requires LogValid(log) && pending == PendingOf(log)
      requires EachBalances(reports) && PendingAfter(reports) == |pending|
      requires samples == map[] && Tally() == Counts(0, 0, 0, 0) && aggregationDroppedEvents == 0
      requires windowStart == |log.handed|
      ensures Valid()
    {
      hide LogValid, PendingOf, EachBalances;
      assert log.handed[windowStart..] == [];
      EmptyWindow(maxStacks);
      hide Capped, Dropped, Sum, Records;
    }

    /** The window's samples and counters are taken out and the next window begins. */
    method TakeWindow(stats: KernelStats, userspaceDrops: nat) returns (shown: map<AttributedStack, Pair>, d: Diagnostics)
      requires Valid()
      modifies this`samples, this`switchOutEvents, this`completedIntervals, this`incompleteIntervals, this`malformed,
               this`aggregationDroppedEvents, this`previousStats, this`windowStart, this`reports
      ensures Valid() && windowStart == |log.handed|
      ensures old(windowStart) <= |log.handed| && Shows(Records(log.handed[old(windowStart)..]), shown, d)
      ensures Closes(old(Kept()), Kept(), d, stats, userspaceDrops, |pending|)
    {
      hide LogValid, PendingOf, EachBalances, Records, PendingAfter, Total, Seconds, OffCpuCollector.Valid,
        OffCpuCollector.Shows;
      var ringbufDrops := SaturatingSub(stats.ringbufDrops, previousStats.ringbufDrops) + userspaceDrops;
      var stackFailures := SaturatingSub(stats.stackFailures, previousStats.stackFailures);
      shown := samples;
      var nanoseconds := SaturatingTotal(shown);
      d := Diagnostics(switchOutEvents, completedIntervals, incompleteIntervals + stackFailures, nanoseconds,
                       aggregationDroppedEvents, ringbufDrops);
      ghost var report := Report(d, malformed, stackFailures, |pending|);
      Showing(d);
      Reporting(report);
      previousStats, samples := stats, map[];
      switchOutEvents, completedIntervals, incompleteIntervals, aggregationDroppedEvents := 0, 0, 0, 0;
      malformed, windowStart, reports := 0, |log.handed|, reports + [report];
      Emptied();
    }

    /** `snapshot_window`: nothing is reported when the kernel's counters cannot be read, and the window
        goes on. */
    method SnapshotWindow(queue: seq<Received>, boundary: u64, comms: (u32, u32) -> Option<string>,
                          stats: Option<KernelStats>, userspaceDrops: nat)
      returns (r: Option<(map<AttributedStack, Pair>, Diagnostics)>)
      requires Valid()
      modifies this
      ensures Valid() && (r.Some? <==> stats.Some?)
      ensures CutAt(AdvanceAll(old(log), queue), log, boundary, log.serial.Keys)
      ensures r.Some? ==>
        && old(windowStart) <= windowStart == |log.handed|
        && Shows(Records(log.handed[old(windowStart)..]), r.value.0, r.value.1)
      ensures var counted := Continue(old(Kept()), CountAll(old(log), queue));
              if r.None? then Kept() == counted
              else Closes(counted, Kept(), r.value.1, stats.value, userspaceDrops, |pending|)
    {
      hide LogValid, PendingOf, CutAt, CountAll, AddCounts, EachBalances, Records, Closes,
        OffCpuCollector.Shows, OffCpuCollector.Aggregated, OffCpuCollector.Balanced;
      PendingIs(log);
      Drain(queue);
      PendingIs(log);
      CutPending(boundary, comms);
      CutSerial(AdvanceAll(old(log), queue), log, boundary);
      if stats.None? {
        return None;
      }
      var shown, d := TakeWindow(stats.value, userspaceDrops);
      r := Some((shown, d));
    }
  }

  lemma ReportPush(reports: seq<Report>, r: Report)
    requires EachBalances(reports) && WindowBalances(PendingAfter(reports), r)
    ensures EachBalances(reports + [r])
  {
    assert (reports + [r])[..|reports|] == reports;
    forall k | 0 <= k < |reports|
      ensures (reports + [r])[..k] == reports[..k]
    {
    }
  }

  /** What a collector reports over any consecutive windows balances, intervals still running before
      and after included, exactly when the kernel failed to read no stack in them. */
  lemma DiagnosticsBalance(c: OffCpuCollector, j: nat, k: nat)
    requires c.Valid() && j <= k <= |c.reports|
    ensures var all := TotalsOf(c.reports[j..k]);
            PendingAfter(c.reports[..j]) + all.switchOuts + all.malformed
            == all.completed + all.incomplete + PendingAfter(c.reports[..k])
            <==> StackFailures(c.reports[j..k]) == 0
  {
    ReportsBalance(c.reports, j, k);
  }

  /** A switch-out whose stack the kernel failed to read carries a stack of length zero. */
  lemma FailedSwitchOutCounts(log: Log, pid: u32, tid: u32, time: u64, words: seq<u64>)
    requires LogValid(log) && |words| == MAX_FRAMES
    ensures CountAll(log, [Received(EncodeSwitchOut(pid, tid, 0, time, words), None)]) == Counts(1, 0, 0, 1)
  {
    var picks := SwitchOutRoundTrip(pid, tid, 0, time, words);
    SelectsSize(words[..0], IsFrame, picks);
    assert Pick(words[..0], picks) == [];
    hide LogValid, EncodeSwitchOut, Decode;
    var queue := [Received(EncodeSwitchOut(pid, tid, 0, time, words), None)];
    assert queue[1..] == [];
  }

  /** Any such switch-out is reported as two incomplete intervals. */
  method FailedStackCountsTwice(pid: u32, tid: u32, time: u64, words: seq<u64>, comms: (u32, u32) -> Option<string>)
    returns (d: Diagnostics)
    requires |words| == MAX_FRAMES
    ensures d.switchOutEvents == 1 && d.completedIntervals == 0 && d.incompleteIntervals == 2
  {
    hide LogValid, PendingOf, CutAt, CountAll, EachBalances, Records, AdvanceAll, EncodeSwitchOut, OffCpuCollector.Shows,
      OffCpuCollector.Aggregated, OffCpuCollector.Balanced;
    var collector := new OffCpuCollector(8, 8, map[], KernelStats(0, 0));
    FailedSwitchOutCounts(collector.log, pid, tid, time, words);
    var r := collector.SnapshotWindow(
      [Received(EncodeSwitchOut(pid, tid, 0, time, words), None)], 0, comms, Some(KernelStats(0, 1)), 0);
    d := r.value.1;
  }

  /** The order in which a map's values are added makes no difference, saturated or not. */
  method SaturatingTotal(samples: map<AttributedStack, Pair>) returns (r: nat)
    ensures r == SatI64(Total(Seconds(samples)))
  {
    r := 0;
    var remaining := samples;
    while remaining.Keys != {}
      invariant remaining.Keys <= samples.Keys
      invariant SatI64(r + Total(Seconds(remaining))) == SatI64(Total(Seconds(samples))) && r <= I64_MAX
      decreases |remaining|
    {
      var k :| k in remaining.Keys;
      Smaller(remaining, k);
      TotalRemove(Seconds(remaining), k);
      assert Seconds(remaining) - {k} == Seconds(remaining - {k});
      r := SatI64(r + remaining[k].second);
      remaining := remaining - {k};
    }
    TotalZero(Seconds(remaining));
  }

  lemma AdvanceValid(log: Log, e: Event, name: Option<string>)
    requires LogValid(log)
    ensures LogValid(Advance(log, e, name))
  {
    hide LogValid, Begin, End, Drop;
    match e
    case SwitchOut(pid, tid, time, frames) =>
      if frames != [] {
        if tid in log.serial {
          DropFacts(log, tid);
          BeginValid(Drop(log, tid), pid, tid, frames, time);
        } else {
          BeginValid(log, pid, tid, frames, time);
        }
      }
    case SwitchIn(tid, time) =>
      if tid in log.serial {
        EndValid(log, tid, time, name);
      }
    case _ =>
  }

  datatype Received = Received(bytes: seq<u8>, name: Option<string>)

  ghost function CountAll(log: Log, queue: seq<Received>): Counts
    requires LogValid(log)
    decreases |queue|
  {
    if queue == [] then Counts(0, 0, 0, 0)
    else
      var e := Decode(queue[0].bytes);
      AdvanceValid(log, e, queue[0].name);
      AddCounts(CountOf(log, e), CountAll(Advance(log, e, queue[0].name), queue[1..]))
  }

  ghost function AdvanceAll(log: Log, queue: seq<Received>): Log
    requires LogValid(log)
    decreases |queue|
  {
    if queue == [] then log
    else
      AdvanceValid(log, Decode(queue[0].bytes), queue[0].name);
      AdvanceAll(Advance(log, Decode(queue[0].bytes), queue[0].name), queue[1..])
  }

  /** Cutting every running interval at a boundary. */
  ghost predicate CutAt(before: Log, after: Log, boundary: u64, done: set<u32>)
  {
    && after.serial == before.serial && |after.intervals| == |before.intervals|
    && forall s :: 0 <= s < |before.intervals| ==>
      var i := before.intervals[s];
      after.intervals[s] == if i.outcome.Running? && i.tid in done then i.(cuts := i.cuts + [boundary]) else i
  }

  lemma CutMore(before: Log, log: Log, boundary: u64, done: set<u32>, tid: u32, name: Option<string>)
    requires LogValid(before) && LogValid(log) && CutAt(before, log, boundary, done)
    requires tid in before.serial && tid !in done
    ensures log.serial[tid] < |log.intervals| && CutAt(before, Cut(log, tid, boundary, name), boundary, done + {tid})
  {
    hide PiecesFor, Pieces;
  }

  lemma CutNone(log: Log, boundary: u64)
    ensures CutAt(log, log, boundary, {})
  {
  }

  lemma CutSerial(before: Log, after: Log, boundary: u64)
    requires CutAt(before, after, boundary, before.serial.Keys)
    ensures CutAt(before, after, boundary, after.serial.Keys)
  {
  }

  /** Intervals not cut yet are pending as before. */
  lemma PendingUncut(before: Log, log: Log, boundary: u64, done: set<u32>, tid: u32)
    requires LogValid(before) && LogValid(log) && CutAt(before, log, boundary, done)
    requires tid in before.serial && tid !in done
    ensures PendingOf(log)[tid] == PendingOf(before)[tid]
  {
    hide PiecesFor, Pieces;
  }

  /** Once all are cut, every interval is pending from the boundary on. */
  lemma PendingCut(before: Log, log: Log, boundary: u64)
    requires LogValid(before) && LogValid(log) && CutAt(before, log, boundary, before.serial.Keys)
    ensures PendingOf(log) == map t | t in PendingOf(before) :: PendingOf(before)[t].(started := boundary)
  {
    hide PiecesFor, Pieces;
  }

  lemma EmptyWindow(cap: nat)
    ensures Records([]) == [] && Capped<AttributedStack>([], cap) == map[] && Dropped<AttributedStack>([], cap) == []
    ensures Sum<AttributedStack>([]).first == 0
  {
    Empty<AttributedStack>(cap);
  }

  /** What giving intervals up touches. */
  datatype Open = Open(pending: map<u32, PendingInterval>, log: Log, incomplete: nat)

  /** The intervals of these threads are given up, each counted once, and nothing else changes. */
  ghost predicate GaveUp(v: Open, w: Open, gone: set<u32>) {
    && w.pending == v.pending - gone
    && w.incomplete == v.incomplete + |v.pending.Keys * gone|
    && w.log.serial == v.log.serial - gone && w.log.handed == v.log.handed
    && |w.log.intervals| == |v.log.intervals|
    && forall s :: 0 <= s < |v.log.intervals| ==>
      var i := v.log.intervals[s];
      w.log.intervals[s] == if i.outcome.Running? && i.tid in gone then i.(outcome := Abandoned) else i
  }

  lemma NoneGone(v: Open)
    ensures GaveUp(v, v, {})
  {
  }

  lemma OneGone(pending: map<u32, PendingInterval>, log: Log, tid: u32, incomplete: nat)
    requires LogValid(log) && pending == PendingOf(log)
    ensures tid in log.serial ==>
      log.serial[tid] < |log.intervals|
      && GaveUp(Open(pending, log, incomplete), Open(pending - {tid}, Drop(log, tid), incomplete + 1), {tid})
    ensures tid !in log.serial ==> GaveUp(Open(pending, log, incomplete), Open(pending, log, incomplete), {tid})
  {
    if tid in log.serial {
      ThisGone(pending, log, tid, incomplete);
    } else {
      NotGone(pending, log, tid, incomplete);
    }
  }

  lemma ThisGone(pending: map<u32, PendingInterval>, log: Log, tid: u32, incomplete: nat)
    requires LogValid(log) && pending == PendingOf(log) && tid in log.serial
    ensures log.serial[tid] < |log.intervals|
    ensures GaveUp(Open(pending, log, incomplete), Open(pending - {tid}, Drop(log, tid), incomplete + 1), {tid})
  {
    hide PiecesFor, Pieces;
    assert pending.Keys * {tid} == {tid};
  }

  lemma NotGone(pending: map<u32, PendingInterval>, log: Log, tid: u32, incomplete: nat)
    requires LogValid(log) && pending == PendingOf(log) && tid !in log.serial
    ensures GaveUp(Open(pending, log, incomplete), Open(pending, log, incomplete), {tid})
  {
    hide PiecesFor, Pieces;
    assert pending.Keys * {tid} == {};
  }

  lemma MoreKeys<V>(m: map<u32, V>, gone: set<u32>, tid: u32)
    requires tid !in gone
    ensures m - gone - {tid} == m - (gone + {tid})
    ensures |m.Keys * (gone + {tid})| == |m.Keys * gone| + |(m - gone).Keys * {tid}|
  {
    assert m.Keys * (gone + {tid}) == m.Keys * gone + (m - gone).Keys * {tid};
  }

  lemma MoreGone(a: Open, b: Open, c: Open, gone: set<u32>, tid: u32)
    requires GaveUp(a, b, gone) && GaveUp(b, c, {tid}) && tid !in gone
    ensures GaveUp(a, c, gone + {tid})
  {
    MoreKeys(a.pending, gone, tid);
    MoreKeys(a.log.serial, gone, tid);
  }

  /** What the collector handed on for a completed interval adds up to its time off the CPU, when
      the boundaries it was cut at went forward, and counts as one event. */
  lemma IntervalsKeepTime(c: OffCpuCollector, s: nat)
    requires c.Valid() && s < |c.log.intervals| && c.log.intervals[s].outcome.Completed?
    ensures Counted(PiecesFor(c.log.handed, s)) == 1
    ensures var i := c.log.intervals[s];
            && (Forward(i.origin, i.cuts) ==> Elapsed(PiecesFor(c.log.handed, s)) == Max(i.outcome.at, i.Last()) - i.origin)
            && (Elapsed(PiecesFor(c.log.handed, s)) == i.outcome.at - i.origin
                <==> Forward(i.origin, i.cuts) && i.Last() <= i.outcome.at)
  {
    var i := c.log.intervals[s];
    PiecesTotals(i);
    SplitIsExact(i);
    if Forward(i.origin, i.cuts) {
      SplitKeepsTime(i);
    }
  }

  lemma PendingIs(log: Log)
    requires LogValid(log)
    ensures PendingOf(log).Keys == log.serial.Keys
  {
  }

  lemma DropPending(log: Log, tid: u32)
    requires LogValid(log) && tid in log.serial
    ensures log.serial[tid] < |log.intervals| && LogValid(Drop(log, tid))
    ensures PendingOf(Drop(log, tid)) == PendingOf(log) - {tid}
  {
    hide PiecesFor, Pieces;
    DropValid(log, tid);
  }

  lemma DropFacts(log: Log, tid: u32)
    requires LogValid(log) && tid in log.serial
    ensures log.serial[tid] < |log.intervals| && LogValid(Drop(log, tid))
    ensures PendingOf(Drop(log, tid)) == PendingOf(log) - {tid} && Drop(log, tid).handed == log.handed
    ensures |PendingOf(Drop(log, tid))| == |PendingOf(log)| - 1 && Drop(log, tid).serial == log.serial - {tid}
  {
    hide PiecesFor, Pieces, LogValid;
    DropPending(log, tid);
    PendingIs(log);
    Smaller(PendingOf(log), tid);
  }

  lemma BeginFacts(log: Log, pid: u32, tid: u32, stack: seq<u64>, time: u64)
    requires LogValid(log) && tid !in log.serial
    ensures LogValid(Begin(log, pid, tid, stack, time)) && Begin(log, pid, tid, stack, time).handed == log.handed
    ensures PendingOf(Begin(log, pid, tid, stack, time)) == PendingOf(log)[tid := PendingInterval(pid, time, stack)]
    ensures |PendingOf(Begin(log, pid, tid, stack, time))| == |PendingOf(log)| + 1
  {
    hide LogValid, PendingOf;
    BeginPending(log, pid, tid, stack, time);
    PendingIs(log);
    var after := PendingOf(log)[tid := PendingInterval(pid, time, stack)];
    Smaller(after, tid);
    assert after - {tid} == PendingOf(log);
  }

  lemma BeginPending(log: Log, pid: u32, tid: u32, stack: seq<u64>, time: u64)
    requires LogValid(log) && tid !in log.serial
    ensures LogValid(Begin(log, pid, tid, stack, time))
    ensures PendingOf(Begin(log, pid, tid, stack, time)) == PendingOf(log)[tid := PendingInterval(pid, time, stack)]
  {
    BeginValid(log, pid, tid, stack, time);
    hide PiecesFor, Pieces;
  }

  lemma EndFacts(log: Log, tid: u32, time: u64, name: Option<string>)
    requires LogValid(log) && tid in log.serial
    ensures log.serial[tid] < |log.intervals| && LogValid(End(log, tid, time, name))
    ensures PendingOf(End(log, tid, time, name)) == PendingOf(log) - {tid}
    ensures |PendingOf(End(log, tid, time, name))| == |PendingOf(log)| - 1
    ensures var i := log.intervals[log.serial[tid]];
            && PendingOf(log)[tid] == PendingInterval(i.pid, i.Last(), i.stack) && i.tid == tid
  {
    hide PiecesFor, Pieces;
    EndValid(log, tid, time, name);
    Smaller(PendingOf(log), tid);
  }

  lemma CutFacts(log: Log, tid: u32, boundary: u64, name: Option<string>)
    requires LogValid(log) && tid in log.serial
    ensures log.serial[tid] < |log.intervals| && LogValid(Cut(log, tid, boundary, name))
    ensures var i := log.intervals[log.serial[tid]];
            && PendingOf(log)[tid] == PendingInterval(i.pid, i.Last(), i.stack) && i.tid == tid
            && PendingOf(Cut(log, tid, boundary, name)) == PendingOf(log)[tid := PendingInterval(i.pid, boundary, i.stack)]
  {
    hide PiecesFor, Pieces;
    CutValid(log, tid, boundary, name);
  }
}
