/** Importing a recording window by window: src/platform/linux/import.rs, lines 59-263. The locals of
    `run` are the fields here; `written` stands for the files of the windows published. */
module Import {
  import opened Machine
  import opened Sums
  import opened CappedGroupBy
  import opened ProfileTypes
  import opened ImportWindows
  import opened ImportHistory

  function WrittenIndices(written: seq<(nat, ImportWindow)>): set<nat> {
    set k | 0 <= k < |written| :: written[k].0
  }

  predicate Increasing(written: seq<(nat, ImportWindow)>) {
    forall j, k :: 0 <= j < k < |written| ==> written[j].0 < written[k].0
  }

  predicate Publishes(written: seq<(nat, ImportWindow)>, taken: seq<Accepted>, limits: Limits) {
    forall k :: 0 <= k < |written| ==> written[k].1 == WindowOf(OfIndex(taken, written[k].0), limits)
  }

  /** One window an index that any sample was taken for, in order, each with exactly the samples of
      its index. */
  predicate PublishesAll(written: seq<(nat, ImportWindow)>, taken: seq<Accepted>, limits: Limits) {
    Increasing(written) && WrittenIndices(written) == Indices(taken) && Publishes(written, taken, limits)
  }

  /** Every window, open or written, holds exactly the samples of its index. */
  ghost predicate HoldsAll(windows: map<nat, ImportWindow>, written: seq<(nat, ImportWindow)>, taken: seq<Accepted>,
                           flushedBefore: nat, limits: Limits)
  {
    && (forall i :: i in windows ==> flushedBefore <= i <= U64_MAX && windows[i] == WindowOf(OfIndex(taken, i), limits))
    && Increasing(written) && Publishes(written, taken, limits)
    && (forall i :: i in WrittenIndices(written) ==> i < flushedBefore)
    && windows.Keys + WrittenIndices(written) == Indices(taken)
  }

  /** The frontier lies behind a written window, and only a full set of windows lets go of one. */
  ghost predicate Frontier(windows: map<nat, ImportWindow>, written: seq<(nat, ImportWindow)>, flushedBefore: nat) {
    flushedBefore > 0 ==> flushedBefore - 1 in WrittenIndices(written) && |windows| >= MAX_PENDING_WINDOWS
  }

  lemma IndicesPush(xs: seq<Accepted>, a: Accepted)
    ensures Indices(xs + [a]) == Indices(xs) + {a.index}
  {
    forall i | i in Indices(xs) + {a.index}
      ensures i in Indices(xs + [a])
    {
      if i in Indices(xs) {
        var n :| 0 <= n < |xs| && xs[n].index == i;
        assert (xs + [a])[n].index == i;
      } else {
        assert (xs + [a])[|xs|].index == i;
      }
    }
  }

  lemma WrittenPush(written: seq<(nat, ImportWindow)>, w: (nat, ImportWindow))
    ensures WrittenIndices(written + [w]) == WrittenIndices(written) + {w.0}
  {
    forall i | i in WrittenIndices(written) + {w.0}
      ensures i in WrittenIndices(written + [w])
    {
      if i in WrittenIndices(written) {
        var n :| 0 <= n < |written| && written[n].0 == i;
        assert (written + [w])[n].0 == i;
      } else {
        assert (written + [w])[|written|].0 == i;
      }
    }
  }

  /** A sample is before the frontier exactly when it comes too late. */
  lemma FrontierIsTooLate(windows: map<nat, ImportWindow>, written: seq<(nat, ImportWindow)>, taken: seq<Accepted>,
                          flushedBefore: nat, limits: Limits, index: nat)
    requires HoldsAll(windows, written, taken, flushedBefore, limits) && Frontier(windows, written, flushedBefore)
    requires |windows| <= MAX_PENDING_WINDOWS
    ensures index < flushedBefore <==> TooLate(taken, index)
  {
    hide WindowOf, OfIndex, Publishes, WrittenIndices, Indices;
    var later := From(Indices(taken), index);
    assert |windows| == |windows.Keys|;
    if index < flushedBefore {
      var last := flushedBefore - 1;
      assert windows.Keys + {last} <= later;
      SubsetSize(windows.Keys + {last}, later);
    } else {
      SubsetSize(later, windows.Keys);
    }
  }

  lemma {:induction false} SubsetSize<T>(a: set<T>, b: set<T>)
    requires a <= b
    ensures |a| <= |b|
  {
    assert b == a + (b - a);
  }

  /** A sample of an index that is not written leaves the written windows as they should be. */
  lemma PublishedStay(written: seq<(nat, ImportWindow)>, taken: seq<Accepted>, limits: Limits, a: Accepted)
    requires Publishes(written, taken, limits) && a.index !in WrittenIndices(written)
    ensures Publishes(written, taken + [a], limits)
  {
    hide WindowOf, OfIndex;
    forall k | 0 <= k < |written|
      ensures written[k].1 == WindowOf(OfIndex(taken + [a], written[k].0), limits)
    {
      OfIndexPush(taken, a, written[k].0);
      assert written[k].0 in WrittenIndices(written);
      assert OfIndex(taken, written[k].0) + [] == OfIndex(taken, written[k].0);
    }
  }

  lemma EnterHolds(windows: map<nat, ImportWindow>, written: seq<(nat, ImportWindow)>, taken: seq<Accepted>,
                   flushedBefore: nat, limits: Limits, a: Accepted, window: ImportWindow)
    requires HoldsAll(windows, written, taken, flushedBefore, limits) && flushedBefore <= a.index <= U64_MAX
    requires window == WindowOf(OfIndex(taken, a.index) + [a], limits)
    ensures HoldsAll(windows[a.index := window], written, taken + [a], flushedBefore, limits)
    ensures |windows| <= |windows[a.index := window]| <= |windows| + 1
  {
    hide WindowOf, OfIndex, Indices, WrittenIndices, Publishes, Increasing;
    var more, open := taken + [a], windows[a.index := window];
    forall i | i in open
      ensures open[i] == WindowOf(OfIndex(more, i), limits)
    {
      OfIndexPush(taken, a, i);
      assert OfIndex(taken, i) + [] == OfIndex(taken, i);
    }
    PublishedStay(written, taken, limits, a);
    IndicesPush(taken, a);
    assert open.Keys == windows.Keys + {a.index};
  }

  lemma FlushHolds(windows: map<nat, ImportWindow>, written: seq<(nat, ImportWindow)>, taken: seq<Accepted>,
                   flushedBefore: nat, limits: Limits, i: nat)
    requires HoldsAll(windows, written, taken, flushedBefore, limits)
    requires i in windows && forall j :: j in windows ==> i <= j
    ensures HoldsAll(windows - {i}, written + [(i, windows[i])], taken, i + 1, limits)
    ensures i in WrittenIndices(written + [(i, windows[i])])
  {
    hide WindowOf, OfIndex, Indices;
    WrittenPush(written, (i, windows[i]));
    forall k | 0 <= k < |written|
      ensures written[k].0 < i
    {
      assert written[k].0 in WrittenIndices(written);
    }
    assert (windows - {i}).Keys + {i} == windows.Keys;
  }

  lemma {:induction false} SmallestIndex<V>(m: map<nat, V>) returns (i: nat)
    requires m != map[]
    ensures i in m && forall j :: j in m ==> i <= j
    decreases |m|
  {
    var k :| k in m;
    var rest := m - {k};
    if rest == map[] {
      assert forall j :: j in m && j != k ==> j in rest;
      i := k;
    } else {
      assert rest.Keys == m.Keys - {k};
      i := SmallestIndex(rest);
      if k < i {
        i := k;
      }
      assert forall j :: j in m && j != k ==> j in rest;
    }
  }

  /** The smallest of several indices has room above it, so moving past it never saturates. */
  lemma NotTheLast<V>(m: map<nat, V>, i: nat)
    requires |m| > 1 && i in m && forall j :: j in m ==> i <= j <= U64_MAX
    ensures i < U64_MAX
  {
    Smaller(m, i);
    assert m - {i} != map[];
    var j :| j in m - {i};
  }

  class Importer {
    const windowNanos: u64
    const limits: Limits
    var firstTimestamp: Option<u64>
    var threadNames: map<ThreadKey, string>
    var lastThreadTimestamp: map<ThreadKey, u64>
    var windows: map<nat, ImportWindow>
    var flushedBefore: nat
    var lateSamplesDropped: nat
    var threadStateDropped: nat
    var wroteWindows: nat
    var written: seq<(nat, ImportWindow)>
    /** The records read so far, and the samples taken from them. */
    ghost var records: seq<ImportRecord>
    ghost var taken: seq<Accepted>

    ghost predicate Holds()
      reads this`windows, this`written, this`taken, this`flushedBefore, this`wroteWindows
    {
      && HoldsAll(windows, written, taken, flushedBefore, limits)
      && Frontier(windows, written, flushedBefore)
      && wroteWindows == |written|
    }

    /** The fields say of the records what their history says. */
    ghost predicate Follows()
      requires windowNanos > 0
      reads this`records, this`taken, this`firstTimestamp, this`threadNames, this`lastThreadTimestamp,
            this`lateSamplesDropped, this`threadStateDropped
    {
      ProgressOf(records, windowNanos)
      == Progress(taken, lateSamplesDropped, firstTimestamp, threadNames, lastThreadTimestamp, threadStateDropped)
    }

    ghost predicate Valid()
      reads this
    {
      windowNanos > 0 && Holds() && Follows() && |windows| <= MAX_PENDING_WINDOWS
    }

    constructor (windowNanos: u64, limits: Limits)
      requires windowNanos > 0
      ensures Valid() && records == []
      ensures this.windowNanos == windowNanos && this.limits == limits
    {
      this.windowNanos, this.limits := windowNanos, limits;
      firstTimestamp, threadNames, lastThreadTimestamp := None, map[], map[];
      windows, flushedBefore, lateSamplesDropped, threadStateDropped, wroteWindows := map[], 0, 0, 0, 0;
      written, records, taken := [], [], [];
    }

    method CollectAddresses(ip: Option<u64>, callchain: seq<u64>) returns (addresses: seq<u64>)
      ensures addresses == AddressesOf(ip, callchain)
    {
      addresses := [];
      if ip.Some? && IsAddress(ip.value) {
        addresses := [ip.value];
      }
      for n := 0 to |callchain|
        invariant addresses == AddressesOf(ip, callchain[..n])
      {
        assert callchain[..n + 1][..n] == callchain[..n];
        if IsAddress(callchain[n]) && (addresses == [] || addresses[|addresses| - 1] != callchain[n]) {
          addresses := addresses + [callchain[n]];
        }
      }
      assert callchain[..|callchain|] == callchain;
    }

    /** The time a sample stands for, by the time of its thread's last one. */
    method Delta(t: ThreadKey, timestamp: u64) returns (delta: u64)
      requires windowNanos > 0
      modifies this`lastThreadTimestamp, this`threadStateDropped
      ensures 0 < delta <= Max(windowNanos, FALLBACK_PERIOD_NANOS)
      ensures t in old(lastThreadTimestamp) && old(lastThreadTimestamp)[t] < timestamp ==>
        delta == Min(timestamp - old(lastThreadTimestamp)[t], windowNanos)
      ensures t !in old(lastThreadTimestamp) || timestamp <= old(lastThreadTimestamp)[t] ==> delta == FALLBACK_PERIOD_NANOS
      ensures delta == DeltaOf(old(lastThreadTimestamp), t, timestamp, windowNanos)
      ensures var known := Remembered(old(lastThreadTimestamp), t);
              && lastThreadTimestamp == (if known then old(lastThreadTimestamp)[t := timestamp] else old(lastThreadTimestamp))
              && threadStateDropped == old(threadStateDropped) + (if known then 0 else 1)
    {
      if t in lastThreadTimestamp || |lastThreadTimestamp| < MAX_TRACKED_THREADS {
        var previous := if t in lastThreadTimestamp then Some(lastThreadTimestamp[t]) else None;
        lastThreadTimestamp := lastThreadTimestamp[t := timestamp];
        delta := if previous.Some? then Min(SaturatingSub(timestamp, previous.value), windowNanos) else 0;
        if delta == 0 {
          delta := FALLBACK_PERIOD_NANOS;
        }
      } else {
        threadStateDropped := threadStateDropped + 1;
        delta := FALLBACK_PERIOD_NANOS;
      }
    }

    /** A sample enters its window. */
    method Enter(window: ImportWindow, key: AttributedStack, delta: u64, timestamp: u64, ghost xs: seq<Accepted>,
                 ghost a: Accepted)
      returns (w: ImportWindow)
      requires window == WindowOf(xs, limits) && a.key == key && a.delta == delta && a.timestamp == timestamp
      ensures w == WindowOf(xs + [a], limits)
    {
      hide Capped, Dropped;
      ghost var rs := RecordsOf(xs);
      assert RecordsOf(xs + [a]) == rs + [RecordOf(a)];
      Step(rs, RecordOf(a), limits.maxStacks);
      w := window.(totalSamples := window.totalSamples + 1);
      var full := |w.samples| >= limits.maxStacks;
      if key in w.samples {
        var value := w.samples[key];
        w := w.(samples := w.samples[key := Pair(SatI64(value.first + 1), SatI64(value.second + SatI64(delta)))]);
      } else if !full {
        w := w.(samples := w.samples[key := Pair(1, SatI64(delta))]);
      } else {
        w := w.(aggregationDroppedSamples := w.aggregationDroppedSamples + 1);
      }
      if limits.timeline {
        if |w.timeline| < limits.maxTimelineSamples {
          assert (xs + [a])[..|xs|] == xs && xs[..|xs|] == xs && (xs + [a])[..|xs| + 1] == xs + [a];
          w := w.(timeline := w.timeline + [TimedSample(key, timestamp, delta)]);
        } else {
          assert (xs + [a])[..limits.maxTimelineSamples] == xs[..limits.maxTimelineSamples];
          w := w.(timelineDroppedSamples := w.timelineDroppedSamples + 1);
        }
      }
    }

    /** An index not open yet holds no sample. */
    lemma OpenWindow(index: nat)
      requires Holds() && flushedBefore <= index
      ensures index in windows ==> windows[index] == WindowOf(OfIndex(taken, index), limits)
      ensures index !in windows ==> WindowOf(OfIndex(taken, index), limits) == EMPTY_WINDOW
    {
      hide WindowOf, OfIndex;
      if index !in windows {
        assert forall n :: 0 <= n < |taken| ==> taken[n].index in Indices(taken);
        OfIndexNone(taken, index);
        NoSamples(limits);
      }
    }

    /** The earliest open window is written and closed for good. */
    method FlushFirst()
      requires windowNanos > 0 && Holds() && |windows| > MAX_PENDING_WINDOWS
      modifies this`windows, this`flushedBefore, this`wroteWindows, this`written
      ensures Holds() && |windows| == |old(windows)| - 1
    {
      hide HoldsAll, WrittenIndices;
      ghost var least := SmallestIndex(windows);
      assert forall i :: i in windows ==> flushedBefore <= i <= U64_MAX by {
        HeldRange(windows, written, taken, flushedBefore, limits);
      }
      var i :| i in windows && forall j :: j in windows ==> i <= j;
      NotTheLast(windows, i);
      FlushHolds(windows, written, taken, flushedBefore, limits, i);
      Smaller(windows, i);
      written := written + [(i, windows[i])];
      windows := windows - {i};
      flushedBefore := Min(i + 1, U64_MAX);
      wroteWindows := wroteWindows + 1;
    }

    /** A sample enters the window of its index, and the earliest windows are written until no more
        than the allowed number is open. */
    method OpenAndEnter(ghost a: Accepted, index: nat, key: AttributedStack, delta: u64, timestamp: u64)
      requires windowNanos > 0 && Holds() && |windows| <= MAX_PENDING_WINDOWS
      requires flushedBefore <= index <= U64_MAX && a == Accepted(index, key, delta, timestamp)
      modifies this`windows, this`flushedBefore, this`wroteWindows, this`written, this`taken
      ensures Holds() && |windows| <= MAX_PENDING_WINDOWS && taken == old(taken) + [a]
    {
      hide WindowOf, OfIndex, HoldsAll, WrittenIndices;
      ghost var xs := OfIndex(taken, index);
      OpenWindow(index);
      var window := if index in windows then windows[index] else EMPTY_WINDOW;
      window := Enter(window, key, delta, timestamp, xs, a);
      EnterHolds(windows, written, taken, flushedBefore, limits, a, window);
      windows := windows[index := window];
      taken := taken + [a];
      while |windows| > MAX_PENDING_WINDOWS
        invariant Holds() && taken == old(taken) + [a] && windowNanos > 0
        decreases |windows|
      {
        FlushFirst();
      }
    }

    lemma BeforeFrontier(index: nat)
      requires Holds() && |windows| <= MAX_PENDING_WINDOWS
      ensures index < flushedBefore <==> TooLate(taken, index)
    {
      hide HoldsAll, TooLate, Frontier;
      FrontierIsTooLate(windows, written, taken, flushedBefore, limits, index);
    }

    /** One sample of the loop of `run`. */
    method AddSample(s: SampleRecord)
      requires Valid()
      modifies this
      ensures Valid() && records == old(records) + [Sample(s)]
    {
      hide AddressesOf, Importer.Holds, IndexOf, DeltaOf, TooLate, ProgressOf, NamesOf, FirstOf, TimesOf;
      ProgressPush(records, Sample(s), windowNanos);
      records := records + [Sample(s)];
      if s.timestamp.None? || !IsId(s.pid) || !IsId(s.tid) {
        return;
      }
      var timestamp, pid, tid := s.timestamp.value, s.pid.value, s.tid.value;
      if firstTimestamp.None? {
        firstTimestamp := Some(timestamp);
      }
      var index := IndexOf(timestamp, firstTimestamp.value, windowNanos);
      BeforeFrontier(index);
      if index < flushedBefore {
        lateSamplesDropped := lateSamplesDropped + 1;
        return;
      }
      var addresses := CollectAddresses(s.ip, s.callchain);
      if addresses == [] {
        return;
      }
      var name := NameOf(threadNames, (pid, tid));
      var delta := Delta((pid, tid), timestamp);
      ghost var a := Accepted(index, AttributedStack(addresses, pid, tid, name), delta, timestamp);
      OpenAndEnter(a, index, AttributedStack(addresses, pid, tid, name), delta, timestamp);
    }

    /** A thread's name, for a bounded number of threads. */
    method AddComm(pid: int, tid: int, name: string)
      requires Valid()
      modifies this`threadNames, this`records
      ensures Valid() && records == old(records) + [Comm(pid, tid, name)]
    {
      hide Holds, ProgressOf, NamesOf, FirstOf, TimesOf;
      ProgressPush(records, Comm(pid, tid, name), windowNanos);
      records := records + [Comm(pid, tid, name)];
      if 0 <= pid <= U32_MAX && 0 <= tid <= U32_MAX {
        if (pid, tid) in threadNames || |threadNames| < MAX_TRACKED_THREADS {
          threadNames := threadNames[(pid, tid) := name];
        }
      }
    }

    /** Any other record leaves no trace. */
    ghost method Skip()
      requires Valid()
      modifies this`records
      ensures Valid() && records == old(records) + [Other]
    {
      hide Holds, ProgressOf, NamesOf, FirstOf, TimesOf;
      ProgressPush(records, Other, windowNanos);
      records := records + [Other];
    }

    /** At the end the open windows are written in order; an import that found nothing fails. */
    method Finish() returns (ok: bool)
      requires Valid()
      modifies this`written, this`windows
      ensures ok <==> taken != []
      ensures PublishesAll(written, taken, limits)
    {
      hide HoldsAll, Increasing, Publishes, WrittenIndices, Follows;
      NothingFound(windows, written, taken, flushedBefore, limits);
      if windows == map[] && wroteWindows == 0 {
        AllWritten(windows, written, taken, flushedBefore, limits);
        return false;
      }
      ghost var frontier: nat := flushedBefore;
      while windows != map[]
        invariant HoldsAll(windows, written, taken, frontier, limits)
        decreases |windows|
      {
        ghost var least := SmallestIndex(windows);
        var i :| i in windows && forall j :: j in windows ==> i <= j;
        FlushHolds(windows, written, taken, frontier, limits, i);
        Smaller(windows, i);
        written := written + [(i, windows[i])];
        windows := windows - {i};
        frontier := i + 1;
      }
      AllWritten(windows, written, taken, frontier, limits);
      return true;
    }
  }

  lemma HeldRange(windows: map<nat, ImportWindow>, written: seq<(nat, ImportWindow)>, taken: seq<Accepted>,
                  flushedBefore: nat, limits: Limits)
    requires HoldsAll(windows, written, taken, flushedBefore, limits)
    ensures forall i :: i in windows ==> flushedBefore <= i <= U64_MAX
  {
  }

  lemma NothingFound(windows: map<nat, ImportWindow>, written: seq<(nat, ImportWindow)>, taken: seq<Accepted>,
                     flushedBefore: nat, limits: Limits)
    requires HoldsAll(windows, written, taken, flushedBefore, limits)
    ensures taken == [] <==> windows == map[] && written == []
  {
    assert taken != [] ==> taken[0].index in Indices(taken);
    assert written != [] ==> written[0].0 in WrittenIndices(written);
  }

  lemma AllWritten(windows: map<nat, ImportWindow>, written: seq<(nat, ImportWindow)>, taken: seq<Accepted>,
                   flushedBefore: nat, limits: Limits)
    requires HoldsAll(windows, written, taken, flushedBefore, limits) && windows == map[]
    ensures PublishesAll(written, taken, limits)
  {
  }

  // Nothing is counted twice or lost.

  function TotalOf(written: seq<(nat, ImportWindow)>): nat {
    if written == [] then 0 else TotalOf(written[..|written| - 1]) + written[|written| - 1].1.totalSamples
  }

  function SizeOf(written: seq<(nat, ImportWindow)>, taken: seq<Accepted>): nat {
    if written == [] then 0
    else SizeOf(written[..|written| - 1], taken) + |OfIndex(taken, written[|written| - 1].0)|
  }

  lemma {:induction false} TotalIsSize(written: seq<(nat, ImportWindow)>, taken: seq<Accepted>, limits: Limits)
    requires Publishes(written, taken, limits)
    ensures TotalOf(written) == SizeOf(written, taken)
  {
    if written != [] {
      var n := |written| - 1;
      assert written[n].1 == WindowOf(OfIndex(taken, written[n].0), limits);
      TotalIsSize(written[..n], taken, limits);
    }
  }

  lemma {:induction false} SizePush(written: seq<(nat, ImportWindow)>, taken: seq<Accepted>, a: Accepted)
    requires Increasing(written)
    ensures SizeOf(written, taken + [a]) == SizeOf(written, taken) + (if a.index in WrittenIndices(written) then 1 else 0)
  {
    hide OfIndex;
    if written != [] {
      var n := |written| - 1;
      assert forall k :: 0 <= k < n ==> written[..n][k].0 < written[n].0;
      SizePush(written[..n], taken, a);
      OfIndexPush(taken, a, written[n].0);
      assert written == written[..n] + [written[n]];
      WrittenPush(written[..n], written[n]);
      assert written[n].0 !in WrittenIndices(written[..n]);
      hide WrittenIndices, Increasing;
    }
  }

  lemma {:induction false} SizeNone(written: seq<(nat, ImportWindow)>)
    ensures SizeOf(written, []) == 0
  {
    if written != [] {
      SizeNone(written[..|written| - 1]);
    }
  }

  lemma {:induction false} SizeAll(written: seq<(nat, ImportWindow)>, taken: seq<Accepted>)
    requires Increasing(written) && Indices(taken) <= WrittenIndices(written)
    ensures SizeOf(written, taken) == |taken|
  {
    if taken == [] {
      SizeNone(written);
    } else {
      var n := |taken| - 1;
      assert taken == taken[..n] + [taken[n]];
      IndicesPush(taken[..n], taken[n]);
      SizeAll(written, taken[..n]);
      SizePush(written, taken[..n], taken[n]);
    }
  }

  /** The windows written count every sample taken exactly once. */
  lemma EverySampleOnce(written: seq<(nat, ImportWindow)>, taken: seq<Accepted>, limits: Limits)
    requires PublishesAll(written, taken, limits)
    ensures TotalOf(written) == |taken|
  {
    TotalIsSize(written, taken, limits);
    SizeAll(written, taken);
  }

  datatype Imported = Imported(
    written: seq<(nat, ImportWindow)>, lateSamplesDropped: nat, threadStateDropped: nat)

  /** `run`: the windows it publishes, for records in any order. Each window holds exactly the samples
      that the history gives its index, and every sample with a time and a thread is counted in one
      window, or as late, or has no address. */
  method Run(window: u64, limits: Limits, records: seq<ImportRecord>) returns (r: Option<Imported>)
    ensures r.Some? <==> window > 0 && UsableSamples(records) > 0
    ensures r.Some? ==>
      var fates := Fates(records, window);
      && PublishesAll(r.value.written, TakenOf(fates), limits)
      && (forall k :: 0 <= k < |TakenOf(fates)| ==> InOwnWindow(records, TakenOf(fates)[k], window))
      && r.value.lateSamplesDropped == LateOf(fates)
      && r.value.threadStateDropped == Forgotten(TakenOf(fates))
      && AttributedSamples(records) == TotalOf(r.value.written) + r.value.lateSamplesDropped + EmptyOf(fates)
  {
    hide Importer.Holds, AddressesOf, PublishesAll, TotalOf, Fates, TakenOf, LateOf, EmptyOf, AttributedSamples,
      UsableSamples, Forgotten, NamesOf, FirstOf, TimesOf, InOwnWindow;
    if window == 0 {
      return None;
    }
    var importer := new Importer(window, limits);
    for i := 0 to |records|
      invariant fresh(importer) && importer.Valid() && importer.limits == limits && importer.windowNanos == window
      invariant importer.records == records[..i]
    {
      assert records[..i + 1] == records[..i] + [records[i]];
      match records[i] {
        case Comm(pid, tid, name) => importer.AddComm(pid, tid, name);
        case Sample(s) => importer.AddSample(s);
        case Other => importer.Skip();
      }
    }
    assert records[..|records|] == records;
    SomethingTaken(records, window);
    SamplesAddUp(records, window);
    TakenInWindow(records, window);
    var ok := importer.Finish();
    EverySampleOnce(importer.written, importer.taken, limits);
    r := if ok then Some(Imported(importer.written, importer.lateSamplesDropped, importer.threadStateDropped)) else None;
  }
}
