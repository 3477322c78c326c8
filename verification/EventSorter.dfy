/** Bounded reordering of timestamped samples: src/platform/linux/event.rs. */
module EventSorter {
  import opened Machine
  import opened Sums
  import opened PerfSamples

  type Queues = map<u64, seq<PerfSample>>

  predicate Sorted(xs: seq<PerfSample>) {
    forall i, j :: 0 <= i < j < |xs| ==> xs[i].time <= xs[j].time
  }

  /** The samples of one timestamp, in order. */
  function Filter(xs: seq<PerfSample>, t: u64): seq<PerfSample> {
    if xs == [] then []
    else
      var n := |xs| - 1;
      Filter(xs[..n], t) + (if xs[n].time == t then [xs[n]] else [])
  }

  // The specification: a stable sort.

  function InsertStable(sorted: seq<PerfSample>, x: PerfSample): seq<PerfSample> {
    if sorted == [] || sorted[|sorted| - 1].time <= x.time then sorted + [x]
    else InsertStable(sorted[..|sorted| - 1], x) + [sorted[|sorted| - 1]]
  }

  /** Ascending timestamps, equal timestamps in their original order. */
  function StableSort(xs: seq<PerfSample>): seq<PerfSample> {
    if xs == [] then [] else InsertStable(StableSort(xs[..|xs| - 1]), xs[|xs| - 1])
  }

  lemma FilterSnoc(xs: seq<PerfSample>, x: PerfSample, t: u64)
    ensures Filter(xs + [x], t) == Filter(xs, t) + (if x.time == t then [x] else [])
  {
    assert (xs + [x])[..|xs|] == xs;
  }

  lemma {:induction false} FilterConcat(a: seq<PerfSample>, b: seq<PerfSample>, t: u64)
    ensures Filter(a + b, t) == Filter(a, t) + Filter(b, t)
    decreases |b|
  {
    if b == [] {
      assert a + b == a;
    } else {
      var n := |b| - 1;
      assert a + b == (a + b[..n]) + [b[n]];
      FilterSnoc(a + b[..n], b[n], t);
      FilterConcat(a, b[..n], t);
    }
  }

  lemma {:induction false} InsertStableFilter(sorted: seq<PerfSample>, x: PerfSample, t: u64)
    ensures Filter(InsertStable(sorted, x), t) == Filter(sorted + [x], t)
    decreases |sorted|
  {
    FilterSnoc(sorted, x, t);
    if sorted != [] && sorted[|sorted| - 1].time > x.time {
      var n := |sorted| - 1;
      var before, last := InsertStable(sorted[..n], x), sorted[n];
      assert InsertStable(sorted, x) == before + [last] && sorted == sorted[..n] + [last];
      InsertStableFilter(sorted[..n], x, t);
      hide Filter, InsertStable;
      FilterSnoc(before, last, t);
      FilterSnoc(sorted[..n], x, t);
      FilterSnoc(sorted[..n], last, t);
    }
  }

  lemma {:induction false} InsertStableSorted(sorted: seq<PerfSample>, x: PerfSample)
    requires Sorted(sorted)
    ensures Sorted(InsertStable(sorted, x))
    ensures forall y :: y in InsertStable(sorted, x) ==>
      y.time <= x.time || (sorted != [] && y.time <= sorted[|sorted| - 1].time)
    decreases |sorted|
  {
    if sorted != [] && sorted[|sorted| - 1].time > x.time {
      InsertStableSorted(sorted[..|sorted| - 1], x);
    }
  }

  lemma {:induction false} StableSortSpec(xs: seq<PerfSample>)
    ensures Sorted(StableSort(xs))
    ensures forall t :: Filter(StableSort(xs), t) == Filter(xs, t)
  {
    if xs != [] {
      var n := |xs| - 1;
      StableSortSpec(xs[..n]);
      InsertStableSorted(StableSort(xs[..n]), xs[n]);
      forall t
        ensures Filter(StableSort(xs), t) == Filter(xs, t)
      {
        InsertStableFilter(StableSort(xs[..n]), xs[n], t);
        FilterSnoc(StableSort(xs[..n]), xs[n], t);
      }
    }
  }

  lemma {:induction false} FilterAbsent(xs: seq<PerfSample>, t: u64)
    requires forall i :: 0 <= i < |xs| ==> xs[i].time != t
    ensures Filter(xs, t) == []
  {
    if xs != [] {
      FilterAbsent(xs[..|xs| - 1], t);
    }
  }

  /** Ascending timestamps and the order inside each timestamp determine a sequence. */
  lemma {:induction false} SortedUnique(a: seq<PerfSample>, b: seq<PerfSample>)
    requires Sorted(a) && Sorted(b)
    requires forall t :: Filter(a, t) == Filter(b, t)
    ensures a == b
    decreases |a| + |b|
  {
    if a == [] && b == [] {
    } else {
      LastTimesAgree(a, b);
      var m, n := |a| - 1, |b| - 1;
      var t := a[m].time;
      assert Filter(a, t) == Filter(b, t);
      assert Filter(a, t)[|Filter(a, t)| - 1] == a[m];
      forall u
        ensures Filter(a[..m], u) == Filter(b[..n], u)
      {
        assert Filter(a, u) == Filter(b, u);
        assert Filter(a[..m], u) == Filter(a, u)[..|Filter(a, u)| - (if u == t then 1 else 0)];
        assert Filter(b[..n], u) == Filter(b, u)[..|Filter(b, u)| - (if u == t then 1 else 0)];
      }
      SortedUnique(a[..m], b[..n]);
    }
  }

  lemma LastAtMost(a: seq<PerfSample>, b: seq<PerfSample>)
    requires Sorted(b) && a != []
    requires forall t :: Filter(a, t) == Filter(b, t)
    ensures b != [] && a[|a| - 1].time <= b[|b| - 1].time
  {
    var t := a[|a| - 1].time;
    assert Filter(b, t) == Filter(a, t) != [];
    if b == [] || t > b[|b| - 1].time {
      FilterAbsent(b, t);
      assert false;
    }
  }

  lemma LastTimesAgree(a: seq<PerfSample>, b: seq<PerfSample>)
    requires Sorted(a) && Sorted(b) && (a != [] || b != [])
    requires forall t :: Filter(a, t) == Filter(b, t)
    ensures a != [] && b != [] && a[|a| - 1].time == b[|b| - 1].time
  {
    if a != [] {
      LastAtMost(a, b);
    }
    LastAtMost(b, a);
    LastAtMost(a, b);
  }

  // The buffer.

  function At(pending: Queues, t: u64): seq<PerfSample> {
    if t in pending then pending[t] else []
  }

  ghost function Lengths(pending: Queues): map<u64, nat> {
    map t | t in pending :: |pending[t]|
  }

  predicate QueuesOk(pending: Queues) {
    forall t {:trigger pending[t]} :: t in pending ==>
      pending[t] != [] && forall i :: 0 <= i < |pending[t]| ==> pending[t][i].time == t
  }

  predicate IsFirst(pending: Queues, t: u64) {
    t in pending && forall u :: u in pending ==> t <= u
  }

  lemma {:induction false} FirstExists(keys: set<u64>) returns (first: u64)
    requires keys != {}
    ensures first in keys && forall k :: k in keys ==> first <= k
    decreases |keys|
  {
    var k :| k in keys;
    var rest := keys - {k};
    if rest == {} {
      first := k;
      assert keys == {k};
    } else {
      var other := FirstExists(rest);
      first := if k < other then k else other;
      assert keys == rest + {k};
    }
  }

  function Pushed(pending: Queues, x: PerfSample): Queues {
    pending[x.time := At(pending, x.time) + [x]]
  }

  function Popped(pending: Queues, t: u64): Queues
    requires QueuesOk(pending) && t in pending
  {
    var rest := pending[t][1..];
    if rest == [] then pending - {t} else pending[t := rest]
  }

  lemma PushedOk(pending: Queues, x: PerfSample)
    requires QueuesOk(pending)
    ensures QueuesOk(Pushed(pending, x))
    ensures Total(Lengths(Pushed(pending, x))) == Total(Lengths(pending)) + 1
  {
    var n := |At(pending, x.time)|;
    assert Lengths(Pushed(pending, x)) == Lengths(pending)[x.time := n + 1];
    TotalUpdate(Lengths(pending), x.time, n + 1);
    hide Total;
  }

  lemma PoppedOk(pending: Queues, t: u64)
    requires QueuesOk(pending) && t in pending
    ensures QueuesOk(Popped(pending, t))
    ensures Total(Lengths(Popped(pending, t))) == Total(Lengths(pending)) - 1
  {
    var rest := pending[t][1..];
    TotalRemove(Lengths(pending), t);
    if rest == [] {
      assert Lengths(Popped(pending, t)) == Lengths(pending) - {t};
    } else {
      assert Lengths(Popped(pending, t)) == Lengths(pending)[t := |rest|];
      TotalUpdate(Lengths(pending), t, |rest|);
    }
    hide Total;
  }

  /** Nothing is lost, duplicated or reordered inside a timestamp: per timestamp, what came out
      followed by what waits is what went in. */
  ghost predicate Accounted(pushed: seq<PerfSample>, emitted: seq<PerfSample>, pending: Queues) {
    forall t :: Filter(emitted, t) + At(pending, t) == Filter(pushed, t)
  }

  /** `run` came out of the buffer oldest first and everything left is no older. */
  predicate RunOk(run: seq<PerfSample>, pending: Queues) {
    Sorted(run) && forall i, t :: 0 <= i < |run| && t in pending ==> run[i].time <= t
  }

  lemma AccountedPush(pushed: seq<PerfSample>, emitted: seq<PerfSample>, pending: Queues, x: PerfSample)
    requires Accounted(pushed, emitted, pending)
    ensures Accounted(pushed + [x], emitted, Pushed(pending, x))
  {
    hide Filter;
    forall t
      ensures Filter(emitted, t) + At(Pushed(pending, x), t) == Filter(pushed + [x], t)
    {
      FilterSnoc(pushed, x, t);
      PushedAt(pending, x, t);
      assert Filter(emitted, t) + At(pending, t) == Filter(pushed, t);
    }
  }

  lemma PushedAt(pending: Queues, x: PerfSample, t: u64)
    ensures At(Pushed(pending, x), t) == At(pending, t) + (if x.time == t then [x] else [])
  {
  }

  lemma PoppedAt(pending: Queues, t: u64, u: u64)
    requires QueuesOk(pending) && t in pending
    ensures At(pending, u) == (if u == t then [pending[t][0]] else []) + At(Popped(pending, t), u)
  {
    var rest := pending[t][1..];
    assert pending[t] == [pending[t][0]] + rest;
  }

  lemma AccountedPop(pushed: seq<PerfSample>, emitted: seq<PerfSample>, pending: Queues, t: u64)
    requires QueuesOk(pending) && t in pending && Accounted(pushed, emitted, pending)
    ensures Accounted(pushed, emitted + [pending[t][0]], Popped(pending, t))
  {
    var x := pending[t][0];
    assert x.time == t;
    hide Filter, At, Popped, QueuesOk;
    forall u
      ensures Filter(emitted + [x], u) + At(Popped(pending, t), u) == Filter(pushed, u)
    {
      FilterSnoc(emitted, x, u);
      PoppedAt(pending, t, u);
      assert Filter(emitted, u) + At(pending, u) == Filter(pushed, u);
    }
  }

  lemma RunPop(run: seq<PerfSample>, pending: Queues, t: u64)
    requires QueuesOk(pending) && IsFirst(pending, t) && RunOk(run, pending)
    ensures RunOk(run + [pending[t][0]], Popped(pending, t))
  {
  }

  ghost predicate Buffered(pushed: seq<PerfSample>, emitted: seq<PerfSample>, pending: Queues, pendingLen: nat) {
    && QueuesOk(pending)
    && pendingLen == Total(Lengths(pending))
    && Accounted(pushed, emitted, pending)
  }

  lemma BufferedPush(pushed: seq<PerfSample>, emitted: seq<PerfSample>, pending: Queues, n: nat, x: PerfSample)
    requires Buffered(pushed, emitted, pending, n)
    ensures Buffered(pushed + [x], emitted, Pushed(pending, x), n + 1)
  {
    hide Accounted, Total, QueuesOk;
    PushedOk(pending, x);
    AccountedPush(pushed, emitted, pending, x);
  }

  class PerfEventSorter {
    const maxPending: nat
    const reorderNanos: u64
    var pending: Queues
    var pendingLen: nat
    var maxSeen: u64
    var peakPending: nat
    var forcedFlushes: nat
    /** Everything pushed and everything emitted so far, and whether the bounds held so far: no
        sample older than the tolerance, no forced flush. */
    ghost var pushed: seq<PerfSample>
    ghost var emitted: seq<PerfSample>
    ghost var orderly: bool

    ghost predicate Valid()
      reads this
    {
      && Buffered(pushed, emitted, pending, pendingLen)
      && (orderly ==> Ordered(emitted, pending, Watermark()))
    }

    function Watermark(): nat
      reads this
    {
      SaturatingSub(maxSeen, reorderNanos)
    }

    constructor (reorderNanos: u64, maxPending: nat)
      ensures Valid() && pending == map[] && pushed == [] && emitted == [] && orderly && forcedFlushes == 0
      ensures this.reorderNanos == reorderNanos && this.maxPending == maxPending && maxSeen == 0
    {
      this.reorderNanos, this.maxPending := reorderNanos, maxPending;
      pending, pendingLen, maxSeen, peakPending, forcedFlushes := map[], 0, 0, 0, 0;
      pushed, emitted, orderly := [], [], true;
    }

    /** The oldest timestamp waiting. */
    method FirstKey() returns (first: u64)
      requires pending != map[]
      ensures IsFirst(pending, first)
    {
      ghost var least := FirstExists(pending.Keys);
      first :| first in pending.Keys && forall u :: u in pending.Keys ==> first <= u;
    }

    method PopOldest() returns (sample: Option<PerfSample>)
      requires QueuesOk(pending) && pendingLen == Total(Lengths(pending))
      modifies `pending, `pendingLen
      ensures QueuesOk(pending) && pendingLen == Total(Lengths(pending))
      ensures old(pending) == map[] ==> sample == None && pending == old(pending)
      ensures old(pending) != map[] ==> exists t ::
        && IsFirst(old(pending), t) && sample == Some(old(pending)[t][0])
        && pending == Popped(old(pending), t)
    {
      if pending == map[] {
        return None;
      }
      var timestamp := FirstKey();
      PoppedOk(pending, timestamp);
      var queue := pending[timestamp];
      sample := Some(queue[0]);
      queue := queue[1..];
      pending := if queue == [] then pending - {timestamp} else pending[timestamp := queue];
      pendingLen := pendingLen - 1;
    }

    /** Emits everything up to the watermark, oldest first. */
    method DrainBefore(watermark: nat, ready: seq<PerfSample>) returns (out: seq<PerfSample>)
      requires Buffered(pushed, emitted, pending, pendingLen)
      modifies `pending, `pendingLen, `emitted
      ensures Buffered(pushed, emitted, pending, pendingLen)
      ensures pending.Keys <= old(pending.Keys) && forall t :: t in pending ==> watermark < t
      ensures ready <= out && emitted == old(emitted) + out[|ready|..]
      ensures RunOk(out[|ready|..], pending)
      ensures forall i :: |ready| <= i < |out| ==> out[i].time <= watermark && out[i].time in old(pending)
    {
      hide Buffered;
      out := ready;
      ghost var run: seq<PerfSample> := [];
      while true
        invariant Buffered(pushed, emitted, pending, pendingLen)
        invariant pending.Keys <= old(pending.Keys)
        invariant out == ready + run && emitted == old(emitted) + run && RunOk(run, pending)
        invariant forall i :: 0 <= i < |run| ==> run[i].time <= watermark && run[i].time in old(pending)
        decreases pendingLen
      {
        if pending == map[] {
          break;
        }
        var timestamp := FirstKey();
        if timestamp > watermark {
          break;
        }
        out, run := EmitOldest(out, run);
      }
      assert out[|ready|..] == run;
    }

    /** One `pop_oldest` whose sample is appended to the output. */
    method EmitOldest(out: seq<PerfSample>, ghost run: seq<PerfSample>)
      returns (out': seq<PerfSample>, ghost run': seq<PerfSample>)
      requires Buffered(pushed, emitted, pending, pendingLen)
      requires pending != map[] && RunOk(run, pending)
      modifies `pending, `pendingLen, `emitted
      ensures Buffered(pushed, emitted, pending, pendingLen)
      ensures pendingLen == old(pendingLen) - 1 && pending.Keys <= old(pending.Keys)
      ensures |out'| == |out| + 1 && out' == out + [out'[|out|]] && run' == run + [out'[|out|]]
      ensures emitted == old(emitted) + [out'[|out|]] && IsFirst(old(pending), out'[|out|].time)
      ensures RunOk(run', pending)
    {
      hide Total, Accounted;
      ghost var before := pending;
      var sample := PopOldest();
      ghost var t :| IsFirst(before, t) && sample == Some(before[t][0]) && pending == Popped(before, t);
      AccountedPop(pushed, emitted, before, t);
      RunPop(run, before, t);
      PoppedOk(before, t);
      out' := out + [sample.value];
      run' := run + [sample.value];
      emitted := emitted + [sample.value];
    }

    /** One sample in; out comes everything the new watermark allows, and then, oldest first, what
        the buffer has no room for. */
    method Push(sample: PerfSample, ready: seq<PerfSample>) returns (out: seq<PerfSample>)
      requires Valid()
      modifies this
      ensures Valid() && pushed == old(pushed) + [sample]
      ensures ready <= out && emitted == old(emitted) + out[|ready|..]
      ensures Sorted(out[|ready|..])
      ensures pendingLen <= maxPending
      ensures maxSeen == Max(old(maxSeen), sample.time)
      ensures forcedFlushes >= old(forcedFlushes)
      ensures orderly <==>
        (old(orderly) && sample.time + reorderNanos >= old(maxSeen) && forcedFlushes == old(forcedFlushes))
    {
      hide Buffered, Ordered;
      ghost var inTime, before, watermark0 := sample.time + reorderNanos >= maxSeen, emitted, Watermark();
      BufferedPush(pushed, emitted, pending, pendingLen, sample);
      OrderedBounds(emitted, pending, watermark0, orderly);
      maxSeen := Max(maxSeen, sample.time);
      pending := Pushed(pending, sample);
      pushed := pushed + [sample];
      pendingLen := pendingLen + 1;
      peakPending := Max(peakPending, pendingLen);
      ghost var forced0 := forcedFlushes;
      out := DrainBefore(Watermark(), ready);
      ghost var run := out[|ready|..];
      if orderly && inTime {
        OrderedDrain(before, run, watermark0, Watermark(), pending);
      }
      ghost var drained := out;
      out := ForceOut(out, run);
      assert out[|ready|..] == run + out[|drained|..];
      orderly := orderly && inTime && forcedFlushes == forced0;
    }

    /** The second loop of `push`. */
    method ForceOut(ready: seq<PerfSample>, ghost run: seq<PerfSample>) returns (out: seq<PerfSample>)
      requires Buffered(pushed, emitted, pending, pendingLen) && RunOk(run, pending)
      modifies `pending, `pendingLen, `emitted, `forcedFlushes
      ensures Buffered(pushed, emitted, pending, pendingLen)
      ensures pendingLen <= maxPending
      ensures ready <= out && emitted == old(emitted) + out[|ready|..] && Sorted(run + out[|ready|..])
      ensures forcedFlushes == old(forcedFlushes) + |out[|ready|..]|
      ensures forcedFlushes == old(forcedFlushes) ==> emitted == old(emitted) && pending == old(pending)
    {
      hide Buffered;
      out := ready;
      ghost var forced: seq<PerfSample>, all := [], run;
      while pendingLen > maxPending
        invariant Buffered(pushed, emitted, pending, pendingLen) && RunOk(all, pending)
        invariant out == ready + forced && emitted == old(emitted) + forced && all == run + forced
        invariant forcedFlushes == old(forcedFlushes) + |forced|
        invariant forced == [] ==> pending == old(pending)
        decreases pendingLen
      {
        NonEmptyQueues(pushed, emitted, pending, pendingLen);
        out, all := EmitOldest(out, all);
        forced := forced + [out[|out| - 1]];
        forcedFlushes := forcedFlushes + 1;
      }
      assert out[|ready|..] == forced;
    }

    /** Empties the buffer. If the bounds held throughout, everything emitted is now exactly the
        stable sort of everything pushed. */
    method Flush(ready: seq<PerfSample>) returns (out: seq<PerfSample>)
      requires Valid()
      modifies this
      ensures Valid() && pending == map[] && pendingLen == 0 && pushed == old(pushed)
      ensures ready <= out && emitted == old(emitted) + out[|ready|..]
      ensures Sorted(out[|ready|..])
      ensures multiset(emitted) == multiset(pushed)
      ensures old(orderly) ==> emitted == StableSort(pushed)
      ensures maxSeen == old(maxSeen) && forcedFlushes == old(forcedFlushes)
    {
      hide Total, Accounted;
      out := ready;
      ghost var run: seq<PerfSample>, emitted0 := [], emitted;
      while pending != map[]
        invariant Buffered(pushed, emitted, pending, pendingLen)
        invariant out == ready + run && emitted == emitted0 + run && RunOk(run, pending)
        invariant forall i :: 0 <= i < |run| ==> run[i].time in old(pending)
        invariant pending.Keys <= old(pending.Keys)
        invariant pushed == old(pushed) && maxSeen == old(maxSeen)
        invariant orderly == old(orderly) && forcedFlushes == old(forcedFlushes)
        decreases pendingLen
      {
        out, run := EmitOldest(out, run);
      }
      assert out[|ready|..] == run;
      EmptyQueues(pending);
      AllEmitted(pushed, emitted, pending);
      if orderly {
        assert forall i :: 0 <= i < |run| ==> Watermark() < run[i].time;
        assert Sorted(emitted);
        StableSortSpec(pushed);
        SortedUnique(emitted, StableSort(pushed));
      }
      orderly := false;
    }

    /** The largest backlog and the number of forced flushes since the last call. */
    method TakeStats() returns (peak: nat, forced: nat)
      requires Valid()
      modifies `peakPending, `forcedFlushes
      ensures Valid() && peak == old(peakPending) && forced == old(forcedFlushes)
      ensures peakPending == 0 && forcedFlushes == 0
    {
      peak, forced := peakPending, forcedFlushes;
      peakPending, forcedFlushes := 0, 0;
    }
  }

  lemma NonEmptyQueues(pushed: seq<PerfSample>, emitted: seq<PerfSample>, pending: Queues, n: nat)
    requires Buffered(pushed, emitted, pending, n) && n > 0
    ensures pending != map[]
  {
    assert pending == map[] ==> Lengths(pending) == map[];
  }

  /** What is known of an ordered buffer's bounds, for use when its definition is hidden. */
  lemma OrderedBounds(emitted: seq<PerfSample>, pending: Queues, watermark: nat, orderly: bool)
    requires orderly ==> Ordered(emitted, pending, watermark)
    ensures orderly ==> Sorted(emitted)
    ensures orderly ==> forall i :: 0 <= i < |emitted| ==> emitted[i].time <= watermark
    ensures orderly ==> forall t :: t in pending ==> watermark < t
  {
  }

  lemma EmptyQueues(pending: Queues)
    requires pending == map[]
    ensures Total(Lengths(pending)) == 0
  {
    assert Lengths(pending) == map[];
  }

  /** A drain up to a new watermark extends an ordered output. */
  lemma OrderedDrain(emitted: seq<PerfSample>, run: seq<PerfSample>, before: nat, after: nat, pending: Queues)
    requires Sorted(emitted) && forall i :: 0 <= i < |emitted| ==> emitted[i].time <= before
    requires Sorted(run) && forall i :: 0 <= i < |run| ==> before <= run[i].time <= after
    requires before <= after && forall t :: t in pending ==> after < t
    ensures Ordered(emitted + run, pending, after)
  {
  }

  lemma AllEmitted(pushed: seq<PerfSample>, emitted: seq<PerfSample>, pending: Queues)
    requires pending == map[] && Accounted(pushed, emitted, pending)
    ensures forall t :: Filter(emitted, t) == Filter(pushed, t)
    ensures multiset(emitted) == multiset(pushed)
  {
    forall t
      ensures Filter(emitted, t) == Filter(pushed, t)
    {
      assert Filter(emitted, t) + At(pending, t) == Filter(pushed, t);
    }
    forall x
      ensures multiset(emitted)[x] == multiset(pushed)[x]
    {
      FilterCounts(emitted, x);
      FilterCounts(pushed, x);
    }
  }

  lemma {:induction false} FilterCounts(xs: seq<PerfSample>, x: PerfSample)
    ensures multiset(xs)[x] == multiset(Filter(xs, x.time))[x]
  {
    if xs != [] {
      var n := |xs| - 1;
      FilterCounts(xs[..n], x);
      assert xs == xs[..n] + [xs[n]];
    }
  }

  /** Conservation at any moment: what came out and what waits are together what went in. */
  lemma NothingLost(pushed: seq<PerfSample>, emitted: seq<PerfSample>, pending: Queues, x: PerfSample)
    requires Accounted(pushed, emitted, pending)
    ensures multiset(pushed)[x] == multiset(emitted)[x] + multiset(At(pending, x.time))[x]
  {
    FilterCounts(emitted, x);
    FilterCounts(pushed, x);
    assert Filter(emitted, x.time) + At(pending, x.time) == Filter(pushed, x.time);
  }

  /** Emitted in order, nothing emitted above the watermark, nothing waiting at or below it. */
  ghost predicate Ordered(emitted: seq<PerfSample>, pending: Queues, watermark: nat) {
    && Sorted(emitted)
    && (forall i :: 0 <= i < |emitted| ==> emitted[i].time <= watermark)
    && (forall t :: t in pending ==> watermark < t)
  }

  /** No sample is more than `tolerance` older than one before it. */
  predicate InTime(samples: seq<PerfSample>, tolerance: nat) {
    forall i, j :: 0 <= i < j < |samples| ==> samples[j].time + tolerance >= samples[i].time
  }

  /** A whole session: push everything, then flush. Nothing is lost in any case; within the
      tolerance and without forced flushes the output is the stable sort of the input. */
  method ReorderAll(samples: seq<PerfSample>, reorderNanos: u64, maxPending: nat)
    returns (out: seq<PerfSample>, forced: nat)
    ensures multiset(out) == multiset(samples)
    ensures InTime(samples, reorderNanos) && forced == 0 ==> out == StableSort(samples)
  {
    var sorter := new PerfEventSorter(reorderNanos, maxPending);
    out := [];
    for k := 0 to |samples|
      invariant sorter.Valid() && sorter.reorderNanos == reorderNanos && fresh(sorter)
      invariant sorter.pushed == samples[..k] && sorter.emitted == out
      invariant sorter.maxSeen == 0 || exists i :: 0 <= i < k && samples[i].time == sorter.maxSeen
      invariant InTime(samples, reorderNanos) && sorter.forcedFlushes == 0 ==> sorter.orderly
    {
      out := sorter.Push(samples[k], out);
      assert samples[..k + 1] == samples[..k] + [samples[k]];
    }
    assert samples[..|samples|] == samples;
    ghost var before := out;
    out := sorter.Flush(out);
    assert out == before + out[|before|..];
    var peak, flushes := sorter.TakeStats();
    forced := flushes;
  }
}
