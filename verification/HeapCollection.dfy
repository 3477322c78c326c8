/** The userspace end of the heap events: src/platform/linux/heap.rs. */
module HeapCollection {
  import opened Machine
  import opened CappedGroupBy
  import opened HeapStateModel
  import opened Maps
  import opened ProfileTypes
  import HeapProbes

  type Event = HeapProbes.Event

  const MAX_PENDING_STACKS: nat := 65536
  const EVENT_QUEUE_CAPACITY: nat := 4096

  /** Stacks waiting for their ALLOC record, the live heap, and the counter of lost stacks. */
  datatype Collector = Collector(pendingStacks: map<nat, Stack>, live: Live, stackFailures: nat)

  predicate IsUsable(frames: Stack, ranges: seq<Range>) {
    && frames != []
    && !HasAddressCycle(frames)
    && forall i :: 0 <= i < |frames| ==> Covers(ranges, frames[i])
  }

  function Below(tokens: set<nat>, cutoff: nat): set<nat> {
    set t | t in tokens && t < cutoff
  }

  lemma {:induction false} RankExists(tokens: set<nat>, rank: nat) returns (cutoff: nat)
    requires rank < |tokens|
    ensures cutoff in tokens && |Below(tokens, cutoff)| == rank
    decreases |tokens|
  {
    var top := Greatest(tokens);
    var rest := tokens - {top};
    if rank == |tokens| - 1 {
      cutoff := top;
      assert Below(tokens, top) == rest;
    } else {
      cutoff := RankExists(rest, rank);
      assert Below(tokens, cutoff) == Below(rest, cutoff);
    }
  }

  lemma {:induction false} Greatest(tokens: set<nat>) returns (top: nat)
    requires tokens != {}
    ensures top in tokens && forall t :: t in tokens ==> t <= top
    decreases |tokens|
  {
    var t :| t in tokens;
    var rest := tokens - {t};
    if rest == {} {
      top := t;
      assert tokens == {t};
    } else {
      var u := Greatest(rest);
      top := if t > u then t else u;
      assert tokens == rest + {t};
    }
  }

  lemma RankUnique(tokens: set<nat>, a: nat, b: nat)
    requires a in tokens && b in tokens && |Below(tokens, a)| == |Below(tokens, b)|
    ensures a == b
  {
    if a < b {
      BelowGrows(tokens, a, b);
    } else if b < a {
      BelowGrows(tokens, b, a);
    }
  }

  lemma BelowGrows(tokens: set<nat>, a: nat, b: nat)
    requires a in tokens && a < b
    ensures |Below(tokens, a)| < |Below(tokens, b)|
  {
    assert Below(tokens, b) == Below(tokens, a) + (Below(tokens, b) - Below(tokens, a));
    assert a in Below(tokens, b) - Below(tokens, a);
    assert |Below(tokens, b) - Below(tokens, a)| > 0;
  }

  ghost predicate IsMiddle(tokens: set<nat>, cutoff: nat) {
    cutoff in tokens && |Below(tokens, cutoff)| == |tokens| / 2
  }

  ghost function Middle(tokens: set<nat>): (cutoff: nat)
    requires tokens != {}
    ensures IsMiddle(tokens, cutoff)
  {
    assert exists c :: IsMiddle(tokens, c) by {
      var c := RankExists(tokens, |tokens| / 2);
      assert IsMiddle(tokens, c);
    }
    var cutoff :| IsMiddle(tokens, cutoff);
    cutoff
  }

  /** The newest half of an overfull table of pending stacks. */
  ghost function Pruned(stacks: map<nat, Stack>): map<nat, Stack> {
    if |stacks| > MAX_PENDING_STACKS then map t | t in stacks && t >= Middle(stacks.Keys) :: stacks[t]
    else stacks
  }

  lemma PrunedSize(stacks: map<nat, Stack>)
    ensures Pruned(stacks).Keys <= stacks.Keys && |Pruned(stacks)| <= |stacks|
    ensures |stacks| > MAX_PENDING_STACKS ==> |Pruned(stacks)| == |stacks| - |stacks| / 2
    ensures |stacks| > MAX_PENDING_STACKS
      ==> forall t, u :: t in Pruned(stacks) && u in stacks && u !in Pruned(stacks) ==> u < t
  {
    if |stacks| > MAX_PENDING_STACKS {
      var cutoff := Middle(stacks.Keys);
      assert Pruned(stacks).Keys == stacks.Keys - Below(stacks.Keys, cutoff);
      assert |stacks| == |stacks.Keys| && |Pruned(stacks)| == |Pruned(stacks).Keys|;
    }
  }

  ghost function KeepStack(c: Collector, token: nat, frames: Stack): Collector {
    var stacks := c.pendingStacks[token := frames];
    PrunedSize(stacks);
    assert |Pruned(stacks)| <= |stacks|;
    c.(pendingStacks := Pruned(stacks),
       stackFailures := c.stackFailures + (|stacks| - |Pruned(stacks)|))
  }

  /** `apply_raw_event` on a decoded record. */
  ghost function ApplyRecord(c: Collector, e: Event, ranges: seq<Range>): Collector {
    match e
    case StackRecord(token, frames) =>
      if IsUsable(frames, ranges) then
        KeepStack(c, token, frames)
      else c.(stackFailures := c.stackFailures + 1)
    case AllocRecord(token, pointer, size, weight) =>
      if token in c.pendingStacks then
        c.(pendingStacks := c.pendingStacks - {token},
           live := LiveAfter(c.live, Alloc(pointer, size, weight, c.pendingStacks[token])))
      else c.(stackFailures := c.stackFailures + 1)
    case FreeRecord(_, pointer) =>
      c.(live := LiveAfter(c.live, Free(pointer)))
  }

  ghost function ApplyAll(c: Collector, es: seq<Event>, ranges: seq<Range>): Collector
    decreases |es|
  {
    if es == [] then c else ApplyAll(ApplyRecord(c, es[0], ranges), es[1..], ranges)
  }

  lemma {:induction false} ApplyAllConcat(c: Collector, a: seq<Event>, b: seq<Event>, ranges: seq<Range>)
    ensures ApplyAll(c, a + b, ranges) == ApplyAll(ApplyAll(c, a, ranges), b, ranges)
    decreases |a|
  {
    if a == [] {
      assert a + b == b;
    } else {
      assert (a + b)[0] == a[0] && (a + b)[1..] == a[1..] + b;
      ApplyAllConcat(ApplyRecord(c, a[0], ranges), a[1..], b, ranges);
    }
  }

  /** The allocation one record adds to the window, if any. */
  ghost function Accepted(c: Collector, e: Event): seq<Record<Stack>> {
    if e.AllocRecord? && e.token in c.pendingStacks then
      var alloc := Alloc(e.pointer, e.size, e.weight, c.pendingStacks[e.token]);
      if IsValidAlloc(alloc) then [RecordOf(alloc)] else []
    else []
  }

  ghost function AcceptedAll(c: Collector, es: seq<Event>, ranges: seq<Range>): seq<Record<Stack>>
    decreases |es|
  {
    if es == [] then []
    else
      var n := |es| - 1;
      AcceptedAll(c, es[..n], ranges) + Accepted(ApplyAll(c, es[..n], ranges), es[n])
  }

  lemma AcceptedAllNone(c: Collector, ranges: seq<Range>)
    ensures AcceptedAll(c, [], ranges) == []
  {
  }

  lemma AcceptedAllSnoc(c: Collector, es: seq<Event>, e: Event, ranges: seq<Range>)
    ensures AcceptedAll(c, es + [e], ranges) == AcceptedAll(c, es, ranges) + Accepted(ApplyAll(c, es, ranges), e)
  {
    assert (es + [e])[..|es|] == es;
  }

  /** What `snapshot_window` compares between two snapshots. */
  datatype KernelCounters = KernelCounters(ringbufDrops: nat, mapEvictions: nat)

  function Resynced(live: Live, needed: bool, pointers: set<u64>): Live {
    if needed then map p | p in live && p in pointers :: live[p] else live
  }

  function Delta(current: KernelCounters, earlier: KernelCounters): KernelCounters {
    KernelCounters(
      SaturatingSub(current.ringbufDrops, earlier.ringbufDrops),
      SaturatingSub(current.mapEvictions, earlier.mapEvictions))
  }

  predicate NeedsResync(delta: KernelCounters) {
    delta.mapEvictions != 0 || delta.ringbufDrops != 0
  }

  /** How many of `n` queued records fit in the event queue of one drain. */
  function Admitted(n: nat): nat {
    Min(n, EVENT_QUEUE_CAPACITY)
  }

  class HeapCollector {
    const ranges: seq<Range>
    const state: HeapState
    var receiver: seq<Event>
    var pendingStacks: map<nat, Stack>
    var localStackFailures: nat
    var userspaceDrops: nat
    var previousStats: KernelCounters

    ghost predicate Valid()
      reads this, state
    {
      state.Valid() && Separated(ranges) && SortedByStart(ranges)
    }

    function View(): Collector
      reads this, state
    {
      Collector(pendingStacks, state.live, localStackFailures)
    }

    constructor (maps: seq<MapEntry>, maxStacks: nat, stats: KernelCounters)
      ensures Valid() && fresh(state)
      ensures View() == Collector(map[], map[], 0) && receiver == [] && userspaceDrops == 0
      ensures previousStats == stats
    {
      var merged := FromMaps(maps);
      ranges := merged;
      state := new HeapState.WithMaxStacks(maxStacks);
      receiver, pendingStacks, localStackFailures, userspaceDrops, previousStats := [], map[], 0, 0, stats;
    }

    /** The checks on one decoded stack. */
    method UsableFrames(frames: Stack) returns (usable: bool)
      requires Valid()
      ensures usable <==> IsUsable(frames, ranges)
    {
      var cyclic := FindAddressCycle(frames);
      var invalid := false;
      for i := 0 to |frames|
        invariant invalid <==> exists j :: 0 <= j < i && !Covers(ranges, frames[j])
      {
        var executable := Contains(ranges, frames[i]);
        invalid := invalid || !executable;
      }
      usable := !(frames == [] || cyclic || invalid);
    }

    method ApplyRawEvent(e: Event)
      requires Valid()
      modifies this`pendingStacks, this`localStackFailures, state
      ensures Valid()
      ensures View() == ApplyRecord(old(View()), e, ranges)
      ensures state.history == old(state.history) + Accepted(old(View()), e)
    {
      match e
      case StackRecord(token, frames) =>
        var usable := UsableFrames(frames);
        if !usable {
          localStackFailures := localStackFailures + 1;
        } else {
          PrunedSize(pendingStacks[token := frames]);
          pendingStacks := pendingStacks[token := frames];
          if |pendingStacks| > MAX_PENDING_STACKS {
            PrunePendingStacks();
          }
        }
      case AllocRecord(token, pointer, size, weight) =>
        if token !in pendingStacks {
          localStackFailures := localStackFailures + 1;
          return;
        }
        var frames := pendingStacks[token];
        pendingStacks := pendingStacks - {token};
        state.Apply(Alloc(pointer, size, weight, frames));
      case FreeRecord(_, pointer) =>
        state.Apply(Free(pointer));
    }

    /** Drops every token below the median one. */
    method PrunePendingStacks()
      requires |pendingStacks| > MAX_PENDING_STACKS
      modifies `pendingStacks, `localStackFailures
      ensures pendingStacks == Pruned(old(pendingStacks))
      ensures localStackFailures == old(localStackFailures) + |old(pendingStacks)| - |pendingStacks|
    {
      var before := pendingStacks;
      var tokens := pendingStacks.Keys;
      var middle := |tokens| / 2;
      ghost var witness_ := RankExists(tokens, middle);
      var cutoff :| cutoff in tokens && |Below(tokens, cutoff)| == middle;
      RankUnique(tokens, cutoff, Middle(tokens));
      PrunedSize(before);
      pendingStacks := map t | t in pendingStacks && t >= cutoff :: pendingStacks[t];
      assert pendingStacks == Pruned(before);
      localStackFailures := localStackFailures + (|before| - |pendingStacks|);
    }

    /** The ring callback: every waiting record is offered to the bounded queue. */
    method FillQueue(ring: seq<Event>)
      requires receiver == []
      modifies `receiver, `userspaceDrops
      ensures receiver == ring[..Admitted(|ring|)]
      ensures userspaceDrops == old(userspaceDrops) + (|ring| - Admitted(|ring|))
    {
      for i := 0 to |ring|
        invariant receiver == ring[..Admitted(i)]
        invariant userspaceDrops == old(userspaceDrops) + (i - Admitted(i))
      {
        if |receiver| < EVENT_QUEUE_CAPACITY {
          receiver := receiver + [ring[i]];
        } else {
          userspaceDrops := userspaceDrops + 1;
        }
      }
    }

    /** The receive loop: every queued record is applied, in order. */
    method EmptyQueue()
      requires Valid()
      modifies this`receiver, this`pendingStacks, this`localStackFailures, state
      ensures Valid() && receiver == []
      ensures View() == ApplyAll(old(View()), old(receiver), ranges)
      ensures state.history == old(state.history) + AcceptedAll(old(View()), old(receiver), ranges)
    {
      hide IsIndex, LiveOk, WindowOk, ApplyRecord, Accepted, AcceptedAll, Separated, SortedByStart;
      ghost var start, queued, before := View(), receiver, state.history;
      ghost var applied: seq<Event> := [];
      assert AcceptedAll(start, applied, ranges) == [] by {
        AcceptedAllNone(start, ranges);
      }
      while receiver != []
        invariant Valid()
        invariant applied + receiver == queued
        invariant View() == ApplyAll(start, applied, ranges)
        invariant state.history == before + AcceptedAll(start, applied, ranges)
        decreases |receiver|
      {
        var e := receiver[0];
        receiver := receiver[1..];
        ApplyAllSnoc(start, applied, e, ranges);
        AcceptedAllSnoc(start, applied, e, ranges);
        ApplyRawEvent(e);
        applied := applied + [e];
      }
      assert applied == queued;
    }

    /** `drain`: first the whole ring goes through the queue, then the queue is emptied. Records
        that find the queue full are counted and lost. */
    method Drain(ring: seq<Event>)
      requires Valid() && receiver == []
      modifies this`receiver, this`pendingStacks, this`localStackFailures, this`userspaceDrops, state
      ensures Valid() && receiver == []
      ensures View() == ApplyAll(old(View()), ring[..Admitted(|ring|)], ranges)
      ensures state.history == old(state.history) + AcceptedAll(old(View()), ring[..Admitted(|ring|)], ranges)
      ensures userspaceDrops == old(userspaceDrops) + (|ring| - Admitted(|ring|))
    {
      hide IsIndex, LiveOk, WindowOk, ApplyAll, Separated, SortedByStart;
      FillQueue(ring);
      EmptyQueue();
    }

    /** `snapshot_window`: drain, compare the kernel counters, resync when either moved, then
        snapshot the aggregated heap. `counters` and `pointers` are what the kernel's statistics
        and its `live_samples` map hold at that moment. */
    method SnapshotWindow(ring: seq<Event>, counters: KernelCounters, pointers: set<u64>)
      returns (profile: map<Stack, HeapValues>, drops: HeapAggregationDrops, failures: nat, lost: nat)
      requires Valid() && receiver == []
      modifies this, state
      ensures Valid() && receiver == [] && previousStats == counters
      ensures var drained := ApplyAll(old(View()), ring[..Admitted(|ring|)], ranges);
              && View() == Collector(
                   drained.pendingStacks,
                   Resynced(drained.live, NeedsResync(Delta(counters, old(previousStats))), pointers), 0)
              && failures == drained.stackFailures
      ensures lost == Delta(counters, old(previousStats)).ringbufDrops
        + old(userspaceDrops) + (|ring| - Admitted(|ring|))
      ensures userspaceDrops == 0
      ensures SnapshotSoFar(
        profile, drops,
        old(state.history) + AcceptedAll(old(View()), ring[..Admitted(|ring|)], ranges),
        state.liveTotals, state.liveTotals.Keys, state.maxStacks)
    {
      hide IsIndex, LiveOk, WindowOk, ApplyAll, Separated, SortedByStart, SnapshotSoFar;
      Drain(ring);
      var delta := Delta(counters, previousStats);
      previousStats := counters;
      if delta.mapEvictions != 0 || delta.ringbufDrops != 0 {
        state.RetainLivePointers(pointers);
      }
      failures, localStackFailures := localStackFailures, 0;
      profile, drops := state.SnapshotWindowWithDrops();
      lost := delta.ringbufDrops + userspaceDrops;
      userspaceDrops := 0;
    }

    /** A new executable image: nothing it allocated before is live any more. */
    method ClearForExec()
      requires Valid()
      modifies this, state
      ensures Valid() && View() == Collector(map[], map[], old(localStackFailures))
    {
      pendingStacks := map[];
      state.ClearLive();
    }
  }

  lemma ApplyAllSnoc(c: Collector, es: seq<Event>, e: Event, ranges: seq<Range>)
    ensures ApplyAll(c, es + [e], ranges) == ApplyRecord(ApplyAll(c, es, ranges), e, ranges)
  {
    ApplyAllConcat(c, es, [e], ranges);
    ApplyAllOne(ApplyAll(c, es, ranges), e, ranges);
  }

  lemma ApplyAllOne(c: Collector, e: Event, ranges: seq<Range>)
    ensures ApplyAll(c, [e], ranges) == ApplyRecord(c, e, ranges)
  {
    assert [e][1..] == [];
    assert ApplyAll(ApplyRecord(c, e, ranges), [], ranges) == ApplyRecord(c, e, ranges);
  }

  /** An ALLOC record whose stack waits and whose block, size and weight are there enters the window once,
      under that stack, with its weight and the space that size and weight stand for; nothing else does. */
  lemma AcceptedMeans(c: Collector, e: Event)
    ensures var r, enters := Accepted(c, e),
                             e.AllocRecord? && e.token in c.pendingStacks && e.pointer != 0 && e.size != 0 && e.weight != 0;
            && (!enters ==> r == [])
            && (enters ==>
                  && |r| == 1 && r[0].key == c.pendingStacks[e.token] && r[0].first == e.weight
                  && r[0].second == Min(e.size * e.weight, U64_MAX))
  {
  }
}
