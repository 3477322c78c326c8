/** Userspace reconstruction of the live heap: src/heap/state.rs. */
module HeapStateModel {
  import opened Machine
  import opened Sums
  import opened CappedGroupBy

  type Stack = seq<u64>

  datatype HeapEvent =
    | Alloc(pointer: u64, size: u64, weight: u64, frames: Stack)
    | Free(pointer: u64)

  datatype LiveAllocation = LiveAllocation(weight: nat, weightedSpace: nat, stack: Stack)
  datatype LiveTotals = LiveTotals(objects: nat, space: nat)
  datatype HeapValues = HeapValues(allocObjects: nat, allocSpace: nat, inuseObjects: nat, inuseSpace: nat)
  datatype HeapAggregationDrops =
    HeapAggregationDrops(allocObjects: nat, allocSpace: nat, inuseObjects: nat, inuseSpace: nat)

  type Live = map<u64, LiveAllocation>

  /** The events `allocate` does not ignore. */
  predicate IsValidAlloc(e: HeapEvent) {
    e.Alloc? && e.pointer != 0 && e.size != 0 && e.weight != 0
  }

  function WeightedSpace(e: HeapEvent): nat
    requires e.Alloc?
  {
    SatU64(e.size * e.weight)
  }

  function AllocationOf(e: HeapEvent): LiveAllocation
    requires e.Alloc?
  {
    LiveAllocation(e.weight, WeightedSpace(e), e.frames)
  }

  /** Pointer identity: what the live map must be after an event. */
  function LiveAfter(live: Live, e: HeapEvent): Live {
    if IsValidAlloc(e) then live[e.pointer := AllocationOf(e)]
    else if e.Free? then live - {e.pointer}
    else live
  }

  predicate LiveOk(live: Live) {
    forall p :: p in live ==> p != 0 && 1 <= live[p].weight <= U64_MAX && 1 <= live[p].weightedSpace <= U64_MAX
  }

  ghost function Weights(live: Live): map<u64, nat> {
    map p | p in live :: live[p].weight
  }

  ghost function Spaces(live: Live): map<u64, nat> {
    map p | p in live :: live[p].weightedSpace
  }

  /** The live allocations made on one stack. */
  ghost function On(live: Live, s: Stack): Live {
    map p | p in live && live[p].stack == s :: live[p]
  }

  ghost predicate HasStack(live: Live, s: Stack) {
    exists p :: p in live && live[p].stack == s
  }

  ghost function TotalsOn(live: Live, s: Stack): LiveTotals {
    LiveTotals(Total(Weights(On(live, s))), Total(Spaces(On(live, s))))
  }

  /** `totals` is the per-stack index of `live`: one entry for every stack with a live
      allocation, holding the exact sums. */
  ghost predicate IsIndex(totals: map<Stack, LiveTotals>, live: Live) {
    && (forall s {:trigger s in totals} :: s in totals <==> HasStack(live, s))
    && (forall s {:trigger totals[s]} :: s in totals ==> totals[s] == TotalsOn(live, s))
  }

  lemma OnInsert(live: Live, p: u64, a: LiveAllocation, s: Stack)
    requires p !in live
    ensures On(live[p := a], s) == if a.stack == s then On(live, s)[p := a] else On(live, s)
    ensures HasStack(live[p := a], s) <==> a.stack == s || HasStack(live, s)
  {
    if HasStack(live, s) {
      var q :| q in live && live[q].stack == s;
      assert live[p := a][q].stack == s;
    }
    if a.stack == s {
      assert live[p := a][p].stack == s;
    }
  }

  lemma TotalsInsert(live: Live, p: u64, a: LiveAllocation)
    requires p !in live
    ensures Total(Weights(live[p := a])) == Total(Weights(live)) + a.weight
    ensures Total(Spaces(live[p := a])) == Total(Spaces(live)) + a.weightedSpace
  {
    assert Weights(live[p := a]) == Weights(live)[p := a.weight];
    assert Spaces(live[p := a]) == Spaces(live)[p := a.weightedSpace];
    TotalUpdate(Weights(live), p, a.weight);
    TotalUpdate(Spaces(live), p, a.weightedSpace);
  }

  lemma OnUpdate(live: Live, p: u64, a: LiveAllocation, s: Stack)
    requires p !in live
    ensures HasStack(live[p := a], s) <==> a.stack == s || HasStack(live, s)
    ensures TotalsOn(live[p := a], s) == if a.stack == s
      then LiveTotals(TotalsOn(live, s).objects + a.weight, TotalsOn(live, s).space + a.weightedSpace)
      else TotalsOn(live, s)
  {
    hide Total, Weights, Spaces;
    OnInsert(live, p, a, s);
    if a.stack == s {
      TotalsInsert(On(live, s), p, a);
    }
  }

  /** A stack has a live allocation exactly when its object total is not zero. */
  lemma PositiveTotals(live: Live, s: Stack)
    requires LiveOk(live)
    ensures HasStack(live, s) <==> TotalsOn(live, s).objects != 0
    ensures HasStack(live, s) <==> TotalsOn(live, s).space != 0
  {
    TotalZero(Weights(On(live, s)));
    TotalZero(Spaces(On(live, s)));
    if HasStack(live, s) {
      var p :| p in live && live[p].stack == s;
      assert p in Weights(On(live, s)) && p in Spaces(On(live, s));
    }
  }

  /** No live heap can push a 128-bit total to its ceiling: at most `2^64 - 1` non-zero
      pointers, each weighing less than `2^64`. */
  lemma TotalsFit(live: Live, s: Stack)
    requires LiveOk(live)
    ensures TotalsOn(live, s).objects <= U128_MAX && TotalsOn(live, s).space <= U128_MAX
  {
    var part := On(live, s);
    assert Weights(part).Keys == part.Keys && Spaces(part).Keys == part.Keys;
    SetBound(part.Keys, 1, U64_MAX + 1);
    TotalBound(Weights(part), U64_MAX);
    TotalBound(Spaces(part), U64_MAX);
    Square(|part|, U64_MAX);
    assert U64_MAX * U64_MAX <= U128_MAX;
  }

  lemma Square(n: nat, m: nat)
    requires n <= m
    ensures m * n <= m * m
  {
  }

  /** `remove_live_totals`. */
  function WithoutTotals(totals: map<Stack, LiveTotals>, a: LiveAllocation): map<Stack, LiveTotals> {
    if a.stack in totals then
      var t := LiveTotals(
                 SaturatingSub(totals[a.stack].objects, a.weight),
                 SaturatingSub(totals[a.stack].space, a.weightedSpace));
      if t.objects == 0 && t.space == 0 then totals - {a.stack} else totals[a.stack := t]
    else totals
  }

  /** `entry(stack).or_default()` followed by the two saturating additions. */
  function WithTotals(totals: map<Stack, LiveTotals>, a: LiveAllocation): map<Stack, LiveTotals> {
    var t := if a.stack in totals then totals[a.stack] else LiveTotals(0, 0);
    totals[a.stack := LiveTotals(
      SatU128(t.objects + a.weight),
      SatU128(t.space + a.weightedSpace))]
  }

  /** The same insertion with unbounded additions. */
  ghost function WithExactTotals(totals: map<Stack, LiveTotals>, a: LiveAllocation): map<Stack, LiveTotals> {
    var t := if a.stack in totals then totals[a.stack] else LiveTotals(0, 0);
    totals[a.stack := LiveTotals(t.objects + a.weight, t.space + a.weightedSpace)]
  }

  /** Neither 128-bit addition ever clamps. */
  lemma TotalsNeverClamp(totals: map<Stack, LiveTotals>, live: Live, p: u64, a: LiveAllocation)
    requires IsIndex(totals, live) && p !in live && LiveOk(live[p := a])
    ensures WithTotals(totals, a) == WithExactTotals(totals, a)
  {
    var s := a.stack;
    assert LiveOk(live) by {
      assert forall q :: q in live ==> live[q] == live[p := a][q];
    }
    TotalsFit(live[p := a], s);
    OnUpdate(live, p, a, s);
    PositiveTotals(live, s);
    assert s in totals <==> HasStack(live, s);
  }

  lemma IndexWith(totals: map<Stack, LiveTotals>, live: Live, p: u64, a: LiveAllocation)
    requires IsIndex(totals, live) && p !in live && LiveOk(live[p := a])
    ensures IsIndex(WithTotals(totals, a), live[p := a])
  {
    assert LiveOk(live) by {
      assert forall q :: q in live ==> live[q] == live[p := a][q];
    }
    TotalsNeverClamp(totals, live, p, a);
    PositiveTotals(live, a.stack);
    var after := WithExactTotals(totals, a);
    forall s
      ensures s in after <==> HasStack(live[p := a], s)
      ensures s in after ==> after[s] == TotalsOn(live[p := a], s)
    {
      OnUpdate(live, p, a, s);
    }
  }

  /** Removing one allocation changes the entry of its stack and no other. */
  lemma WithoutAt(totals: map<Stack, LiveTotals>, live: Live, p: u64, s: Stack)
    requires LiveOk(live) && p in live && IsIndex(totals, live)
    ensures var less := WithoutTotals(totals, live[p]);
            && (s in less <==> HasStack(live - {p}, s))
            && (s in less ==> less[s] == TotalsOn(live - {p}, s))
  {
    hide Total, TotalsOn, HasStack;
    var a, rest := live[p], live - {p};
    assert live == rest[p := a];
    OnUpdate(rest, p, a, s);
    PositiveTotals(rest, s);
    assert s in totals <==> HasStack(live, s);
    assert s in totals ==> totals[s] == TotalsOn(live, s);
  }

  lemma IndexWithout(totals: map<Stack, LiveTotals>, live: Live, p: u64)
    requires LiveOk(live) && p in live && IsIndex(totals, live)
    ensures IsIndex(WithoutTotals(totals, live[p]), live - {p})
  {
    hide Total, TotalsOn, HasStack, WithoutTotals;
    forall s {
      WithoutAt(totals, live, p, s);
    }
  }

  lemma IndexUnique(t: map<Stack, LiveTotals>, u: map<Stack, LiveTotals>, live: Live)
    requires IsIndex(t, live) && IsIndex(u, live)
    ensures t == u
  {
    assert forall s :: s in t <==> s in u;
  }

  ghost function IndexObjects(totals: map<Stack, LiveTotals>): map<Stack, nat> {
    map s | s in totals :: totals[s].objects
  }

  ghost function IndexSpaces(totals: map<Stack, LiveTotals>): map<Stack, nat> {
    map s | s in totals :: totals[s].space
  }

  /** The index distributes the live heap over its stacks without loss. */
  lemma {:induction false} IndexTotals(totals: map<Stack, LiveTotals>, live: Live)
    requires LiveOk(live) && IsIndex(totals, live)
    ensures Total(IndexObjects(totals)) == Total(Weights(live))
    ensures Total(IndexSpaces(totals)) == Total(Spaces(live))
    decreases |live|
  {
    if live == map[] {
      EmptyIndex(totals, live);
    } else {
      var p :| p in live;
      Smaller(live, p);
      assert LiveOk(live - {p});
      IndexWithout(totals, live, p);
      IndexTotals(WithoutTotals(totals, live[p]), live - {p});
      RemovalTotals(totals, live, p);
      LiveTotalsRemove(live, p);
    }
  }

  lemma EmptyIndex(totals: map<Stack, LiveTotals>, live: Live)
    requires live == map[] && IsIndex(totals, live)
    ensures IndexObjects(totals) == map[] && IndexSpaces(totals) == map[]
    ensures Weights(live) == map[] && Spaces(live) == map[]
  {
    assert forall s :: s !in totals;
  }

  lemma LiveTotalsRemove(live: Live, p: u64)
    requires p in live
    ensures Total(Weights(live)) == Total(Weights(live - {p})) + live[p].weight
    ensures Total(Spaces(live)) == Total(Spaces(live - {p})) + live[p].weightedSpace
  {
    assert live == (live - {p})[p := live[p]];
    TotalsInsert(live - {p}, p, live[p]);
  }

  lemma RemovedEntry(totals: map<Stack, LiveTotals>, live: Live, p: u64)
    requires LiveOk(live) && IsIndex(totals, live) && p in live
    ensures var less, s := WithoutTotals(totals, live[p]), live[p].stack;
            && At(IndexObjects(totals), s) == At(IndexObjects(less), s) + live[p].weight
            && At(IndexSpaces(totals), s) == At(IndexSpaces(less), s) + live[p].weightedSpace
  {
    var s, rest := live[p].stack, live - {p};
    assert HasStack(live, s);
    assert live == rest[p := live[p]];
    OnUpdate(rest, p, live[p], s);
    PositiveTotals(rest, s);
  }

  lemma OneEntryDiffers(t: map<Stack, LiveTotals>, u: map<Stack, LiveTotals>, s: Stack)
    requires t - {s} == u - {s}
    ensures Total(IndexObjects(t)) + At(IndexObjects(u), s) == Total(IndexObjects(u)) + At(IndexObjects(t), s)
    ensures Total(IndexSpaces(t)) + At(IndexSpaces(u), s) == Total(IndexSpaces(u)) + At(IndexSpaces(t), s)
  {
    assert IndexObjects(t) - {s} == IndexObjects(t - {s}) == IndexObjects(u) - {s};
    assert IndexSpaces(t) - {s} == IndexSpaces(t - {s}) == IndexSpaces(u) - {s};
    TotalAt(IndexObjects(t), s);
    TotalAt(IndexObjects(u), s);
    TotalAt(IndexSpaces(t), s);
    TotalAt(IndexSpaces(u), s);
  }

  lemma WithoutTouchesOne(totals: map<Stack, LiveTotals>, a: LiveAllocation)
    ensures totals - {a.stack} == WithoutTotals(totals, a) - {a.stack}
  {
  }

  lemma RemovalTotals(totals: map<Stack, LiveTotals>, live: Live, p: u64)
    requires LiveOk(live) && IsIndex(totals, live) && p in live
    ensures var less := WithoutTotals(totals, live[p]);
            && Total(IndexObjects(totals)) == Total(IndexObjects(less)) + live[p].weight
            && Total(IndexSpaces(totals)) == Total(IndexSpaces(less)) + live[p].weightedSpace
  {
    var s, less := live[p].stack, WithoutTotals(totals, live[p]);
    RemovedEntry(totals, live, p);
    WithoutTouchesOne(totals, live[p]);
    OneEntryDiffers(totals, less, s);
  }

  function RecordOf(e: HeapEvent): Record<Stack>
    requires e.Alloc?
  {
    Record(e.frames, e.weight, WeightedSpace(e))
  }

  /** Allocation columns of a window, in-use columns still zero. */
  function WindowOf(table: map<Stack, Pair>): map<Stack, HeapValues> {
    map s | s in table :: HeapValues(table[s].first, table[s].second, 0, 0)
  }

  function AllocDrops(p: Pair): HeapAggregationDrops {
    HeapAggregationDrops(p.first, p.second, 0, 0)
  }

  function ClampTotals(t: LiveTotals): Pair {
    Clamp(Pair(t.objects, t.space))
  }

  lemma WeightedSpaceRange(e: HeapEvent)
    requires IsValidAlloc(e)
    ensures 1 <= WeightedSpace(e) <= U64_MAX
  {
    assert e.size * e.weight >= 1;
  }

  /** One in-use column of a snapshot under construction. */
  ghost function InuseObjects(values: map<Stack, HeapValues>): map<Stack, nat> {
    map s | s in values :: values[s].inuseObjects
  }

  ghost function InuseSpaces(values: map<Stack, HeapValues>): map<Stack, nat> {
    map s | s in values :: values[s].inuseSpace
  }

  ghost function AllocObjects(values: map<Stack, HeapValues>): map<Stack, nat> {
    map s | s in values :: values[s].allocObjects
  }

  ghost function AllocSpaces(values: map<Stack, HeapValues>): map<Stack, nat> {
    map s | s in values :: values[s].allocSpace
  }

  ghost function Part<V>(m: map<Stack, V>, keys: set<Stack>): map<Stack, V> {
    map s | s in m && s in keys :: m[s]
  }

  /** What one snapshot must show, whatever order the index is walked in: `window` are the
      allocation columns taken, `totals` the index, `done` the part already walked. */
  ghost predicate SnapshotShape(values: map<Stack, HeapValues>, window: map<Stack, Pair>,
                                totals: map<Stack, LiveTotals>, done: set<Stack>, cap: nat)
  {
    && done <= totals.Keys
    && |values| <= cap
    && window.Keys <= values.Keys <= window.Keys + done
    && (forall s :: s in values ==> values[s] == ShownValues(window, totals, done, s))
    && (done - values.Keys != {} ==> |values| == cap)
  }

  ghost function ShownValues(window: map<Stack, Pair>, totals: map<Stack, LiveTotals>,
                             done: set<Stack>, s: Stack): HeapValues
    requires done <= totals.Keys
  {
    var alloc := if s in window then window[s] else Pair(0, 0);
    var inuse := if s in done then ClampTotals(totals[s]) else Pair(0, 0);
    HeapValues(alloc.first, alloc.second, inuse.first, inuse.second)
  }

  /** Absent `i64` saturation, one in-use column plus its drops is the walked part of the index. */
  ghost predicate Balanced(column: map<Stack, nat>, drops: nat, index: map<Stack, nat>, done: set<Stack>) {
    Total(index) <= I64_MAX ==> Total(column) + drops == Total(Part(index, done))
  }

  /** The loop body of `snapshot_window_with_drops` for one indexed stack. */
  function ShowStack(values: map<Stack, HeapValues>, s: Stack, t: LiveTotals, cap: nat): map<Stack, HeapValues> {
    if s in values then
      values[s := values[s].(inuseObjects := SatI64(t.objects), inuseSpace := SatI64(t.space))]
    else if |values| < cap then values[s := HeapValues(0, 0, SatI64(t.objects), SatI64(t.space))]
    else values
  }

  lemma PartTotal(m: map<Stack, nat>, done: set<Stack>, s: Stack)
    requires s in m && s !in done
    ensures Total(Part(m, done + {s})) == Total(Part(m, done)) + m[s]
    ensures Total(Part(m, done + {s})) <= Total(m)
  {
    assert Part(m, done + {s}) == Part(m, done)[s := m[s]];
    TotalUpdate(Part(m, done), s, m[s]);
    PartAtMost(m, done + {s});
  }

  lemma {:induction false} PartAtMost(m: map<Stack, nat>, keys: set<Stack>)
    ensures Total(Part(m, keys)) <= Total(m)
    decreases |m|
  {
    if m == map[] {
      assert Part(m, keys) == map[];
    } else {
      var k :| k in m;
      Smaller(m, k);
      PartAtMost(m - {k}, keys);
      TotalRemove(m, k);
      if k in keys {
        assert Part(m, keys) - {k} == Part(m - {k}, keys);
        TotalRemove(Part(m, keys), k);
      } else {
        assert Part(m, keys) == Part(m - {k}, keys);
      }
    }
  }

  lemma BalancedStep(column: map<Stack, nat>, drops: nat, index: map<Stack, nat>, done: set<Stack>, s: Stack)
    requires Balanced(column, drops, index, done)
    requires s in index && s !in done && At(column, s) == 0
    ensures Balanced(column[s := SatI64(index[s])], drops, index, done + {s})
    ensures Balanced(column, SatI64(drops + SatI64(index[s])), index, done + {s})
  {
    PartTotal(index, done, s);
    TotalUpdate(column, s, SatI64(index[s]));
  }

  lemma ShapeValues(values: map<Stack, HeapValues>, window: map<Stack, Pair>,
                    totals: map<Stack, LiveTotals>, done: set<Stack>, cap: nat, s: Stack, k: Stack)
    requires SnapshotShape(values, window, totals, done, cap)
    requires s in totals && s !in done
    requires k in ShowStack(values, s, totals[s], cap)
    ensures ShowStack(values, s, totals[s], cap)[k] == ShownValues(window, totals, done + {s}, k)
  {
    if k in values {
      assert values[k] == ShownValues(window, totals, done, k);
    }
  }

  lemma ShowStackKeys(values: map<Stack, HeapValues>, s: Stack, t: LiveTotals, cap: nat)
    requires |values| <= cap
    ensures var after := ShowStack(values, s, t, cap);
            && after.Keys == (if s in after then values.Keys + {s} else values.Keys)
            && |after| <= cap
            && |values| <= |after|
            && (s !in after ==> |after| == cap && s !in values)
  {
  }

  lemma KeysStep(w: set<Stack>, v: set<Stack>, v': set<Stack>, done: set<Stack>, s: Stack)
    requires w <= v <= w + done
    requires v' == v || v' == v + {s}
    ensures w <= v' <= w + (done + {s})
    ensures (done + {s}) - v' != {} ==> done - v != {} || s !in v'
  {
    if s in v' && done - v == {} {
      assert (done + {s}) - v' == {};
    }
  }

  lemma ShapeKeys(values: map<Stack, HeapValues>, window: map<Stack, Pair>,
                  totals: map<Stack, LiveTotals>, done: set<Stack>, cap: nat, s: Stack)
    requires SnapshotShape(values, window, totals, done, cap)
    requires s in totals && s !in done
    ensures var after := ShowStack(values, s, totals[s], cap);
            && window.Keys <= after.Keys <= window.Keys + (done + {s})
            && |after| <= cap
            && ((done + {s}) - after.Keys != {} ==> |after| == cap)
  {
    hide ShowStack, ShownValues;
    ShowStackKeys(values, s, totals[s], cap);
    KeysStep(window.Keys, values.Keys, ShowStack(values, s, totals[s], cap).Keys, done, s);
  }

  lemma ShapeStep(values: map<Stack, HeapValues>, window: map<Stack, Pair>,
                  totals: map<Stack, LiveTotals>, done: set<Stack>, cap: nat, s: Stack)
    requires SnapshotShape(values, window, totals, done, cap)
    requires s in totals && s !in done
    ensures SnapshotShape(ShowStack(values, s, totals[s], cap), window, totals, done + {s}, cap)
  {
    hide ShowStack, ShownValues;
    ShapeKeys(values, window, totals, done, cap, s);
    forall k | k in ShowStack(values, s, totals[s], cap)
      ensures ShowStack(values, s, totals[s], cap)[k] == ShownValues(window, totals, done + {s}, k)
    {
      ShapeValues(values, window, totals, done, cap, s, k);
    }
  }

  /** The window columns are the capped group-by of the allocations accepted so far. */
  ghost predicate WindowOk(window: map<Stack, HeapValues>, drops: HeapAggregationDrops,
                           history: seq<Record<Stack>>, cap: nat)
  {
    && window == WindowOf(Capped(history, cap))
    && drops == AllocDrops(Clamp(Sum(Dropped(history, cap))))
  }

  /** The first two branches of `allocate` on the window columns. */
  function Counted(window: map<Stack, HeapValues>, r: Record<Stack>, cap: nat): map<Stack, HeapValues> {
    var s, amount := r.key, Clamp(r.Amount());
    if s in window then
      window[s := window[s].(
        allocObjects := SatI64(window[s].allocObjects + amount.first),
        allocSpace := SatI64(window[s].allocSpace + amount.second))]
    else if |window| < cap then window[s := HeapValues(amount.first, amount.second, 0, 0)]
    else window
  }

  /** Its last branch, on the drop counters. */
  function DropCounted(drops: HeapAggregationDrops, r: Record<Stack>): HeapAggregationDrops {
    var amount := Clamp(r.Amount());
    drops.(
      allocObjects := SatI64(drops.allocObjects + amount.first),
      allocSpace := SatI64(drops.allocSpace + amount.second))
  }

  lemma CountedIsCredit(table: map<Stack, Pair>, r: Record<Stack>, cap: nat)
    ensures Counted(WindowOf(table), r, cap) == WindowOf(Credit(table, r, cap))
  {
    assert WindowOf(table).Keys == table.Keys;
  }

  lemma DropCountedIsSum(gone: seq<Record<Stack>>, r: Record<Stack>)
    ensures DropCounted(AllocDrops(Clamp(Sum(gone))), r) == AllocDrops(Clamp(Sum(gone + [r])))
  {
    SumStep(gone, r);
    ClampPlus(Sum(gone), r.Amount());
  }

  /** The three-way branch of `allocate` is one step of the capped group-by. */
  lemma WindowStep(window: map<Stack, HeapValues>, drops: HeapAggregationDrops,
                   history: seq<Record<Stack>>, cap: nat, r: Record<Stack>)
    requires WindowOk(window, drops, history, cap)
    ensures r.key in window || |window| < cap
      ==> WindowOk(Counted(window, r, cap), drops, history + [r], cap)
    ensures r.key !in window && |window| >= cap
      ==> WindowOk(window, DropCounted(drops, r), history + [r], cap)
  {
    hide Capped, Dropped, Counted, DropCounted, Sum, Clamp;
    Step(history, r, cap);
    CountedIsCredit(Capped(history, cap), r, cap);
    DropCountedIsSum(Dropped(history, cap), r);
    assert window.Keys == Capped(history, cap).Keys;
    assert |window| == |window.Keys| == |Capped(history, cap)|;
    assert Dropped(history, cap) + [] == Dropped(history, cap);
  }

  lemma TrackedOk(live: Live, e: HeapEvent)
    requires LiveOk(live) && IsValidAlloc(e)
    ensures LiveOk(live[e.pointer := AllocationOf(e)])
  {
    WeightedSpaceRange(e);
  }

  class HeapState {
    var live: Live
    var windowAllocations: map<Stack, HeapValues>
    var liveTotals: map<Stack, LiveTotals>
    const maxStacks: nat
    var aggregationDrops: HeapAggregationDrops
    /** The allocations accepted since the last snapshot. */
    ghost var history: seq<Record<Stack>>

    ghost predicate Valid()
      reads this
    {
      && LiveOk(live)
      && IsIndex(liveTotals, live)
      && WindowOk(windowAllocations, aggregationDrops, history, maxStacks)
    }

    constructor WithMaxStacks(maxStacks: nat)
      ensures Valid()
      ensures this.maxStacks == maxStacks && live == map[] && history == []
    {
      this.maxStacks := maxStacks;
      live, windowAllocations, liveTotals := map[], map[], map[];
      aggregationDrops := HeapAggregationDrops(0, 0, 0, 0);
      history := [];
      new;
      Empty<Stack>(maxStacks);
    }

    method Apply(event: HeapEvent)
      requires Valid()
      modifies this
      ensures Valid()
      ensures live == LiveAfter(old(live), event)
      ensures history == old(history) + (if IsValidAlloc(event) then [RecordOf(event)] else [])
    {
      match event
      case Alloc(_, _, _, _) =>
        Allocate(event);
      case Free(pointer) =>
        Release(pointer);
    }

    method Release(pointer: u64)
      requires LiveOk(live) && IsIndex(liveTotals, live)
      modifies `live, `liveTotals
      ensures LiveOk(live) && IsIndex(liveTotals, live)
      ensures live == old(live) - {pointer}
    {
      if pointer in live {
        var allocation := live[pointer];
        RemoveLiveTotals(allocation, live, pointer);
        live := live - {pointer};
      } else {
        assert live - {pointer} == live;
      }
    }

    method Allocate(event: HeapEvent)
      requires Valid() && event.Alloc?
      modifies this
      ensures Valid()
      ensures live == LiveAfter(old(live), event)
      ensures history == old(history) + (if IsValidAlloc(event) then [RecordOf(event)] else [])
    {
      if event.pointer == 0 || event.size == 0 || event.weight == 0 {
        return;
      }
      var weightedSpace := SatU64(event.size * event.weight);
      CountWindow(event.frames, event.weight, weightedSpace);
      Track(event.pointer, AllocationOf(event), event);
    }

    /** The live half of `allocate`: a reused pointer first gives back what it held. */
    method Track(pointer: u64, allocation: LiveAllocation, ghost event: HeapEvent)
      requires LiveOk(live) && IsIndex(liveTotals, live)
      requires IsValidAlloc(event) && pointer == event.pointer && allocation == AllocationOf(event)
      modifies `live, `liveTotals
      ensures LiveOk(live) && IsIndex(liveTotals, live)
      ensures live == old(live)[pointer := allocation]
    {
      TrackedOk(live, event);
      ghost var before, rest := live, live - {pointer};
      assert rest[pointer := allocation] == live[pointer := allocation];
      if pointer in live {
        var previous := live[pointer];
        live := live[pointer := allocation];
        RemoveLiveTotals(previous, before, pointer);
      } else {
        assert rest == live;
        live := live[pointer := allocation];
      }
      IndexWith(liveTotals, rest, pointer, allocation);
      AddLiveTotals(allocation);
    }

    /** The window half of `allocate`: a capped group-by on the stack. */
    method CountWindow(stack: Stack, weight: nat, weightedSpace: nat)
      requires WindowOk(windowAllocations, aggregationDrops, history, maxStacks)
      modifies `windowAllocations, `aggregationDrops, `history
      ensures WindowOk(windowAllocations, aggregationDrops, history, maxStacks)
      ensures history == old(history) + [Record(stack, weight, weightedSpace)]
    {
      hide WindowOk;
      ghost var r := Record(stack, weight, weightedSpace);
      ghost var next, dropped := Counted(windowAllocations, r, maxStacks), DropCounted(aggregationDrops, r);
      WindowStep(windowAllocations, aggregationDrops, history, maxStacks, r);
      var allocObjects := SatI64(weight);
      var allocSpace := SatI64(weightedSpace);
      if stack in windowAllocations {
        var values := windowAllocations[stack];
        windowAllocations := windowAllocations[stack := values.(
          allocObjects := SatI64(values.allocObjects + allocObjects),
          allocSpace := SatI64(values.allocSpace + allocSpace))];
        assert windowAllocations == next;
      } else if |windowAllocations| < maxStacks {
        windowAllocations := windowAllocations[stack := HeapValues(allocObjects, allocSpace, 0, 0)];
        assert windowAllocations == next;
      } else {
        aggregationDrops := aggregationDrops.(
          allocObjects := SatI64(aggregationDrops.allocObjects + allocObjects),
          allocSpace := SatI64(aggregationDrops.allocSpace + allocSpace));
        assert aggregationDrops == dropped;
      }
      history := history + [r];
    }

    method AddLiveTotals(allocation: LiveAllocation)
      modifies `liveTotals
      ensures liveTotals == WithTotals(old(liveTotals), allocation)
    {
      var totals := if allocation.stack in liveTotals then liveTotals[allocation.stack] else LiveTotals(0, 0);
      totals := totals.(objects := SatU128(totals.objects + allocation.weight));
      totals := totals.(space := SatU128(totals.space + allocation.weightedSpace));
      liveTotals := liveTotals[allocation.stack := totals];
    }

    /** Takes the allocation at `pointer` out of the sums over `before`. */
    method RemoveLiveTotals(allocation: LiveAllocation, ghost before: Live, ghost pointer: u64)
      requires LiveOk(before) && pointer in before && before[pointer] == allocation
      requires IsIndex(liveTotals, before)
      modifies `liveTotals
      ensures IsIndex(liveTotals, before - {pointer})
    {
      IndexWithout(liveTotals, before, pointer);
      ghost var less := WithoutTotals(liveTotals, allocation);
      var remove := false;
      if allocation.stack in liveTotals {
        var totals := liveTotals[allocation.stack];
        totals := totals.(objects := SaturatingSub(totals.objects, allocation.weight));
        totals := totals.(space := SaturatingSub(totals.space, allocation.weightedSpace));
        liveTotals := liveTotals[allocation.stack := totals];
        remove := totals.objects == 0 && totals.space == 0;
      }
      if remove {
        liveTotals := liveTotals - {allocation.stack};
      }
      assert liveTotals == less;
      hide IsIndex;
    }

    method ClearLive()
      requires Valid()
      modifies this
      ensures Valid() && live == map[] && history == old(history)
    {
      live, liveTotals := map[], map[];
    }

    method RetainLivePointers(pointers: set<u64>)
      requires Valid()
      modifies this
      ensures Valid()
      ensures live == map p | p in old(live) && p in pointers :: old(live)[p]
      ensures history == old(history)
    {
      hide IsIndex, WindowOk;
      live := map p | p in live && p in pointers :: live[p];
      RebuildLiveTotals();
    }

    /** Recomputes the index from the live map, in any order. Where the index was already
        right it comes back unchanged. */
    method RebuildLiveTotals()
      requires LiveOk(live)
      modifies `liveTotals
      ensures IsIndex(liveTotals, live)
      ensures IsIndex(old(liveTotals), live) ==> liveTotals == old(liveTotals)
    {
      ghost var before := liveTotals;
      hide Total, TotalsOn;
      liveTotals := map[];
      var pointers := live.Keys;
      ghost var seen: Live := map[];
      while pointers != {}
        invariant pointers <= live.Keys
        invariant seen == map p | p in live && p !in pointers :: live[p]
        invariant IsIndex(liveTotals, seen)
        decreases |pointers|
      {
        var p :| p in pointers;
        assert LiveOk(seen[p := live[p]]);
        IndexWith(liveTotals, seen, p, live[p]);
        AddLiveTotals(live[p]);
        pointers := pointers - {p};
        seen := seen[p := live[p]];
      }
      assert seen == live;
      if IsIndex(before, live) {
        IndexUnique(before, liveTotals, live);
      }
    }

    /** `snapshot_window_with_drops`: the index may be walked in any order. */
    method SnapshotWindowWithDrops()
      returns (values: map<Stack, HeapValues>, drops: HeapAggregationDrops)
      requires Valid()
      modifies this
      ensures Valid() && live == old(live) && liveTotals == old(liveTotals) && history == []
      ensures SnapshotSoFar(values, drops, old(history), liveTotals, liveTotals.Keys, maxStacks)
    {
      hide IsIndex, LiveOk, WindowOk, SnapshotSoFar;
      SnapshotStart(windowAllocations, aggregationDrops, history, liveTotals, maxStacks);
      values, windowAllocations := windowAllocations, map[];
      drops, aggregationDrops := aggregationDrops, HeapAggregationDrops(0, 0, 0, 0);
      history := [];
      var stacks := liveTotals.Keys;
      ghost var done: set<Stack> := {};
      while stacks != {}
        invariant live == old(live) && liveTotals == old(liveTotals)
        invariant WindowOk(windowAllocations, aggregationDrops, history, maxStacks) && history == []
        invariant stacks <= liveTotals.Keys && done == liveTotals.Keys - stacks
        invariant SnapshotSoFar(values, drops, old(history), liveTotals, done, maxStacks)
        decreases |stacks|
      {
        var stack :| stack in stacks;
        var totals := liveTotals[stack];
        var inuseObjects := SatI64(totals.objects);
        var inuseSpace := SatI64(totals.space);
        SnapshotProgress(values, drops, old(history), liveTotals, done, maxStacks, stack);
        ghost var next := ShowStep(values, drops, stack, totals, maxStacks);
        if stack in values {
          values := values[stack := values[stack].(inuseObjects := inuseObjects, inuseSpace := inuseSpace)];
          assert values == next.0 && drops == next.1;
        } else if |values| < maxStacks {
          values := values[stack := HeapValues(0, 0, inuseObjects, inuseSpace)];
          assert values == next.0 && drops == next.1;
        } else {
          drops := drops.(
            inuseObjects := SatI64(drops.inuseObjects + inuseObjects),
            inuseSpace := SatI64(drops.inuseSpace + inuseSpace));
          assert values == next.0 && drops == next.1;
        }
        stacks := stacks - {stack};
        done := done + {stack};
      }
      assert done == liveTotals.Keys;
    }
  }

  /** Taking the window columns starts a snapshot and leaves an empty window behind. */
  lemma SnapshotStart(window: map<Stack, HeapValues>, drops: HeapAggregationDrops,
                      history: seq<Record<Stack>>, totals: map<Stack, LiveTotals>, cap: nat)
    requires WindowOk(window, drops, history, cap)
    ensures SnapshotSoFar(window, drops, history, totals, {}, cap)
    ensures WindowOk(map[], HeapAggregationDrops(0, 0, 0, 0), [], cap)
  {
    var table := Capped(history, cap);
    assert window.Keys == table.Keys;
    assert |window| == |window.Keys| == |table|;
    CappedSize(history, cap);
    NothingShown(window, table, totals);
    Empty<Stack>(cap);
  }

  lemma NothingShown(values: map<Stack, HeapValues>, table: map<Stack, Pair>, totals: map<Stack, LiveTotals>)
    requires values == WindowOf(table)
    ensures Balanced(InuseObjects(values), 0, IndexObjects(totals), {})
    ensures Balanced(InuseSpaces(values), 0, IndexSpaces(totals), {})
  {
    TotalZero(InuseObjects(values));
    TotalZero(InuseSpaces(values));
    assert Part(IndexObjects(totals), {}) == map[];
    assert Part(IndexSpaces(totals), {}) == map[];
  }

  lemma ShownObject(values: map<Stack, HeapValues>, window: map<Stack, Pair>,
                    totals: map<Stack, LiveTotals>, done: set<Stack>, cap: nat, s: Stack)
    requires SnapshotShape(values, window, totals, done, cap) && s in totals && s !in done
    ensures At(InuseObjects(values), s) == 0
    ensures var after := ShowStack(values, s, totals[s], cap);
            InuseObjects(after)
            == if s in after then InuseObjects(values)[s := SatI64(totals[s].objects)] else InuseObjects(values)
  {
    assert At(InuseObjects(values), s) == 0 by {
      assert s in values ==> values[s] == ShownValues(window, totals, done, s);
    }
    hide SnapshotShape, ShownValues, SatI64;
  }

  lemma ShownSpace(values: map<Stack, HeapValues>, window: map<Stack, Pair>,
                    totals: map<Stack, LiveTotals>, done: set<Stack>, cap: nat, s: Stack)
    requires SnapshotShape(values, window, totals, done, cap) && s in totals && s !in done
    ensures At(InuseSpaces(values), s) == 0
    ensures var after := ShowStack(values, s, totals[s], cap);
            InuseSpaces(after)
            == if s in after then InuseSpaces(values)[s := SatI64(totals[s].space)] else InuseSpaces(values)
  {
    assert At(InuseSpaces(values), s) == 0 by {
      assert s in values ==> values[s] == ShownValues(window, totals, done, s);
    }
    hide SnapshotShape, ShownValues, SatI64;
  }

  /** Showing or dropping one stack keeps an in-use column balanced. */
  lemma ShownObjects(values: map<Stack, HeapValues>, after: map<Stack, HeapValues>, drops: nat,
                     window: map<Stack, Pair>, totals: map<Stack, LiveTotals>, done: set<Stack>, cap: nat, s: Stack)
    requires SnapshotShape(values, window, totals, done, cap)
    requires s in totals && s !in done && after == ShowStack(values, s, totals[s], cap)
    requires Balanced(InuseObjects(values), drops, IndexObjects(totals), done)
    ensures s in after ==> Balanced(InuseObjects(after), drops, IndexObjects(totals), done + {s})
    ensures s !in after
      ==> Balanced(InuseObjects(after), SatI64(drops + SatI64(totals[s].objects)), IndexObjects(totals), done + {s})
  {
    hide Total, Balanced, ShowStack, SnapshotShape;
    ShownObject(values, window, totals, done, cap, s);
    BalancedStep(InuseObjects(values), drops, IndexObjects(totals), done, s);
  }


  lemma ShownSpaces(values: map<Stack, HeapValues>, after: map<Stack, HeapValues>, drops: nat,
                     window: map<Stack, Pair>, totals: map<Stack, LiveTotals>, done: set<Stack>, cap: nat, s: Stack)
    requires SnapshotShape(values, window, totals, done, cap)
    requires s in totals && s !in done && after == ShowStack(values, s, totals[s], cap)
    requires Balanced(InuseSpaces(values), drops, IndexSpaces(totals), done)
    ensures s in after ==> Balanced(InuseSpaces(after), drops, IndexSpaces(totals), done + {s})
    ensures s !in after
      ==> Balanced(InuseSpaces(after), SatI64(drops + SatI64(totals[s].space)), IndexSpaces(totals), done + {s})
  {
    hide Total, Balanced, ShowStack, SnapshotShape;
    ShownSpace(values, window, totals, done, cap, s);
    BalancedStep(InuseSpaces(values), drops, IndexSpaces(totals), done, s);
  }


  /** The loop body of `snapshot_window_with_drops` on both of its variables. */
  function ShowStep(values: map<Stack, HeapValues>, drops: HeapAggregationDrops, s: Stack, t: LiveTotals, cap: nat)
    : (map<Stack, HeapValues>, HeapAggregationDrops)
  {
    var after := ShowStack(values, s, t, cap);
    (after,
     if s in after then drops
     else drops.(
       inuseObjects := SatI64(drops.inuseObjects + SatI64(t.objects)),
       inuseSpace := SatI64(drops.inuseSpace + SatI64(t.space))))
  }

  /** A snapshot with the stacks in `done` shown or dropped. */
  ghost predicate SnapshotSoFar(values: map<Stack, HeapValues>, drops: HeapAggregationDrops,
                                history: seq<Record<Stack>>, totals: map<Stack, LiveTotals>,
                                done: set<Stack>, cap: nat)
  {
    && SnapshotShape(values, Capped(history, cap), totals, done, cap)
    && Pair(drops.allocObjects, drops.allocSpace) == Clamp(Sum(Dropped(history, cap)))
    && Balanced(InuseObjects(values), drops.inuseObjects, IndexObjects(totals), done)
    && Balanced(InuseSpaces(values), drops.inuseSpace, IndexSpaces(totals), done)
  }

  lemma SnapshotProgress(values: map<Stack, HeapValues>, drops: HeapAggregationDrops,
                         history: seq<Record<Stack>>, totals: map<Stack, LiveTotals>,
                         done: set<Stack>, cap: nat, s: Stack)
    requires SnapshotSoFar(values, drops, history, totals, done, cap)
    requires s in totals && s !in done
    ensures var (after, dropsAfter) := ShowStep(values, drops, s, totals[s], cap);
            SnapshotSoFar(after, dropsAfter, history, totals, done + {s}, cap)
  {
    hide Balanced, SnapshotShape, Total, InuseObjects, InuseSpaces, IndexObjects, IndexSpaces, ShowStack, Capped;
    var table := Capped(history, cap);
    var after := ShowStack(values, s, totals[s], cap);
    ShapeStep(values, table, totals, done, cap, s);
    ShownObjects(values, after, drops.inuseObjects, table, totals, done, cap, s);
    ShownSpaces(values, after, drops.inuseSpace, table, totals, done, cap, s);
  }

  /** Conservation of live memory: absent `i64` saturation the shown and the dropped in-use
      amounts are the whole live heap. */
  lemma SnapshotConservesInuse(values: map<Stack, HeapValues>, drops: HeapAggregationDrops,
                               history: seq<Record<Stack>>, totals: map<Stack, LiveTotals>, cap: nat, live: Live)
    requires LiveOk(live) && IsIndex(totals, live)
    requires SnapshotSoFar(values, drops, history, totals, totals.Keys, cap)
    ensures Total(Weights(live)) <= I64_MAX
      ==> Total(InuseObjects(values)) + drops.inuseObjects == Total(Weights(live))
    ensures Total(Spaces(live)) <= I64_MAX
      ==> Total(InuseSpaces(values)) + drops.inuseSpace == Total(Spaces(live))
  {
    hide IsIndex, LiveOk, Total, Weights, Spaces, SnapshotShape, Capped, Dropped, Sum;
    IndexTotals(totals, live);
    assert Part(IndexObjects(totals), totals.Keys) == IndexObjects(totals);
    assert Part(IndexSpaces(totals), totals.Keys) == IndexSpaces(totals);
  }

  /** Conservation of the window: the shown and the dropped allocations are all that were accepted
      since the last snapshot, in each column that stays below the `i64` ceiling. */
  lemma SnapshotConservesAllocations(values: map<Stack, HeapValues>, drops: HeapAggregationDrops,
                                     history: seq<Record<Stack>>, totals: map<Stack, LiveTotals>, cap: nat)
    requires SnapshotSoFar(values, drops, history, totals, totals.Keys, cap)
    ensures Sum(history).first <= I64_MAX
      ==> Total(AllocObjects(values)) + drops.allocObjects == Sum(history).first
    ensures Sum(history).second <= I64_MAX
      ==> Total(AllocSpaces(values)) + drops.allocSpace == Sum(history).second
  {
    Conservation(history, cap);
    WindowColumns(values, Capped(history, cap), totals, cap);
  }

  /** Stacks shown only for their live allocations add nothing to the allocation columns. */
  lemma WindowColumns(values: map<Stack, HeapValues>, table: map<Stack, Pair>,
                      totals: map<Stack, LiveTotals>, cap: nat)
    requires SnapshotShape(values, table, totals, totals.Keys, cap)
    ensures Total(AllocObjects(values)) == Total(Firsts(table))
    ensures Total(AllocSpaces(values)) == Total(Seconds(table))
  {
    forall s | s in values
      ensures values[s].allocObjects == (if s in table then table[s].first else 0)
      ensures values[s].allocSpace == (if s in table then table[s].second else 0)
    {
      assert values[s] == ShownValues(table, totals, totals.Keys, s);
    }
    ZeroExtension(AllocObjects(values), Firsts(table));
    ZeroExtension(AllocSpaces(values), Seconds(table));
  }

  lemma {:induction false} ZeroExtension(big: map<Stack, nat>, small: map<Stack, nat>)
    requires small.Keys <= big.Keys
    requires forall s :: s in big ==> big[s] == At(small, s)
    ensures Total(big) == Total(small)
    decreases |big|
  {
    if big == map[] {
      assert small == map[];
    } else {
      var k :| k in big;
      Smaller(big, k);
      TotalRemove(big, k);
      TotalAt(small, k);
      ZeroExtension(big - {k}, small - {k});
    }
  }
}
