/** When a call is sampled, when its block becomes tracked, and what every record carries: the probes of
    bpf/heap.bpf.c, lines 241-337, against the calls that ran. */
module HeapTracking {
  import opened Machine
  import opened HeapProbes
  import opened HeapSafety
  import opened Sampling

  // The decision at the entry.

  /** The two draws are 32-bit words. */
  predicate DrawsOk(o: EntryOutcome) {
    o.first <= U32_MAX && o.second <= U32_MAX
  }

  lemma CallWeight(call: Call, interval: u64) returns (weight: nat)
    ensures Weighs(weight, call.size, interval) && Bits.IsPowerOfTwo(weight)
    ensures weight == SamplingWeightOf(call.size, interval)
  {
    WeightWeighs(call.size, interval);
    weight := SamplingWeightOf(call.size, interval);
  }

  /** A call of any size above zero is sampled exactly when its weight divides the number drawn. Then it
      gets the next token, its stack is sent under that token, and its entry carries its own size, weight
      and pointers. Without that it gets none of these. */
  lemma EnterSamples(s: System, a: Action) returns (weight: nat, sampled: bool)
    requires Inv(s) && a.Enter? && Enabled(s, a) && DrawsOk(a.entry)
    ensures Weighs(weight, a.call.size, s.interval)
    ensures weight > 0 && (sampled <==> a.call.size != 0 && Drawn(weight, a.entry.first, a.entry.second) % weight == 0)
    ensures var k, k' := s.kernel, Next(s, a).kernel;
            && k'.liveSamples == k.liveSamples
            && k'.nextToken == k.nextToken + (if sampled then 1 else 0)
            && k'.ring == k.ring + (if sampled && a.entry.ringHasRoom then [StackRecord(k'.nextToken, a.entry.frames)] else [])
            && (sampled && a.entry.pendingUpdated ==>
                  a.tid in k'.pending && k'.pending[a.tid] == PendingAllocation(
                    k'.nextToken, a.call.size, weight, a.call.oldPtr, a.call.outputPtr, a.call.operation, true,
                    a.call.oldPtr != 0 && a.call.oldPtr in k.liveSamples))
            && (!sampled && a.tid in k'.pending ==> !k'.pending[a.tid].sampled)
  {
    weight := CallWeight(a.call, s.interval);
    SampledWhenDivisible(weight, a.entry.first, a.entry.second);
    sampled := IsSampled(a.call, s.interval, a.entry);
    assert a.tid !in s.kernel.pending;
    hide Inv, IsSampled, ShouldSample, SamplingWeightOf, Weighs, Drawn;
  }

  // The return of a sampled call.

  /** What is left of the map once a tracked realloc has given up its old pointer. */
  function Remaining(k: Kernel, p: PendingAllocation): map<u64, nat> {
    if p.operation.OpRealloc? && p.oldTracked then k.liveSamples - {p.oldPtr} else k.liveSamples
  }

  /** A sampled call returns with a block the probe can see, and the map takes its pointer. */
  predicate Tracks(s: System, a: Action)
    requires a.Exit? && Enabled(s, a)
  {
    && a.tid in s.kernel.pending
    && var p, phase := s.kernel.pending[a.tid], s.threads[a.tid];
       var remaining := Remaining(s.kernel, p);
       && p.sampled && phase.result != 0
       && (phase.call.operation.OpPosixMemalign? ==> phase.call.outputPtr != 0 && a.outputRead)
       && a.liveUpdated
       && (phase.result in remaining || |remaining| < LIVE_SAMPLE_CAPACITY || a.victim in remaining)
  }

  lemma ReturnedIs(s: System, a: Action)
    requires Inv(s) && a.Exit? && Enabled(s, a) && a.tid in s.kernel.pending
    ensures var phase := s.threads[a.tid];
            ReturnedPointer(s.kernel.pending[a.tid], phase.call.operation.OpPosixMemalign?, ExitView(phase, a))
            == if phase.call.operation.OpPosixMemalign? && (phase.call.outputPtr == 0 || !a.outputRead) then 0 else phase.result
  {
    assert Matches(s.kernel.pending[a.tid], s.threads[a.tid].call);
    hide Ownership, FreeingUntracked;
  }

  /** A kernel after releasing an old pointer, if there is one to release. */
  lemma ReleaseFirst(k: Kernel, p: PendingAllocation, ptr: u64, room: bool) returns (released: Kernel)
    ensures released == if ReleasesOld(k, p, ptr) then ReleaseLive(k, p.oldPtr, room) else k
    ensures ptr != 0 ==> released.liveSamples == Remaining(k, p)
    ensures released.liveSamples.Keys <= k.liveSamples.Keys
    ensures forall key :: key in released.liveSamples ==> released.liveSamples[key] == k.liveSamples[key]
    ensures k.ring <= released.ring && released.pending == k.pending
    ensures forall i :: |k.ring| <= i < |released.ring| ==> released.ring[i].FreeRecord?
  {
    released := if ReleasesOld(k, p, ptr) then ReleaseLive(k, p.oldPtr, room) else k;
    if p.oldPtr !in k.liveSamples {
      assert k.liveSamples - {p.oldPtr} == k.liveSamples;
    }
  }

  lemma RecordTracks(k: Kernel, p: PendingAllocation, ptr: u64, o: ExitOutcome)
    ensures var k', tracks := RecordLive(k, p, ptr, o), o.liveUpdated && HasSlot(k.liveSamples, ptr, o.victim);
            && (tracks ==> ptr in k'.liveSamples && k'.liveSamples[ptr] == p.token)
            && (tracks ==> k'.ring == k.ring + (if o.roomForAlloc then [AllocRecord(p.token, ptr, p.size, p.weight)] else []))
            && (!tracks ==> k'.liveSamples == k.liveSamples && k'.ring == k.ring)
            && (forall key :: key in k'.liveSamples && key != ptr ==>
                  key in k.liveSamples && k'.liveSamples[key] == k.liveSamples[key])
  {
  }

  /** The block is now a key under the call's token, no other key appeared or changed, and the only ALLOC
      record sent is the block's, last of the ring if there was room. */
  ghost predicate GainsBlock(k: Kernel, k': Kernel, p: PendingAllocation, block: u64, room: bool) {
    && block in k'.liveSamples && k'.liveSamples[block] == p.token
    && (forall key :: key in k'.liveSamples && key != block ==>
          key in k.liveSamples && k'.liveSamples[key] == k.liveSamples[key])
    && k.ring <= k'.ring
    && (room ==> |k'.ring| > |k.ring| && k'.ring[|k'.ring| - 1] == AllocRecord(p.token, block, p.size, p.weight))
    && (forall i :: |k.ring| <= i < |k'.ring| && k'.ring[i].AllocRecord? ==>
          k'.ring[i] == AllocRecord(p.token, block, p.size, p.weight))
  }

  /** No key appeared or changed its token, and no ALLOC record was sent. */
  ghost predicate GainsNothing(k: Kernel, k': Kernel) {
    && (forall key :: key in k'.liveSamples ==> key in k.liveSamples && k'.liveSamples[key] == k.liveSamples[key])
    && k.ring <= k'.ring && forall i :: |k.ring| <= i < |k'.ring| ==> !k'.ring[i].AllocRecord?
  }

  /** A sampled call that returns with a block makes it tracked under the call's token and sends its ALLOC
      record. No other step makes anything tracked. */
  lemma ReturnTracks(s: System, a: Action)
    requires Inv(s) && Enabled(s, a)
    ensures if a.Exit? && Tracks(s, a)
            then GainsBlock(s.kernel, Next(s, a).kernel, s.kernel.pending[a.tid], s.threads[a.tid].result, a.roomForAlloc)
            else GainsNothing(s.kernel, Next(s, a).kernel)
  {
    match a
    case Enter(tid, call, entry) =>
      EnterRing(s.kernel, s.interval, tid, call, entry);
      hide Begin;
    case EnterFree(_, pointer, room) =>
    case Exit(tid, _, _, _, _, _) =>
      ExitTracks(s, a);
    case _ =>
  }

  lemma EnterRing(k: Kernel, interval: u64, tid: nat, call: Call, o: EntryOutcome)
    ensures GainsNothing(k, Begin(k, interval, tid, call, o))
  {
    hide IsSampled;
  }

  lemma RecordGains(k: Kernel, released: Kernel, p: PendingAllocation, ptr: u64, o: ExitOutcome)
    requires GainsNothing(k, released)
    ensures if o.liveUpdated && HasSlot(released.liveSamples, ptr, o.victim)
            then GainsBlock(k, RecordLive(released, p, ptr, o), p, ptr, o.roomForAlloc)
            else GainsNothing(k, RecordLive(released, p, ptr, o))
  {
    RecordTracks(released, p, ptr, o);
    hide RecordLive;
  }

  lemma ExitTracks(s: System, a: Action)
    requires Inv(s) && a.Exit? && Enabled(s, a)
    ensures if Tracks(s, a)
            then GainsBlock(s.kernel, Next(s, a).kernel, s.kernel.pending[a.tid], s.threads[a.tid].result, a.roomForAlloc)
            else GainsNothing(s.kernel, Next(s, a).kernel)
  {
    hide Inv, ReturnedPointer, ReleaseLive, RecordLive, ReleasesOld, Ownership;
    var phase := s.threads[a.tid];
    var o := ExitView(phase, a);
    if a.tid in s.kernel.pending {
      ReturnedIs(s, a);
      var p := s.kernel.pending[a.tid];
      var ptr := ReturnedPointer(p, phase.call.operation.OpPosixMemalign?, o);
      var released := ReleaseFirst(s.kernel, p, ptr, o.roomForFree);
      assert GainsNothing(s.kernel, released);
      RecordGains(s.kernel, released, p, ptr, o);
      var recorded := if p.sampled && ptr != 0 then RecordLive(released, p, ptr, o) else released;
      assert Next(s, a).kernel == recorded.(pending := recorded.pending - {a.tid});
      hide GainsNothing, GainsBlock, Finish;
      Forgets(s.kernel, recorded, p, ptr, o.roomForAlloc, recorded.pending - {a.tid});
    } else {
      FinishWithoutPending(s.kernel, a.tid, phase.call.operation.OpPosixMemalign?, o);
    }
  }

  lemma Forgets(k: Kernel, k': Kernel, p: PendingAllocation, block: u64, room: bool, pending: map<nat, PendingAllocation>)
    ensures GainsBlock(k, k', p, block, room) <==> GainsBlock(k, k'.(pending := pending), p, block, room)
    ensures GainsNothing(k, k') <==> GainsNothing(k, k'.(pending := pending))
  {
  }

  // What every step counts.

  /** A sampled call returns with a block the probe can see, whether or not the map takes it. */
  predicate Seen(s: System, a: Action)
    requires a.Exit? && Enabled(s, a)
  {
    && a.tid in s.kernel.pending && s.kernel.pending[a.tid].sampled && s.threads[a.tid].result != 0
    && (s.threads[a.tid].call.operation.OpPosixMemalign? ==> s.threads[a.tid].call.outputPtr != 0 && a.outputRead)
  }

  /** So many failed updates, tracked allocations and unread stacks are counted from one kernel to the next. */
  predicate Counts(k: Kernel, k': Kernel, updates: nat, allocs: nat, stacks: nat) {
    && k'.stats.mapUpdateFailures == k.stats.mapUpdateFailures + updates
    && k'.stats.sampledAllocs == k.stats.sampledAllocs + allocs
    && k'.stats.stackFailures == k.stats.stackFailures + stacks
  }

  lemma BeginCounts(k: Kernel, interval: u64, tid: nat, call: Call, o: EntryOutcome)
    ensures var sampled := IsSampled(call, interval, o);
            Counts(k, Begin(k, interval, tid, call, o),
                   if (sampled || IsTracked(k, call)) && !o.pendingUpdated then 1 else 0, 0,
                   if sampled && o.ringHasRoom && o.stackFailed then 1 else 0)
  {
    hide IsSampled;
  }

  lemma ReleaseCounts(k: Kernel, p: PendingAllocation, ptr: u64, room: bool)
    ensures Counts(k, if ReleasesOld(k, p, ptr) then ReleaseLive(k, p.oldPtr, room) else k, 0, 0, 0)
  {
  }

  lemma RecordCounts(k: Kernel, p: PendingAllocation, ptr: u64, o: ExitOutcome)
    ensures var tracks := o.liveUpdated && HasSlot(k.liveSamples, ptr, o.victim);
            Counts(k, RecordLive(k, p, ptr, o), if tracks then 0 else 1, if tracks then 1 else 0, 0)
  {
  }

  lemma ExitCounts(s: System, a: Action)
    requires Inv(s) && a.Exit? && Enabled(s, a)
    ensures Counts(s.kernel, Next(s, a).kernel,
                   if Seen(s, a) && !Tracks(s, a) then 1 else 0, if Tracks(s, a) then 1 else 0, 0)
  {
    hide Inv, ReturnedPointer, ReleaseLive, RecordLive, Ownership;
    var phase := s.threads[a.tid];
    var o := ExitView(phase, a);
    if a.tid in s.kernel.pending {
      ReturnedIs(s, a);
      var p := s.kernel.pending[a.tid];
      var ptr := ReturnedPointer(p, phase.call.operation.OpPosixMemalign?, o);
      var released := ReleaseFirst(s.kernel, p, ptr, o.roomForFree);
      ReleaseCounts(s.kernel, p, ptr, o.roomForFree);
      RecordCounts(released, p, ptr, o);
    } else {
      FinishWithoutPending(s.kernel, a.tid, phase.call.operation.OpPosixMemalign?, o);
    }
  }

  /** An update that fails is counted once, and so is a stack that could not be read; a sampled allocation
      is counted when its block becomes tracked. */
  lemma StepCounts(s: System, a: Action)
    requires Inv(s) && Enabled(s, a)
    ensures var sampled := a.Enter? && IsSampled(a.call, s.interval, a.entry);
            Counts(s.kernel, Next(s, a).kernel,
                   if (a.Enter? && (sampled || IsTracked(s.kernel, a.call)) && !a.entry.pendingUpdated)
                      || (a.Exit? && Seen(s, a) && !Tracks(s, a)) then 1 else 0,
                   if a.Exit? && Tracks(s, a) then 1 else 0,
                   if sampled && a.entry.ringHasRoom && a.entry.stackFailed then 1 else 0)
  {
    match a
    case Enter(tid, call, entry) =>
      BeginCounts(s.kernel, s.interval, tid, call, entry);
      hide Begin, IsSampled, Inv;
    case Exit(_, _, _, _, _, _) =>
      ExitCounts(s, a);
    case _ =>
      hide Inv;
  }
}
