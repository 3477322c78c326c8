/** The probes beside a real allocator: any number of threads, one probe or one allocator
    action at a time. Safety of the map of live samples over every run. */
module HeapSafety {
  import opened Machine
  import opened HeapProbes

  /** Where a thread is inside an allocator call. */
  datatype Phase =
    | Entered(call: Call)
    | Returning(call: Call, result: u64, oldFreed: bool)
    | Freeing(pointer: u64)

  /** `blocks` are the blocks the allocator has handed out and not taken back; `held` are those
      whose pointer the program owns and has not passed to a call in progress. */
  datatype System = System(
    kernel: Kernel, interval: u64, blocks: set<u64>, held: set<u64>, threads: map<nat, Phase>)

  datatype Action =
    | Enter(tid: nat, call: Call, entry: EntryOutcome)
    | Allocate(tid: nat, result: u64, oldFreed: bool)
    | Exit(tid: nat, outputRead: bool, roomForFree: bool, roomForAlloc: bool, liveUpdated: bool, victim: u64)
    | EnterFree(tid: nat, pointer: u64, room: bool)
    | Deallocate(tid: nat)

  const ENOMEM: u64 := 12

  function Initial(interval: u64): System {
    System(INITIAL_KERNEL, interval, {}, {}, map[])
  }

  /** What the allocator may answer: a null pointer that leaves the old block alone unless a
      realloc to size zero frees it, the old pointer itself, or a block nobody has. */
  predicate AllocatorMay(blocks: set<u64>, call: Call, result: u64, oldFreed: bool) {
    if result == 0 then oldFreed ==> call.oldPtr != 0 && call.size == 0
    else if result == call.oldPtr then !oldFreed
    else result !in blocks && (oldFreed <==> call.oldPtr != 0)
  }

  predicate CallOk(call: Call) {
    && (call.oldPtr != 0 ==> call.operation.OpRealloc?)
    && (call.operation.OpPosixMemalign? ==> call.oldPtr == 0)
  }

  predicate Enabled(s: System, a: Action) {
    match a
    case Enter(tid, call, _) =>
      tid !in s.threads && CallOk(call) && (call.oldPtr != 0 ==> call.oldPtr in s.held)
    case Allocate(tid, result, oldFreed) =>
      tid in s.threads && s.threads[tid].Entered? && AllocatorMay(s.blocks, s.threads[tid].call, result, oldFreed)
    case Exit(tid, _, _, _, _, _) =>
      tid in s.threads && s.threads[tid].Returning?
    case EnterFree(tid, pointer, _) =>
      tid !in s.threads && (pointer != 0 ==> pointer in s.held)
    case Deallocate(tid) =>
      tid in s.threads && s.threads[tid].Freeing?
  }

  function Pointers(p: u64): set<u64> {
    if p == 0 then {} else {p}
  }

  /** The blocks a call in progress keeps to itself. */
  function Owned(phase: Phase): set<u64> {
    match phase
    case Entered(call) => Pointers(call.oldPtr)
    case Returning(call, result, oldFreed) => Pointers(result) + (if oldFreed then {} else Pointers(call.oldPtr))
    case Freeing(pointer) => Pointers(pointer)
  }

  /** The registers and the user word a return probe reads for this call. */
  function ExitView(phase: Phase, a: Action): ExitOutcome
    requires phase.Returning? && a.Exit?
  {
    var returned := if phase.call.operation.OpPosixMemalign? then (if phase.result != 0 then 0 else ENOMEM) else phase.result;
    ExitOutcome(returned, phase.result, a.outputRead, a.roomForFree, a.roomForAlloc, a.liveUpdated, a.victim)
  }

  ghost function Next(s: System, a: Action): System
    requires Enabled(s, a)
  {
    match a
    case Enter(tid, call, entry) =>
      s.(kernel := Begin(s.kernel, s.interval, tid, call, entry),
         held := s.held - Pointers(call.oldPtr),
         threads := s.threads[tid := Entered(call)])
    case Allocate(tid, result, oldFreed) =>
      var call := s.threads[tid].call;
      s.(blocks := s.blocks - (if oldFreed then {call.oldPtr} else {}) + Pointers(result),
         threads := s.threads[tid := Returning(call, result, oldFreed)])
    case Exit(tid, _, _, _, _, _) =>
      var phase := s.threads[tid];
      s.(kernel := Finish(s.kernel, tid, phase.call.operation.OpPosixMemalign?, ExitView(phase, a)),
         held := s.held + Owned(phase),
         threads := s.threads - {tid})
    case EnterFree(tid, pointer, room) =>
      s.(kernel := Free(s.kernel, pointer, room),
         held := s.held - Pointers(pointer),
         threads := s.threads[tid := Freeing(pointer)])
    case Deallocate(tid) =>
      s.(blocks := s.blocks - {s.threads[tid].pointer}, threads := s.threads - {tid})
  }

  /** The run of `acts` from `s`, where every action is enabled when its turn comes. */
  ghost predicate IsRun(s: System, acts: seq<Action>)
    decreases |acts|
  {
    acts == [] || (Enabled(s, acts[0]) && IsRun(Next(s, acts[0]), acts[1..]))
  }

  ghost function After(s: System, acts: seq<Action>): System
    requires IsRun(s, acts)
    decreases |acts|
  {
    if acts == [] then s else After(Next(s, acts[0]), acts[1..])
  }

  // Who owns which block.

  ghost predicate Ownership(s: System) {
    && 0 !in s.blocks
    && s.held <= s.blocks
    && (forall t {:trigger t in s.threads} :: t in s.threads ==> Owned(s.threads[t]) <= s.blocks - s.held)
    && (forall t, u {:trigger s.threads[t], s.threads[u]} ::
          t in s.threads && u in s.threads && t != u ==> Owned(s.threads[t]) !! Owned(s.threads[u]))
    && (forall t {:trigger s.threads[t]} :: t in s.threads ==> PhaseOk(s.threads[t]))
  }

  predicate PhaseOk(phase: Phase) {
    match phase
    case Entered(call) => CallOk(call)
    case Returning(call, result, oldFreed) =>
      CallOk(call) && (oldFreed ==> call.oldPtr != 0)
      && (result == 0 && oldFreed ==> call.size == 0)
    case Freeing(_) => true
  }

  /** The blocks owned by calls in progress other than `tid`'s lie in this set. */
  function Others(s: System, tid: nat): set<u64> {
    s.blocks - s.held - (if tid in s.threads then Owned(s.threads[tid]) else {})
  }

  /** A step that touches only the share of thread `tid` keeps everybody else's share. */
  lemma OwnershipSet(s: System, s': System, tid: nat, phase: Phase)
    requires Ownership(s) && PhaseOk(phase)
    requires s'.threads == s.threads[tid := phase]
    requires 0 !in s'.blocks && s'.held <= s'.blocks
    requires Others(s, tid) <= s'.blocks - s'.held
    requires Owned(phase) <= s'.blocks - s'.held && Owned(phase) !! Others(s, tid)
    ensures Ownership(s')
  {
    forall t | t in s.threads && t != tid
      ensures s'.threads[t] == s.threads[t] && Owned(s.threads[t]) <= Others(s, tid)
    {
      assert tid in s.threads ==> Owned(s.threads[t]) !! Owned(s.threads[tid]);
    }
    assert s'.threads[tid] == phase;
  }

  lemma OwnershipRemove(s: System, s': System, tid: nat)
    requires Ownership(s) && tid in s.threads
    requires s'.threads == s.threads - {tid}
    requires 0 !in s'.blocks && s'.held <= s'.blocks
    requires Others(s, tid) <= s'.blocks - s'.held
    ensures Ownership(s')
  {
    forall t | t in s.threads && t != tid
      ensures s'.threads[t] == s.threads[t] && Owned(s.threads[t]) <= Others(s, tid)
    {
      assert Owned(s.threads[t]) !! Owned(s.threads[tid]);
    }
  }

  /** Every block has one owner: the program, or one call in progress. */
  lemma OwnershipStep(s: System, a: Action)
    requires Ownership(s) && Enabled(s, a)
    ensures Ownership(Next(s, a))
  {
    hide Begin, Finish, Free;
    var s' := Next(s, a);
    match a
    case Enter(tid, call, _) =>
      OwnershipSet(s, s', tid, Entered(call));
    case Allocate(tid, result, oldFreed) =>
      AllocateOwnership(s, a);
    case Exit(tid, _, _, _, _, _) =>
      assert Owned(s.threads[tid]) <= s.blocks;
      OwnershipRemove(s, s', tid);
    case EnterFree(tid, pointer, _) =>
      OwnershipSet(s, s', tid, Freeing(pointer));
    case Deallocate(tid) =>
      assert Owned(s.threads[tid]) <= s.blocks - s.held;
      OwnershipRemove(s, s', tid);
  }

  lemma AllocateOwnership(s: System, a: Action)
    requires Ownership(s) && Enabled(s, a) && a.Allocate?
    ensures Ownership(Next(s, a))
  {
    var s', phase := Next(s, a), s.threads[a.tid];
    assert Owned(phase) <= s.blocks - s.held;
    assert PhaseOk(phase);
    OwnershipSet(s, s', a.tid, Returning(phase.call, a.result, a.oldFreed));
  }

  // What each probe does to the two maps.

  predicate Matches(p: PendingAllocation, call: Call) {
    p.operation == call.operation && p.size == call.size && p.oldPtr == call.oldPtr && p.outputPtr == call.outputPtr
  }

  lemma BeginEffect(k: Kernel, interval: u64, tid: nat, call: Call, o: EntryOutcome)
    ensures var k' := Begin(k, interval, tid, call, o);
            && k'.liveSamples == k.liveSamples
            && (k'.pending == k.pending
                || (tid in k'.pending && k'.pending == k.pending[tid := k'.pending[tid]]
                    && Matches(k'.pending[tid], call) && k'.pending[tid].oldTracked == IsTracked(k, call)))
            && (IsTracked(k, call) && o.pendingUpdated ==> tid in k'.pending && k'.pending[tid].oldTracked)
  {
    hide IsSampled;
  }

  lemma ReleaseEffect(k: Kernel, ptr: u64, room: bool)
    requires ptr in k.liveSamples
    ensures var k' := ReleaseLive(k, ptr, room);
            && k'.pending == k.pending
            && k'.liveSamples == k.liveSamples - {ptr}
  {
  }

  lemma RecordEffect(k: Kernel, p: PendingAllocation, ptr: u64, o: ExitOutcome)
    ensures var k' := RecordLive(k, p, ptr, o);
            && k'.pending == k.pending
            && k'.liveSamples.Keys <= k.liveSamples.Keys + {ptr}
  {
  }

  lemma FinishEffect(k: Kernel, tid: nat, posixMemalign: bool, o: ExitOutcome)
    requires tid in k.pending
    ensures var k', p := Finish(k, tid, posixMemalign, o), k.pending[tid];
            var ptr := ReturnedPointer(p, posixMemalign, o);
            && k'.pending == k.pending - {tid}
            && (forall key :: key in k'.liveSamples ==> key in k.liveSamples || (key == ptr && ptr != 0))
            && (p.operation.OpRealloc? && p.oldTracked && (ptr != 0 || p.size == 0)
                ==> p.oldPtr !in k'.liveSamples || p.oldPtr == ptr)
  {
    hide ReleaseLive, RecordLive, ReturnedPointer;
    var p := k.pending[tid];
    var ptr := ReturnedPointer(p, posixMemalign, o);
    var released := if ReleasesOld(k, p, ptr) then ReleaseLive(k, p.oldPtr, o.roomForFree) else k;
    if ReleasesOld(k, p, ptr) {
      ReleaseEffect(k, p.oldPtr, o.roomForFree);
    }
    RecordEffect(released, p, ptr, o);
  }

  lemma FreeEffect(k: Kernel, ptr: u64, room: bool)
    ensures var k' := Free(k, ptr, room);
            && k'.pending == k.pending
            && k'.liveSamples == (if ptr == 0 then k.liveSamples else k.liveSamples - {ptr})
  {
    if ptr !in k.liveSamples {
      assert k.liveSamples - {ptr} == k.liveSamples;
    }
  }

  // The invariant.

  /** A pending entry belongs to the call its thread is in. */
  ghost predicate PendingMatches(s: System) {
    forall t {:trigger t in s.kernel.pending} :: t in s.kernel.pending ==>
      t in s.threads && !s.threads[t].Freeing? && Matches(s.kernel.pending[t], s.threads[t].call)
  }

  /** `key` is the old pointer of a tracked realloc that thread `t` is still running. */
  predicate Claims(s: System, t: nat, key: u64) {
    t in s.kernel.pending && s.kernel.pending[t].oldTracked && s.kernel.pending[t].oldPtr == key
  }

  ghost predicate Claimed(s: System, key: u64) {
    exists t :: Claims(s, t, key)
  }

  ghost predicate Explained(s: System, key: u64) {
    key in s.blocks || Claimed(s, key)
  }

  predicate FreeingUntracked(s: System) {
    forall t {:trigger s.threads[t]} :: t in s.threads && s.threads[t].Freeing? ==>
      s.threads[t].pointer !in s.kernel.liveSamples || s.threads[t].pointer == 0
  }

  /** The old pointer of a call that has not been answered yet has a claim if it is tracked. */
  ghost predicate OldIsClaimed(s: System) {
    forall t {:trigger s.threads[t]} ::
      t in s.threads && s.threads[t].Entered? && s.threads[t].call.oldPtr != 0
      && s.threads[t].call.oldPtr in s.kernel.liveSamples
      ==> Claimed(s, s.threads[t].call.oldPtr)
  }

  /** What every step keeps, whatever fails. */
  ghost predicate Inv(s: System) {
    && Ownership(s)
    && PendingMatches(s)
    && FreeingUntracked(s)
    && 0 !in s.kernel.liveSamples
  }

  /** Every key is a live block or claimed by a call in progress. */
  ghost predicate Safe(s: System) {
    OldIsClaimed(s) && forall key :: key in s.kernel.liveSamples ==> Explained(s, key)
  }

  /** A tracked realloc enters, its entry cannot be stored, and no other call claims its block: the
      only failure that matters. */
  ghost predicate Misses(s: System, a: Action) {
    a.Enter? && IsTracked(s.kernel, a.call) && !a.entry.pendingUpdated && !Claimed(s, a.call.oldPtr)
  }

  lemma EnterKeeps(s: System, a: Action)
    requires Inv(s) && a.Enter? && Enabled(s, a)
    ensures Inv(Next(s, a)) && (Safe(s) && !Misses(s, a) ==> Safe(Next(s, a)))
  {
    OwnershipStep(s, a);
    EnterMaps(s, a);
    if Safe(s) && !Misses(s, a) {
      EnterExplains(s, a);
    }
    hide Ownership, Begin, OldIsClaimed, PendingMatches, FreeingUntracked, Explained;
  }

  lemma EnterMaps(s: System, a: Action)
    requires Inv(s) && a.Enter? && Enabled(s, a)
    ensures PendingMatches(Next(s, a)) && FreeingUntracked(Next(s, a)) && 0 !in Next(s, a).kernel.liveSamples
  {
    hide Ownership, Begin, Matches, Explained, OldIsClaimed;
    var s' := Next(s, a);
    BeginEffect(s.kernel, s.interval, a.tid, a.call, a.entry);
    assert a.tid !in s.kernel.pending;
    forall t | t in s.threads ensures s'.threads[t] == s.threads[t] {}
  }

  /** Claims that survive a step keep explaining their keys. */
  lemma StillClaimed(s: System, s': System, key: u64)
    requires forall t :: Claims(s, t, key) ==> Claims(s', t, key)
    ensures Claimed(s, key) ==> Claimed(s', key)
  {
    if t :| Claims(s, t, key) {
      assert Claims(s', t, key);
    }
  }

  lemma EnterExplains(s: System, a: Action)
    requires Inv(s) && a.Enter? && Enabled(s, a) && Safe(s) && !Misses(s, a)
    ensures Safe(Next(s, a))
  {
    hide Ownership, Begin, FreeingUntracked;
    var s' := Next(s, a);
    BeginEffect(s.kernel, s.interval, a.tid, a.call, a.entry);
    assert a.tid !in s.kernel.pending;
    forall key
      ensures Claimed(s, key) ==> Claimed(s', key)
    {
      StillClaimed(s, s', key);
    }
    if IsTracked(s.kernel, a.call) && a.entry.pendingUpdated {
      assert Claims(s', a.tid, a.call.oldPtr);
    }
    forall key | key in s'.kernel.liveSamples
      ensures Explained(s', key)
    {
      assert Explained(s, key);
    }
  }

  lemma AllocateKeeps(s: System, a: Action)
    requires Inv(s) && a.Allocate? && Enabled(s, a)
    ensures Inv(Next(s, a)) && (Safe(s) ==> Safe(Next(s, a)))
  {
    OwnershipStep(s, a);
    AllocateMaps(s, a);
    if Safe(s) {
      AllocateExplains(s, a);
    }
    hide Ownership, PendingMatches, FreeingUntracked;
  }

  lemma AllocateMaps(s: System, a: Action)
    requires Inv(s) && a.Allocate? && Enabled(s, a)
    ensures PendingMatches(Next(s, a)) && FreeingUntracked(Next(s, a)) && Next(s, a).kernel == s.kernel
  {
    hide Ownership, Matches;
    forall t | t in s.threads && t != a.tid ensures Next(s, a).threads[t] == s.threads[t] {}
  }

  lemma AllocateExplains(s: System, a: Action)
    requires Inv(s) && a.Allocate? && Enabled(s, a) && Safe(s)
    ensures Safe(Next(s, a))
  {
    hide Ownership, FreeingUntracked;
    var s' := Next(s, a);
    forall t | t in s.threads && t != a.tid ensures s'.threads[t] == s.threads[t] {}
    forall key
      ensures Claimed(s, key) ==> Claimed(s', key)
    {
      StillClaimed(s, s', key);
    }
    forall key | key in s'.kernel.liveSamples
      ensures Explained(s', key)
    {
      assert Explained(s, key);
    }
  }

  /** The pointer a return probe acts on is zero or the block its call owns. */
  lemma ExitPointer(s: System, a: Action)
    requires Inv(s) && a.Exit? && Enabled(s, a) && a.tid in s.kernel.pending
    ensures var phase := s.threads[a.tid];
            var ptr := ReturnedPointer(s.kernel.pending[a.tid], phase.call.operation.OpPosixMemalign?, ExitView(phase, a));
            && (ptr == 0 || ptr == phase.result)
            && (phase.call.operation.OpRealloc? ==> ptr == phase.result)
  {
  }

  /** What an exit leaves of the other calls: their phases, their shares and their claims. */
  lemma ExitOthers(s: System, a: Action)
    requires Inv(s) && a.Exit? && Enabled(s, a)
    ensures var s' := Next(s, a);
            && (forall t :: t in s.threads && t != a.tid ==>
              t in s'.threads && s'.threads[t] == s.threads[t] && Owned(s.threads[t]) !! Owned(s.threads[a.tid]))
            && s'.kernel.pending == s.kernel.pending - {a.tid}
            && forall t, key :: Claims(s, t, key) && t != a.tid ==> Claims(s', t, key)
  {
    var phase := s.threads[a.tid];
    var o := ExitView(phase, a);
    if a.tid in s.kernel.pending {
      FinishEffect(s.kernel, a.tid, phase.call.operation.OpPosixMemalign?, o);
    } else {
      FinishWithoutPending(s.kernel, a.tid, phase.call.operation.OpPosixMemalign?, o);
      assert s.kernel.pending - {a.tid} == s.kernel.pending;
    }
    hide Finish, ExitView, PendingMatches;
  }

  lemma FinishWithoutPending(k: Kernel, tid: nat, posixMemalign: bool, o: ExitOutcome)
    requires tid !in k.pending
    ensures Finish(k, tid, posixMemalign, o) == k
  {
  }

  /** The claim a return probe gives up was no longer needed: the key is gone, or it is a block. */
  lemma ExitRedeems(s: System, a: Action, key: u64)
    requires Inv(s) && a.Exit? && Enabled(s, a) && Claims(s, a.tid, key)
    requires key in Next(s, a).kernel.liveSamples
    ensures key in Owned(s.threads[a.tid])
  {
    var phase := s.threads[a.tid];
    assert PhaseOk(phase);
    assert Matches(s.kernel.pending[a.tid], phase.call);
    hide Ownership, Finish;
    ExitPointer(s, a);
    FinishEffect(s.kernel, a.tid, phase.call.operation.OpPosixMemalign?, ExitView(phase, a));
  }

  /** A key that appears with a return probe is the block its call owns. */
  lemma ExitRecords(s: System, a: Action, key: u64)
    requires Inv(s) && a.Exit? && Enabled(s, a)
    requires key in Next(s, a).kernel.liveSamples && key !in s.kernel.liveSamples
    ensures key in Owned(s.threads[a.tid])
  {
    var phase := s.threads[a.tid];
    hide Ownership, Finish;
    if a.tid in s.kernel.pending {
      ExitPointer(s, a);
      FinishEffect(s.kernel, a.tid, phase.call.operation.OpPosixMemalign?, ExitView(phase, a));
    }
  }

  lemma ExitExplained(s: System, a: Action, key: u64)
    requires Inv(s) && a.Exit? && Enabled(s, a) && Safe(s) && key in Next(s, a).kernel.liveSamples
    ensures Explained(Next(s, a), key)
  {
    var s' := Next(s, a);
    assert Owned(s.threads[a.tid]) <= s.blocks;
    hide Ownership, Finish, OldIsClaimed;
    ExitOthers(s, a);
    if key !in s.blocks {
      if key !in s.kernel.liveSamples {
        ExitRecords(s, a, key);
      } else {
        assert Explained(s, key);
        var t :| Claims(s, t, key);
        if t == a.tid {
          ExitRedeems(s, a, key);
        } else {
          assert Claims(s', t, key);
        }
      }
    }
  }

  lemma ExitClaimed(s: System, a: Action, t: nat)
    requires Inv(s) && a.Exit? && Enabled(s, a) && Safe(s)
    requires t in s.threads && t != a.tid && s.threads[t].Entered? && s.threads[t].call.oldPtr != 0
    requires s.threads[t].call.oldPtr in Next(s, a).kernel.liveSamples
    ensures Claimed(Next(s, a), s.threads[t].call.oldPtr)
  {
    var s', key := Next(s, a), s.threads[t].call.oldPtr;
    assert key in Owned(s.threads[t]);
    hide Ownership, Finish;
    ExitOthers(s, a);
    if key !in s.kernel.liveSamples {
      ExitRecords(s, a, key);
    }
    var u :| Claims(s, u, key);
    if u == a.tid {
      ExitRedeems(s, a, key);
    } else {
      assert Claims(s', u, key);
    }
  }

  lemma ExitMaps(s: System, a: Action)
    requires Inv(s) && a.Exit? && Enabled(s, a)
    ensures var s' := Next(s, a);
            PendingMatches(s') && FreeingUntracked(s') && 0 !in s'.kernel.liveSamples
  {
    var s', phase := Next(s, a), s.threads[a.tid];
    assert Owned(phase) <= s.blocks && 0 !in s.blocks;
    hide Ownership, Finish;
    ExitOthers(s, a);
    forall key | key in s'.kernel.liveSamples && key !in s.kernel.liveSamples
      ensures key in Owned(phase)
    {
      ExitRecords(s, a, key);
    }
    forall t | t in s'.threads && s'.threads[t].Freeing? && s'.threads[t].pointer != 0
      ensures s'.threads[t].pointer !in s'.kernel.liveSamples
    {
      assert s.threads[t].pointer in Owned(s.threads[t]);
    }
  }

  lemma ExitKeeps(s: System, a: Action)
    requires Inv(s) && a.Exit? && Enabled(s, a)
    ensures Inv(Next(s, a)) && (Safe(s) ==> Safe(Next(s, a)))
  {
    OwnershipStep(s, a);
    ExitMaps(s, a);
    var s' := Next(s, a);
    if Safe(s) {
      forall key | key in s'.kernel.liveSamples
        ensures Explained(s', key)
      {
        ExitExplained(s, a, key);
      }
      forall t | t in s'.threads && s'.threads[t].Entered? && s'.threads[t].call.oldPtr != 0
                 && s'.threads[t].call.oldPtr in s'.kernel.liveSamples
        ensures Claimed(s', s'.threads[t].call.oldPtr)
      {
        ExitClaimed(s, a, t);
      }
    }
    hide Ownership, Finish, PendingMatches, FreeingUntracked;
  }

  lemma FreeKeeps(s: System, a: Action)
    requires Inv(s) && a.EnterFree? && Enabled(s, a)
    ensures Inv(Next(s, a)) && (Safe(s) ==> Safe(Next(s, a)))
  {
    OwnershipStep(s, a);
    hide Ownership, Free;
    var s' := Next(s, a);
    FreeEffect(s.kernel, a.pointer, a.room);
    forall t | t in s.threads ensures s'.threads[t] == s.threads[t] {}
    forall key
      ensures Claimed(s, key) ==> Claimed(s', key)
    {
      StillClaimed(s, s', key);
    }
  }

  lemma DeallocateKeeps(s: System, a: Action)
    requires Inv(s) && a.Deallocate? && Enabled(s, a)
    ensures Inv(Next(s, a)) && (Safe(s) ==> Safe(Next(s, a)))
  {
    OwnershipStep(s, a);
    hide Ownership;
    var s', pointer := Next(s, a), s.threads[a.tid].pointer;
    assert a.tid !in s.kernel.pending;
    forall t | t in s'.threads ensures s'.threads[t] == s.threads[t] {}
    forall key
      ensures Claimed(s, key) ==> Claimed(s', key)
    {
      StillClaimed(s, s', key);
    }
    assert pointer !in s.kernel.liveSamples;
  }

  lemma StepKeeps(s: System, a: Action)
    requires Inv(s) && Enabled(s, a)
    ensures Inv(Next(s, a)) && (Safe(s) && !Misses(s, a) ==> Safe(Next(s, a)))
  {
    hide Inv, Safe, Next, Enabled;
    match a
    case Enter(_, _, _) => EnterKeeps(s, a);
    case Allocate(_, _, _) => AllocateKeeps(s, a);
    case Exit(_, _, _, _, _, _) => ExitKeeps(s, a);
    case EnterFree(_, _, _) => FreeKeeps(s, a);
    case Deallocate(_) => DeallocateKeeps(s, a);
  }

  lemma {:induction false} RunKeeps(s: System, acts: seq<Action>)
    requires Inv(s) && IsRun(s, acts)
    ensures Inv(After(s, acts))
    decreases |acts|
  {
    if acts != [] {
      StepKeeps(s, acts[0]);
      RunKeeps(Next(s, acts[0]), acts[1..]);
    }
  }

  /** No tracked realloc of the run went unnoticed. */
  ghost predicate NoneMissed(s: System, acts: seq<Action>)
    requires IsRun(s, acts)
    decreases |acts|
  {
    acts == [] || (!Misses(s, acts[0]) && NoneMissed(Next(s, acts[0]), acts[1..]))
  }

  lemma {:induction false} RunIsSafe(s: System, acts: seq<Action>)
    requires Inv(s) && Safe(s) && IsRun(s, acts) && NoneMissed(s, acts)
    ensures Inv(After(s, acts)) && Safe(After(s, acts))
    decreases |acts|
  {
    hide Inv, Safe, Next, Enabled, Misses;
    if acts != [] {
      StepKeeps(s, acts[0]);
      RunIsSafe(Next(s, acts[0]), acts[1..]);
    }
  }

  /** Safety over every interleaving: unless a tracked realloc went unnoticed, every key of
      `live_samples` is a block the allocator has handed out, or the old pointer of a tracked
      realloc that some thread is still running. All other failures, of maps and ring, are harmless
      here. */
  lemma LiveSamplesAreLive(interval: u64, acts: seq<Action>, key: u64)
    requires IsRun(Initial(interval), acts) && NoneMissed(Initial(interval), acts)
    requires key in After(Initial(interval), acts).kernel.liveSamples
    ensures var s := After(Initial(interval), acts);
            key in s.blocks
            || exists t :: Claims(s, t, key) && t in s.threads && !s.threads[t].Freeing?
                 && s.threads[t].call.operation.OpRealloc? && s.threads[t].call.oldPtr == key
  {
    var s := After(Initial(interval), acts);
    RunIsSafe(Initial(interval), acts);
    assert Explained(s, key);
    if key !in s.blocks {
      var t :| Claims(s, t, key);
      assert PhaseOk(s.threads[t]);
    }
  }

  /** A realloc that went unnoticed moves its block: two steps later its old pointer is a key that
      is no block and that no call claims. */
  lemma MissedReallocGoesStale(s: System, a: Action, spare: u64, exit: Action)
    requires Inv(s) && Enabled(s, a) && Misses(s, a)
    requires spare != 0 && spare !in s.blocks && exit.Exit? && exit.tid == a.tid
    ensures var allocate := Allocate(a.tid, spare, true);
            && Enabled(Next(s, a), allocate)
            && Enabled(Next(Next(s, a), allocate), exit)
            && var t := Next(Next(Next(s, a), allocate), exit);
               && a.call.oldPtr in t.kernel.liveSamples && a.call.oldPtr !in t.blocks
               && !Claimed(t, a.call.oldPtr)
  {
    hide Begin, Finish;
    var moved := a.call.oldPtr;
    BeginEffect(s.kernel, s.interval, a.tid, a.call, a.entry);
    UnsavedEntry(s.kernel, s.interval, a.tid, a.call, a.entry);
    assert a.tid !in s.kernel.pending;
    var s1 := Next(s, a);
    var s2 := Next(s1, Allocate(a.tid, spare, true));
    FinishWithoutPending(s2.kernel, a.tid, a.call.operation.OpPosixMemalign?, ExitView(s2.threads[a.tid], exit));
    var s3 := Next(s2, exit);
    forall t
      ensures !Claims(s3, t, moved)
    {
      assert !Claims(s, t, moved);
    }
  }

  lemma UnsavedEntry(k: Kernel, interval: u64, tid: nat, call: Call, o: EntryOutcome)
    requires !o.pendingUpdated
    ensures Begin(k, interval, tid, call, o).pending == k.pending
  {
    hide IsSampled;
  }

  /** The condition of `LiveSamplesAreLive` is exact: in every reachable state, while the allocator
      has an address left, a realloc that goes unnoticed can break the safety of the map. */
  lemma MissedReallocBreaksSafety(interval: u64, acts: seq<Action>, a: Action, spare: u64, exit: Action)
    requires IsRun(Initial(interval), acts)
    requires var s := After(Initial(interval), acts);
             Enabled(s, a) && Misses(s, a) && spare != 0 && spare !in s.blocks
    requires exit.Exit? && exit.tid == a.tid
    ensures var more := [a, Allocate(a.tid, spare, true), exit];
            && IsRun(Initial(interval), acts + more)
            && var t := After(Initial(interval), acts + more);
               && a.call.oldPtr in t.kernel.liveSamples && a.call.oldPtr !in t.blocks
               && !Claimed(t, a.call.oldPtr)
  {
    var s0 := Initial(interval);
    RunKeeps(s0, acts);
    MissedReallocGoesStale(After(s0, acts), a, spare, exit);
    hide IsRun, After, Enabled, Next, Misses, Inv, Claimed, Initial;
    var allocate := Allocate(a.tid, spare, true);
    var longer := RunCall(s0, acts, a, allocate, exit);
    assert acts + [a] + [allocate] + [exit] == acts + [a, allocate, exit];
  }

  // How long a block stays tracked.

  /** The return probe of a tracked realloc gives up this key as its old pointer. */
  predicate GivesUp(s: System, a: Action, key: u64)
    requires a.Exit? && Enabled(s, a)
  {
    && a.tid in s.kernel.pending
    && var p, view := s.kernel.pending[a.tid], ExitView(s.threads[a.tid], a);
       && p.operation.OpRealloc? && p.oldTracked && p.oldPtr == key
       && (ReturnedPointer(p, s.threads[a.tid].call.operation.OpPosixMemalign?, view) != 0 || p.size == 0)
  }

  /** The map a return probe inserts into. */
  function BeforeInsertion(k: Kernel, p: PendingAllocation, ptr: u64): map<u64, nat> {
    if ReleasesOld(k, p, ptr) then k.liveSamples - {p.oldPtr} else k.liveSamples
  }

  /** The return probe inserts a new key into a full map that gives up this one. */
  predicate Displaces(s: System, a: Action, key: u64)
    requires a.Exit? && Enabled(s, a)
  {
    && a.tid in s.kernel.pending
    && var p, view := s.kernel.pending[a.tid], ExitView(s.threads[a.tid], a);
       var ptr := ReturnedPointer(p, s.threads[a.tid].call.operation.OpPosixMemalign?, view);
       var live := BeforeInsertion(s.kernel, p, ptr);
       && p.sampled && ptr != 0 && view.liveUpdated && view.victim == key
       && ptr !in live && |live| >= LIVE_SAMPLE_CAPACITY
  }

  lemma FinishLoses(k: Kernel, tid: nat, posixMemalign: bool, o: ExitOutcome, key: u64)
    requires tid in k.pending && key in k.liveSamples
    requires key != ReturnedPointer(k.pending[tid], posixMemalign, o)
    ensures var p := k.pending[tid];
            var ptr := ReturnedPointer(p, posixMemalign, o);
            var live := BeforeInsertion(k, p, ptr);
            key !in Finish(k, tid, posixMemalign, o).liveSamples
            <==> (ReleasesOld(k, p, ptr) && p.oldPtr == key)
                 || (p.sampled && ptr != 0 && o.liveUpdated && o.victim == key
                     && ptr !in live && |live| >= LIVE_SAMPLE_CAPACITY)
  {
    hide ReturnedPointer;
  }

  /** A tracked block that the program holds stays tracked until exactly one of three things happens:
      it is freed, a full map gives it up for a new key, or a realloc returns that had moved away from
      its address before the allocator handed the address out again. */
  lemma TrackedUntil(s: System, a: Action, key: u64)
    requires Inv(s) && Enabled(s, a) && key in s.held && key in s.kernel.liveSamples
    ensures key !in Next(s, a).kernel.liveSamples
      <==> (a.EnterFree? && a.pointer == key) || (a.Exit? && (GivesUp(s, a, key) || Displaces(s, a, key)))
    ensures a.Exit? && GivesUp(s, a, key) ==> s.threads[a.tid].oldFreed
  {
    match a
    case Enter(tid, call, entry) =>
      BeginEffect(s.kernel, s.interval, tid, call, entry);
      hide Begin;
    case EnterFree(_, pointer, room) =>
      FreeEffect(s.kernel, pointer, room);
      hide Free;
    case Exit(tid, _, _, _, _, _) =>
      ExitLoses(s, a, key);
    case _ =>
  }

  lemma ExitLoses(s: System, a: Action, key: u64)
    requires Inv(s) && Enabled(s, a) && a.Exit? && key in s.held && key in s.kernel.liveSamples
    ensures key !in Next(s, a).kernel.liveSamples <==> GivesUp(s, a, key) || Displaces(s, a, key)
    ensures GivesUp(s, a, key) ==> s.threads[a.tid].oldFreed
  {
    var phase := s.threads[a.tid];
    assert key !in Owned(phase) && key != 0;
    hide Ownership, Finish, FreeingUntracked;
    if a.tid in s.kernel.pending {
      ExitPointer(s, a);
      FinishLoses(s.kernel, a.tid, phase.call.operation.OpPosixMemalign?, ExitView(phase, a), key);
    } else {
      FinishWithoutPending(s.kernel, a.tid, phase.call.operation.OpPosixMemalign?, ExitView(phase, a));
    }
  }

  lemma {:induction false} RunSplit(s: System, a: seq<Action>, b: seq<Action>)
    requires IsRun(s, a) && IsRun(After(s, a), b)
    ensures IsRun(s, a + b) && After(s, a + b) == After(After(s, a), b)
    decreases |a|
  {
    if a == [] {
      assert a + b == b;
    } else {
      assert (a + b)[0] == a[0] && (a + b)[1..] == a[1..] + b;
      RunSplit(Next(s, a[0]), a[1..], b);
    }
  }

  lemma RunOne(s: System, a: Action)
    requires Enabled(s, a)
    ensures IsRun(s, [a]) && After(s, [a]) == Next(s, a)
  {
    assert [a][1..] == [];
    assert IsRun(Next(s, a), []);
    assert After(Next(s, a), []) == Next(s, a);
  }

  /** Appends one action to a run. */
  lemma RunExtend(s: System, acts: seq<Action>, a: Action)
    requires IsRun(s, acts) && Enabled(After(s, acts), a)
    ensures IsRun(s, acts + [a]) && After(s, acts + [a]) == Next(After(s, acts), a)
  {
    RunOne(After(s, acts), a);
    RunSplit(s, acts, [a]);
  }

  /** Three steps of one thread: a call entered, answered and returned from. */
  lemma RunCall(s: System, acts: seq<Action>, enter: Action, allocate: Action, exit: Action)
    returns (longer: seq<Action>)
    requires IsRun(s, acts) && Enabled(After(s, acts), enter)
    requires Enabled(Next(After(s, acts), enter), allocate)
    requires Enabled(Next(Next(After(s, acts), enter), allocate), exit)
    ensures IsRun(s, longer) && longer == acts + [enter] + [allocate] + [exit]
    ensures After(s, longer) == Next(Next(Next(After(s, acts), enter), allocate), exit)
  {
    hide IsRun, After, Enabled, Next;
    RunExtend(s, acts, enter);
    RunExtend(s, acts + [enter], allocate);
    RunExtend(s, acts + [enter] + [allocate], exit);
    longer := acts + [enter] + [allocate] + [exit];
  }

  const PLAIN_ENTRY := EntryOutcome(0, 0, true, [], false, true)
  const PLAIN_EXIT := Exit(1, false, true, true, true, 0)

  /** One byte allocated with an interval of one byte is always sampled and tracked. */
  lemma OneByteEnters(k: Kernel)
    requires k == INITIAL_KERNEL
    ensures var k' := Begin(k, 1, 1, Call(OpAlloc, 1, 0, 0), PLAIN_ENTRY);
            && k'.pending == map[1 := PendingOf(Call(OpAlloc, 1, 0, 0), 1, 1, true, false)]
            && k'.liveSamples == map[]
  {
    assert IsSampled(Call(OpAlloc, 1, 0, 0), 1, PLAIN_ENTRY);
  }

  lemma OneByteReturns(k: Kernel, o: ExitOutcome)
    requires k.pending == map[1 := PendingOf(Call(OpAlloc, 1, 0, 0), 1, 1, true, false)]
    requires k.liveSamples == map[] && o.returned == 100 && o.liveUpdated
    ensures var k' := Finish(k, 1, false, o);
            k'.liveSamples.Keys == {100} && k'.pending == map[]
  {
  }

  lemma OneTrackedBlock(s: System)
    requires s == Initial(1)
    ensures var enter, allocate := Enter(1, Call(OpAlloc, 1, 0, 0), PLAIN_ENTRY), Allocate(1, 100, false);
            && Enabled(s, enter) && Enabled(Next(s, enter), allocate)
            && Enabled(Next(Next(s, enter), allocate), PLAIN_EXIT)
            && var t := Next(Next(Next(s, enter), allocate), PLAIN_EXIT);
               && t.threads == map[] && t.held == {100} && t.blocks == {100} && t.interval == 1
               && t.kernel.liveSamples.Keys == {100} && t.kernel.pending == map[]
  {
    hide Begin, Finish;
    var s1 := Next(s, Enter(1, Call(OpAlloc, 1, 0, 0), PLAIN_ENTRY));
    OneByteEnters(s.kernel);
    var s2 := Next(s1, Allocate(1, 100, false));
    assert s2.blocks == {100};
    OneByteReturns(s2.kernel, ExitView(s2.threads[1], PLAIN_EXIT));
  }

  /** A realloc of that block whose `pending` update fails goes unnoticed. */
  lemma UnnoticedRealloc(s: System)
    requires s.threads == map[] && s.held == {100} && s.blocks == {100} && s.interval == 1
    requires s.kernel.liveSamples.Keys == {100} && s.kernel.pending == map[]
    ensures var enter := Enter(1, Call(OpRealloc, 1, 100, 0), PLAIN_ENTRY.(pendingUpdated := false));
            var allocate := Allocate(1, 200, true);
            && Enabled(s, enter) && Enabled(Next(s, enter), allocate)
            && Enabled(Next(Next(s, enter), allocate), PLAIN_EXIT)
            && var t := Next(Next(Next(s, enter), allocate), PLAIN_EXIT);
               t.threads == map[] && t.blocks == {200} && t.kernel.liveSamples.Keys == {100}
  {
    hide Finish, Begin;
    var enter := Enter(1, Call(OpRealloc, 1, 100, 0), PLAIN_ENTRY.(pendingUpdated := false));
    var s1 := Next(s, enter);
    assert s1.kernel.pending == map[] && s1.kernel.liveSamples == s.kernel.liveSamples by {
      FailedUpdate(s.kernel, enter);
    }
    var s2 := Next(s1, Allocate(1, 200, true));
    assert s2.blocks == {200};
    FinishWithoutPending(s2.kernel, 1, false, ExitView(s2.threads[1], PLAIN_EXIT));
  }

  lemma FailedUpdate(k: Kernel, a: Action)
    requires a.Enter? && !a.entry.pendingUpdated
    ensures var k' := Begin(k, 1, a.tid, a.call, a.entry);
            k'.pending == k.pending && k'.liveSamples == k.liveSamples
  {
    hide IsSampled;
  }

  /** It can happen: a run from the start after which a moved block's old pointer stays in the map
      although no call is in progress. */
  lemma FailedUpdateLeavesStaleKey() returns (acts: seq<Action>)
    ensures IsRun(Initial(1), acts)
    ensures var s := After(Initial(1), acts);
            s.threads == map[] && 100 in s.kernel.liveSamples && 100 !in s.blocks
  {
    var s0 := Initial(1);
    acts := [];
    assert IsRun(s0, acts) && After(s0, acts) == s0;
    hide IsRun, After, Enabled, Next, Initial;
    OneTrackedBlock(s0);
    acts := RunCall(s0, acts, Enter(1, Call(OpAlloc, 1, 0, 0), PLAIN_ENTRY), Allocate(1, 100, false), PLAIN_EXIT);
    UnnoticedRealloc(After(s0, acts));
    acts := RunCall(s0, acts, Enter(1, Call(OpRealloc, 1, 100, 0), PLAIN_ENTRY.(pendingUpdated := false)),
                    Allocate(1, 200, true), PLAIN_EXIT);
    assert 100 in After(s0, acts).kernel.liveSamples.Keys;
  }
}
