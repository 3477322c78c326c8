/** The allocator probes that run in the kernel: bpf/heap.bpf.c. One probe is one atomic step. */
module HeapProbes {
  import opened Machine
  import Sampling

  /** Capacity of the LRU map of live samples. */
  const LIVE_SAMPLE_CAPACITY: nat := 262144

  type Stack = seq<u64>

  datatype Operation = OpAlloc | OpRealloc | OpPosixMemalign

  datatype Call = Call(operation: Operation, size: u64, oldPtr: u64, outputPtr: u64)

  datatype PendingAllocation = PendingAllocation(
    token: nat, size: u64, weight: u64, oldPtr: u64, outputPtr: u64,
    operation: Operation, sampled: bool, oldTracked: bool)

  /** Records of the event ring; a stack record carries the frames userspace will decode. */
  datatype Event =
    | StackRecord(token: nat, frames: Stack)
    | AllocRecord(token: nat, pointer: u64, size: u64, weight: u64)
    | FreeRecord(token: nat, pointer: u64)

  datatype Stats = Stats(
    ringbufDrops: nat, pendingOverwrites: nat, mapUpdateFailures: nat, stackFailures: nat,
    allocEvents: nat, sampledAllocs: nat, sampledFrees: nat, mapEvictions: nat)

  const NO_STATS := Stats(0, 0, 0, 0, 0, 0, 0, 0)

  datatype Kernel = Kernel(
    pending: map<nat, PendingAllocation>, liveSamples: map<u64, nat>,
    nextToken: nat, liveCount: nat, stats: Stats, ring: seq<Event>)

  const INITIAL_KERNEL := Kernel(map[], map[], 0, 0, NO_STATS, [])

  /** What the helpers answer inside an entry probe: the random draws, whether the ring and the
      `pending` map take the record, and the captured stack. */
  datatype EntryOutcome = EntryOutcome(
    first: nat, second: nat, ringHasRoom: bool, frames: Stack, stackFailed: bool, pendingUpdated: bool)

  /** The same for a return probe: the return value, the word read through `output_ptr`, ring
      room for either record, the map update, and which entry a full LRU map gives up. */
  datatype ExitOutcome = ExitOutcome(
    returned: u64, output: u64, outputRead: bool, roomForFree: bool, roomForAlloc: bool,
    liveUpdated: bool, victim: u64)

  /** `emit_control`, and the reservation half of `emit_stack`. */
  function Emit(k: Kernel, e: Event, room: bool): Kernel {
    if room then k.(ring := k.ring + [e])
    else k.(stats := k.stats.(ringbufDrops := k.stats.ringbufDrops + 1))
  }

  function EmitStack(k: Kernel, token: nat, o: EntryOutcome): Kernel {
    var emitted := Emit(k, StackRecord(token, o.frames), o.ringHasRoom);
    if o.ringHasRoom && o.stackFailed then
      emitted.(stats := emitted.stats.(stackFailures := emitted.stats.stackFailures + 1))
    else emitted
  }

  ghost predicate IsSampled(call: Call, interval: u64, o: EntryOutcome) {
    call.size != 0 && Sampling.ShouldSample(Sampling.SamplingWeightOf(call.size, interval), o.first, o.second)
  }

  predicate IsTracked(k: Kernel, call: Call) {
    call.oldPtr != 0 && call.oldPtr in k.liveSamples
  }

  function CountEntry(k: Kernel, tid: nat): Kernel {
    var stats := k.stats.(allocEvents := k.stats.allocEvents + 1);
    k.(stats := if tid in k.pending then stats.(pendingOverwrites := stats.pendingOverwrites + 1) else stats)
  }

  function SetPending(k: Kernel, tid: nat, p: PendingAllocation, updated: bool): Kernel {
    if updated then k.(pending := k.pending[tid := p])
    else k.(stats := k.stats.(mapUpdateFailures := k.stats.mapUpdateFailures + 1))
  }

  function PendingOf(call: Call, token: nat, weight: u64, sampled: bool, oldTracked: bool): PendingAllocation {
    PendingAllocation(token, call.size, weight, call.oldPtr, call.outputPtr, call.operation, sampled, oldTracked)
  }

  /** `begin_allocation`. */
  ghost function Begin(k: Kernel, interval: u64, tid: nat, call: Call, o: EntryOutcome): Kernel {
    var weight, sampled, tracked := Sampling.SamplingWeightOf(call.size, interval), IsSampled(call, interval, o), IsTracked(k, call);
    var counted := CountEntry(k, tid);
    if !sampled && !tracked then counted
    else if sampled then
      var token := counted.nextToken + 1;
      SetPending(EmitStack(counted.(nextToken := token), token, o), tid,
                 PendingOf(call, token, weight, true, tracked), o.pendingUpdated)
    else
      SetPending(counted, tid, PendingOf(call, 0, weight, false, tracked), o.pendingUpdated)
  }

  /** Deleting a key that was just looked up, with its counter. */
  function DeleteLive(k: Kernel, ptr: u64): Kernel {
    k.(liveSamples := k.liveSamples - {ptr}, liveCount := SaturatingSub(k.liveCount, 1))
  }

  /** Emitting the FREE record of a tracked pointer and forgetting it. */
  function ReleaseLive(k: Kernel, ptr: u64, room: bool): Kernel
    requires ptr in k.liveSamples
  {
    var emitted := Emit(k, FreeRecord(k.liveSamples[ptr], ptr), room);
    DeleteLive(emitted.(stats := emitted.stats.(sampledFrees := emitted.stats.sampledFrees + 1)), ptr)
  }

  /** Whether the LRU map can take the key: it is there, there is room, or a resident key gives way. */
  predicate HasSlot(live: map<u64, nat>, ptr: u64, victim: u64) {
    ptr in live || |live| < LIVE_SAMPLE_CAPACITY || victim in live
  }

  /** An insertion into the LRU map: a new key in a full map displaces the victim. */
  function LruInsert(live: map<u64, nat>, ptr: u64, token: nat, victim: u64): map<u64, nat> {
    if ptr in live || |live| < LIVE_SAMPLE_CAPACITY then live[ptr := token]
    else (live - {victim})[ptr := token]
  }

  /** Inserting a sampled allocation, counting it, and emitting its ALLOC record. */
  function RecordLive(k: Kernel, p: PendingAllocation, ptr: u64, o: ExitOutcome): Kernel {
    if !o.liveUpdated || !HasSlot(k.liveSamples, ptr, o.victim) then k.(stats := k.stats.(mapUpdateFailures := k.stats.mapUpdateFailures + 1))
    else
      var live := LruInsert(k.liveSamples, ptr, p.token, o.victim);
      var full := k.liveCount >= LIVE_SAMPLE_CAPACITY;
      var counted := k.(
        liveSamples := live,
        liveCount := if full then k.liveCount else k.liveCount + 1,
        stats := if full then k.stats.(mapEvictions := k.stats.mapEvictions + 1) else k.stats);
      var emitted := Emit(counted, AllocRecord(p.token, ptr, p.size, p.weight), o.roomForAlloc);
      emitted.(stats := emitted.stats.(sampledAllocs := emitted.stats.sampledAllocs + 1))
  }

  /** The pointer a return probe sees. */
  function ReturnedPointer(p: PendingAllocation, posixMemalign: bool, o: ExitOutcome): u64 {
    if posixMemalign then
      if o.returned == 0 && p.outputPtr != 0 && o.outputRead then o.output else 0
    else o.returned
  }

  predicate ReleasesOld(k: Kernel, p: PendingAllocation, ptr: u64) {
    p.operation.OpRealloc? && p.oldTracked && (ptr != 0 || p.size == 0) && p.oldPtr in k.liveSamples
  }

  /** `finish_allocation`. */
  function Finish(k: Kernel, tid: nat, posixMemalign: bool, o: ExitOutcome): Kernel {
    if tid !in k.pending then k
    else
      var p := k.pending[tid];
      var ptr := ReturnedPointer(p, posixMemalign, o);
      var released := if ReleasesOld(k, p, ptr) then ReleaseLive(k, p.oldPtr, o.roomForFree) else k;
      var recorded := if p.sampled && ptr != 0 then RecordLive(released, p, ptr, o) else released;
      recorded.(pending := recorded.pending - {tid})
  }

  /** `free_allocation`. */
  function Free(k: Kernel, ptr: u64, room: bool): Kernel {
    if ptr == 0 || ptr !in k.liveSamples then k else ReleaseLive(k, ptr, room)
  }

  /** The probes on their shared maps and counters. */
  class Probes {
    const interval: u64
    var pending: map<nat, PendingAllocation>
    var liveSamples: map<u64, nat>
    var nextToken: nat
    var liveCount: nat
    var stats: Stats
    var ring: seq<Event>

    function View(): Kernel
      reads this
    {
      Kernel(pending, liveSamples, nextToken, liveCount, stats, ring)
    }

    constructor (interval: u64)
      ensures View() == INITIAL_KERNEL && this.interval == interval
    {
      this.interval := interval;
      pending, liveSamples, nextToken, liveCount, stats, ring := map[], map[], 0, 0, NO_STATS, [];
    }

    method EmitEvent(e: Event, room: bool)
      modifies `ring, `stats
      ensures View() == Emit(old(View()), e, room)
    {
      if !room {
        stats := stats.(ringbufDrops := stats.ringbufDrops + 1);
      } else {
        ring := ring + [e];
      }
    }

    /** `emit_stack`. */
    method EmitStackEvent(token: nat, o: EntryOutcome)
      modifies `ring, `stats
      ensures View() == EmitStack(old(View()), token, o)
    {
      EmitEvent(StackRecord(token, o.frames), o.ringHasRoom);
      if o.ringHasRoom && o.stackFailed {
        stats := stats.(stackFailures := stats.stackFailures + 1);
      }
    }

    method BeginAllocation(tid: nat, call: Call, o: EntryOutcome)
      modifies this
      ensures View() == Begin(old(View()), interval, tid, call, o)
    {
      hide Sampling.ShouldSample, Sampling.SamplingWeightOf, EmitStack, Emit;
      var existing := tid in pending;
      var weight := Sampling.SamplingWeight(call.size, interval);
      var sampled := call.size != 0 && Sampling.ShouldSample(weight, o.first, o.second);
      stats := stats.(allocEvents := stats.allocEvents + 1);
      if existing {
        stats := stats.(pendingOverwrites := stats.pendingOverwrites + 1);
      }
      var tracked := call.oldPtr != 0 && call.oldPtr in liveSamples;
      if !sampled && !tracked {
        return;
      }
      var value := PendingAllocation(0, call.size, weight, call.oldPtr, call.outputPtr, call.operation, sampled, tracked);
      if sampled {
        nextToken := nextToken + 1;
        value := value.(token := nextToken);
        EmitStackEvent(value.token, o);
      }
      if !o.pendingUpdated {
        stats := stats.(mapUpdateFailures := stats.mapUpdateFailures + 1);
        return;
      }
      pending := pending[tid := value];
    }

    method Release(ptr: u64, room: bool)
      requires ptr in liveSamples
      modifies this
      ensures View() == ReleaseLive(old(View()), ptr, room)
    {
      EmitEvent(FreeRecord(liveSamples[ptr], ptr), room);
      stats := stats.(sampledFrees := stats.sampledFrees + 1);
      liveSamples := liveSamples - {ptr};
      if liveCount != 0 {
        liveCount := liveCount - 1;
      }
    }

    method FinishAllocation(tid: nat, posixMemalign: bool, o: ExitOutcome)
      modifies this
      ensures View() == Finish(old(View()), tid, posixMemalign, o)
    {
      if tid !in pending {
        return;
      }
      var value := pending[tid];
      var ptr: u64 := 0;
      if posixMemalign {
        if o.returned == 0 && value.outputPtr != 0 && o.outputRead {
          ptr := o.output;
        }
      } else {
        ptr := o.returned;
      }
      var reallocSucceeded := !value.operation.OpRealloc? || ptr != 0 || value.size == 0;
      if value.operation.OpRealloc? && value.oldTracked && reallocSucceeded {
        if value.oldPtr in liveSamples {
          Release(value.oldPtr, o.roomForFree);
        }
      }
      if value.sampled && ptr != 0 {
        Insert(value, ptr, o);
      }
      pending := pending - {tid};
    }

    method Insert(value: PendingAllocation, ptr: u64, o: ExitOutcome)
      modifies this
      ensures View() == RecordLive(old(View()), value, ptr, o)
    {
      if !o.liveUpdated || !HasSlot(liveSamples, ptr, o.victim) {
        stats := stats.(mapUpdateFailures := stats.mapUpdateFailures + 1);
        return;
      }
      if ptr in liveSamples || |liveSamples| < LIVE_SAMPLE_CAPACITY {
        liveSamples := liveSamples[ptr := value.token];
      } else {
        liveSamples := (liveSamples - {o.victim})[ptr := value.token];
      }
      var previousLiveCount := liveCount;
      liveCount := liveCount + 1;
      if previousLiveCount >= LIVE_SAMPLE_CAPACITY {
        liveCount := liveCount - 1;
        stats := stats.(mapEvictions := stats.mapEvictions + 1);
      }
      EmitEvent(AllocRecord(value.token, ptr, value.size, value.weight), o.roomForAlloc);
      stats := stats.(sampledAllocs := stats.sampledAllocs + 1);
    }

    method FreeAllocation(ptr: u64, room: bool)
      modifies this
      ensures View() == Free(old(View()), ptr, room)
    {
      if ptr == 0 {
        return;
      }
      if ptr !in liveSamples {
        return;
      }
      Release(ptr, room);
    }
  }
}
