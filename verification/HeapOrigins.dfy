/** What userspace holds live, traced back to the calls that ran: bpf/heap.bpf.c, lines 160-337, and
    src/platform/linux/heap.rs, lines 190-332. */
module HeapOrigins {
  import opened Machine
  import opened HeapProbes
  import opened HeapCollection
  import opened HeapPipeline
  import opened HeapStateModel
  import opened HeapRecords
  import HeapSafety
  import HeapTracking
  import Maps
  import Sampling

  type Event = HeapProbes.Event

  // The part of a run that the probes and the allocator see.

  function ProbesOf(acts: seq<HeapPipeline.Action>): seq<HeapSafety.Action> {
    if acts == [] then []
    else (if acts[0].Probe? then [acts[0].action] else []) + ProbesOf(acts[1..])
  }

  lemma {:induction false} ProbesRun(p: Pipeline, acts: seq<HeapPipeline.Action>, ranges: seq<Maps.Range>)
    requires HeapPipeline.IsRun(p, acts, ranges)
    ensures HeapSafety.IsRun(p.system, ProbesOf(acts))
    ensures HeapPipeline.After(p, acts, ranges).system == HeapSafety.After(p.system, ProbesOf(acts))
    decreases |acts|
  {
    if acts != [] {
      var next := HeapPipeline.Next(p, acts[0], ranges);
      ProbesRun(next, acts[1..], ranges);
      ProbeSystem(p, acts[0], ranges);
      hide HeapPipeline.Next, HeapPipeline.Enabled, HeapSafety.Next, HeapSafety.Enabled;
      if acts[0].Probe? {
        assert ProbesOf(acts)[0] == acts[0].action && ProbesOf(acts)[1..] == ProbesOf(acts[1..]);
      } else {
        assert ProbesOf(acts) == ProbesOf(acts[1..]);
      }
    }
  }

  lemma ProbeSystem(p: Pipeline, a: HeapPipeline.Action, ranges: seq<Maps.Range>)
    requires HeapPipeline.Enabled(p, a)
    ensures a.Probe? ==>
      && HeapSafety.Enabled(p.system, a.action)
      && HeapPipeline.Next(p, a, ranges).system == HeapSafety.Next(p.system, a.action)
    ensures !a.Probe? ==> HeapPipeline.Next(p, a, ranges).system == p.system
  {
    hide HeapSafety.Next, HeapSafety.Enabled, ApplyAll, ApplyRecord;
  }

  // What the collector keeps of the records.

  /** A live entry is what a stack record and an ALLOC record of one token say together. */
  ghost predicate Recorded(ring: seq<Event>, block: u64, entry: LiveAllocation) {
    exists token: nat, size: u64, weight: u64 ::
      && AllocRecord(token, block, size, weight) in ring && StackRecord(token, entry.stack) in ring
      && entry.weight == weight && entry.weightedSpace == Min(size * weight, U64_MAX)
  }

  /** A stack with frames, all of them executable and no two alike. */
  predicate Proper(stack: HeapProbes.Stack, ranges: seq<Maps.Range>) {
    && stack != []
    && (forall i :: 0 <= i < |stack| ==> Maps.Covers(ranges, stack[i]))
    && forall i, j :: 0 <= i < j < |stack| ==> stack[i] != stack[j]
  }

  /** Everything the collector holds was in the ring, and its stacks are proper. */
  ghost predicate AllRecorded(ring: seq<Event>, c: Collector, ranges: seq<Maps.Range>) {
    && (forall t :: t in c.pendingStacks ==>
          StackRecord(t, c.pendingStacks[t]) in ring && Proper(c.pendingStacks[t], ranges))
    && (forall block :: block in c.live ==>
          Recorded(ring, block, c.live[block]) && Proper(c.live[block].stack, ranges))
  }

  lemma StackRecorded(ring: seq<Event>, c: Collector, e: Event, ranges: seq<Maps.Range>)
    requires AllRecorded(ring, c, ranges) && e in ring && e.StackRecord?
    ensures AllRecorded(ring, ApplyRecord(c, e, ranges), ranges)
  {
    assert IsUsable(e.frames, ranges) ==> Proper(e.frames, ranges);
    hide Pruned, Recorded, IsUsable, Proper;
    var stacks := c.pendingStacks[e.token := e.frames];
    PrunedFrom(stacks);
  }

  lemma FreeRecorded(ring: seq<Event>, c: Collector, e: Event, ranges: seq<Maps.Range>)
    requires AllRecorded(ring, c, ranges) && e.FreeRecord?
    ensures AllRecorded(ring, ApplyRecord(c, e, ranges), ranges)
  {
    hide Recorded, Proper;
  }

  lemma RecordRecorded(ring: seq<Event>, c: Collector, e: Event, ranges: seq<Maps.Range>)
    requires AllRecorded(ring, c, ranges) && e in ring
    ensures AllRecorded(ring, ApplyRecord(c, e, ranges), ranges)
  {
    match e
    case StackRecord(_, _) => StackRecorded(ring, c, e, ranges);
    case AllocRecord(_, _, _, _) => BlockRecorded(ring, c, e, ranges);
    case FreeRecord(_, _) => FreeRecorded(ring, c, e, ranges);
  }

  lemma BlockRecorded(ring: seq<Event>, c: Collector, e: Event, ranges: seq<Maps.Range>)
    requires AllRecorded(ring, c, ranges) && e in ring && e.AllocRecord?
    ensures AllRecorded(ring, ApplyRecord(c, e, ranges), ranges)
  {
    if e.token in c.pendingStacks {
      AllocRecorded(ring, c, e, ranges);
    }
    hide Recorded, Proper;
  }

  lemma PrunedFrom(stacks: map<nat, HeapProbes.Stack>)
    ensures forall t :: t in Pruned(stacks) ==> t in stacks && Pruned(stacks)[t] == stacks[t]
  {
  }

  lemma AllocRecorded(ring: seq<Event>, c: Collector, e: Event, ranges: seq<Maps.Range>)
    requires AllRecorded(ring, c, ranges) && e in ring && e.AllocRecord? && e.token in c.pendingStacks
    ensures Recorded(ring, e.pointer, AllocationOf(Alloc(e.pointer, e.size, e.weight, c.pendingStacks[e.token])))
  {
    assert AllocRecord(e.token, e.pointer, e.size, e.weight) in ring;
  }

  lemma {:induction false} RecordsRecorded(ring: seq<Event>, c: Collector, es: seq<Event>, ranges: seq<Maps.Range>)
    requires AllRecorded(ring, c, ranges) && forall i :: 0 <= i < |es| ==> es[i] in ring
    ensures AllRecorded(ring, ApplyAll(c, es, ranges), ranges)
    decreases |es|
  {
    hide AllRecorded, ApplyRecord;
    if es != [] {
      RecordRecorded(ring, c, es[0], ranges);
      RecordsRecorded(ring, ApplyRecord(c, es[0], ranges), es[1..], ranges);
    }
  }

  lemma RingGrows(s: HeapSafety.System, a: HeapSafety.Action)
    requires HeapSafety.Enabled(s, a)
    ensures s.kernel.ring <= HeapSafety.Next(s, a).kernel.ring
  {
    hide Begin, Finish, ReturnedPointer, HeapSafety.ExitView;
    match a
    case Enter(tid, call, entry) => HeapTracking.EnterRing(s.kernel, s.interval, tid, call, entry);
    case Exit(tid, _, _, _, _, _) =>
      var posix, o := s.threads[tid].call.operation.OpPosixMemalign?, HeapSafety.ExitView(s.threads[tid], a);
      if tid in s.kernel.pending {
        FinishSends(s.kernel, tid, posix, o);
      } else {
        HeapSafety.FinishWithoutPending(s.kernel, tid, posix, o);
      }
    case _ =>
  }

  lemma LongerRing(ring: seq<Event>, longer: seq<Event>, c: Collector, ranges: seq<Maps.Range>)
    requires AllRecorded(ring, c, ranges) && ring <= longer
    ensures AllRecorded(longer, c, ranges)
  {
    assert forall e: Event :: e in ring ==> e in longer;
  }

  /** Userspace holds only what was recorded, and its queue only what is in the ring. */
  ghost predicate Traced(p: Pipeline, ranges: seq<Maps.Range>) {
    && AllRecorded(p.system.kernel.ring, p.user, ranges)
    && forall i :: 0 <= i < |p.queue| ==> p.queue[i] in p.system.kernel.ring
  }

  lemma ProbeTraced(p: Pipeline, a: HeapSafety.Action, ranges: seq<Maps.Range>)
    requires Traced(p, ranges) && HeapPipeline.Enabled(p, Probe(a))
    ensures Traced(HeapPipeline.Next(p, Probe(a), ranges), ranges)
  {
    RingGrows(p.system, a);
    hide HeapSafety.Next, HeapSafety.Enabled, AllRecorded;
    var ring := HeapSafety.Next(p.system, a).kernel.ring;
    LongerRing(p.system.kernel.ring, ring, p.user, ranges);
    assert forall e: Event :: e in p.system.kernel.ring ==> e in ring;
  }

  lemma SnapshotTraced(p: Pipeline, ranges: seq<Maps.Range>)
    requires Traced(p, ranges) && HeapPipeline.Enabled(p, Snapshot)
    ensures Traced(HeapPipeline.Next(p, Snapshot, ranges), ranges)
  {
    var waiting, ring := Waiting(p), p.system.kernel.ring;
    RecordsRecorded(ring, p.user, waiting[..Admitted(|waiting|)], ranges);
    hide ApplyAll, Recorded;
  }

  lemma StepTraced(p: Pipeline, a: HeapPipeline.Action, ranges: seq<Maps.Range>)
    requires Traced(p, ranges) && HeapPipeline.Enabled(p, a)
    ensures Traced(HeapPipeline.Next(p, a, ranges), ranges)
  {
    match a
    case Probe(action) => ProbeTraced(p, action, ranges);
    case Callback =>
    case Receive => RecordRecorded(p.system.kernel.ring, p.user, p.queue[0], ranges);
    case Snapshot => SnapshotTraced(p, ranges);
    hide AllRecorded, ApplyRecord, ApplyAll, HeapSafety.Next, HeapSafety.Enabled;
  }

  lemma {:induction false} RunTraced(p: Pipeline, acts: seq<HeapPipeline.Action>, ranges: seq<Maps.Range>)
    requires Traced(p, ranges) && HeapPipeline.IsRun(p, acts, ranges)
    ensures Traced(HeapPipeline.After(p, acts, ranges), ranges)
    decreases |acts|
  {
    hide Traced, HeapPipeline.Next, HeapPipeline.Enabled;
    if acts != [] {
      StepTraced(p, acts[0], ranges);
      RunTraced(HeapPipeline.Next(p, acts[0], ranges), acts[1..], ranges);
    }
  }

  // The results.

  /** In every run of the pipeline, every record of the ring carries what the call of its token brought. */
  lemma RingCarriesCalls(interval: u64, acts: seq<HeapPipeline.Action>, ranges: seq<Maps.Range>) returns (issued: seq<nat>)
    requires HeapPipeline.IsRun(HeapPipeline.Initial(interval), acts, ranges)
    ensures var s := HeapPipeline.After(HeapPipeline.Initial(interval), acts, ranges).system;
            Carries(s, ProbesOf(acts), issued) && s.interval == interval
  {
    ProbesRun(HeapPipeline.Initial(interval), acts, ranges);
    issued := RecordsCarryCalls(interval, ProbesOf(acts));
    SameInterval(HeapSafety.Initial(interval), ProbesOf(acts));
    hide Carries, HeapSafety.IsRun, HeapSafety.After, HeapPipeline.IsRun, HeapPipeline.After;
  }

  lemma {:induction false} SameInterval(s: HeapSafety.System, run: seq<HeapSafety.Action>)
    requires HeapSafety.IsRun(s, run)
    ensures HeapSafety.After(s, run).interval == s.interval
    decreases |run|
  {
    if run != [] {
      SameInterval(HeapSafety.Next(s, run[0]), run[1..]);
    }
  }

  /** In every run, whatever was dropped, evicted, lost or resynchronised: a block that userspace holds
      live was given to a call that entered before, and its entry is that call's stack, which is proper, a
      weight for that call's size, and the space that size and weight stand for. */
  lemma LiveEntriesAreCalls(interval: u64, acts: seq<HeapPipeline.Action>, ranges: seq<Maps.Range>, block: u64)
    returns (enter: nat, answer: nat)
    requires HeapPipeline.IsRun(HeapPipeline.Initial(interval), acts, ranges)
    requires block in HeapPipeline.After(HeapPipeline.Initial(interval), acts, ranges).user.live
    ensures var run, entry := ProbesOf(acts), HeapPipeline.After(HeapPipeline.Initial(interval), acts, ranges).user.live[block];
            && enter < answer < |run| && run[enter].Enter? && run[answer].Allocate?
            && run[answer].tid == run[enter].tid && run[answer].result == block
            && entry.stack == run[enter].entry.frames && Proper(entry.stack, ranges)
            && Sampling.Weighs(entry.weight, run[enter].call.size, interval)
            && entry.weightedSpace == Min(run[enter].call.size * entry.weight, U64_MAX)
  {
    var start := HeapPipeline.Initial(interval);
    RunTraced(start, acts, ranges);
    var issued := RingCarriesCalls(interval, acts, ranges);
    hide HeapPipeline.IsRun, HeapPipeline.After, Sampling.Weighs, Recorded, RingCarries, EntriesCarry, KeysCarry;
    var p := HeapPipeline.After(start, acts, ranges);
    enter, answer := EntryOrigin(p.system.kernel.ring, interval, ProbesOf(acts), issued, block, p.user.live[block]);
  }

  /** An entry recorded in a ring of records that carry their calls. */
  lemma EntryOrigin(ring: seq<Event>, interval: u64, run: seq<HeapSafety.Action>, issued: seq<nat>, block: u64,
                    entry: LiveAllocation) returns (enter: nat, answer: nat)
    requires AreIssued(run, issued) && RingCarries(ring, interval, run, issued) && Recorded(ring, block, entry)
    ensures enter < answer < |run| && run[enter].Enter? && run[answer].Allocate?
    ensures run[answer].tid == run[enter].tid && run[answer].result == block
    ensures entry.stack == run[enter].entry.frames
    ensures Sampling.Weighs(entry.weight, run[enter].call.size, interval)
    ensures entry.weightedSpace == Min(run[enter].call.size * entry.weight, U64_MAX)
  {
    hide Sampling.Weighs;
    var token: nat, size: u64, weight: u64 :|
      && AllocRecord(token, block, size, weight) in ring && StackRecord(token, entry.stack) in ring
      && entry.weight == weight && entry.weightedSpace == Min(size * weight, U64_MAX);
    var i :| 0 <= i < |ring| && ring[i] == AllocRecord(token, block, size, weight);
    var j :| 0 <= j < |ring| && ring[j] == StackRecord(token, entry.stack);
    assert RecordCarries(ring[i], interval, run, issued) && RecordCarries(ring[j], interval, run, issued);
    hide RingCarries;
    enter := issued[token - 1];
    answer :| enter < answer < |run| && run[answer].Allocate? && run[answer].tid == run[enter].tid && run[answer].result == block;
  }
}
