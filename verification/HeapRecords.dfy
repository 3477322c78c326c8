/** Where every record of the heap ring comes from, over whole runs: bpf/heap.bpf.c, lines 160-337. */
module HeapRecords {
  import opened Machine
  import opened HeapProbes
  import opened HeapSafety
  import opened HeapTracking
  import opened Sampling

  /** `issued` lists where in the run the calls entered that were given a token, in order. */
  ghost predicate AreIssued(run: seq<Action>, issued: seq<nat>) {
    && (forall i, j :: 0 <= i < j < |issued| ==> issued[i] < issued[j])
    && (forall i :: 0 <= i < |issued| ==> issued[i] < |run| && run[issued[i]].Enter? && run[issued[i]].call.size != 0)
  }

  /** After its entry at `enter` the allocator answered this thread with this block. */
  ghost predicate Answered(run: seq<Action>, enter: nat, tid: nat, block: u64) {
    exists n :: enter < n < |run| && run[n].Allocate? && run[n].tid == tid && run[n].result == block
  }

  predicate IsToken(token: nat, issued: seq<nat>) {
    1 <= token <= |issued|
  }

  /** A record carries what the call of its token brought: a stack record its frames, an ALLOC record its
      size, a weight for that size, and a block that the allocator gave its thread. */
  ghost predicate RecordCarries(e: Event, interval: u64, run: seq<Action>, issued: seq<nat>)
    requires AreIssued(run, issued)
  {
    && IsToken(e.token, issued)
    && var enter := run[issued[e.token - 1]];
       match e
       case StackRecord(_, frames) => frames == enter.entry.frames
       case AllocRecord(token, block, size, weight) =>
         size == enter.call.size && Weighs(weight, size, interval)
         && block != 0 && Answered(run, issued[token - 1], enter.tid, block)
       case FreeRecord(_, _) => true
  }

  /** A sampled entry carries the size of the call its thread is in and a weight for it. */
  ghost predicate EntryCarries(tid: nat, p: PendingAllocation, phase: Phase, interval: u64, run: seq<Action>, issued: seq<nat>)
    requires AreIssued(run, issued)
  {
    && IsToken(p.token, issued)
    && var enter := run[issued[p.token - 1]];
       && enter.tid == tid && p.size == enter.call.size && Weighs(p.weight, p.size, interval)
       && (phase.Returning? ==> Answered(run, issued[p.token - 1], tid, phase.result))
  }

  ghost predicate RingCarries(ring: seq<Event>, interval: u64, run: seq<Action>, issued: seq<nat>)
    requires AreIssued(run, issued)
  {
    forall i :: 0 <= i < |ring| ==> RecordCarries(ring[i], interval, run, issued)
  }

  ghost predicate EntriesCarry(s: System, run: seq<Action>, issued: seq<nat>)
    requires AreIssued(run, issued)
  {
    forall t :: t in s.kernel.pending && s.kernel.pending[t].sampled ==>
      t in s.threads && EntryCarries(t, s.kernel.pending[t], s.threads[t], s.interval, run, issued)
  }

  ghost predicate KeysCarry(live: map<u64, nat>, issued: seq<nat>) {
    forall key :: key in live ==> IsToken(live[key], issued)
  }

  ghost predicate Carries(s: System, run: seq<Action>, issued: seq<nat>) {
    && AreIssued(run, issued) && |issued| == s.kernel.nextToken
    && RingCarries(s.kernel.ring, s.interval, run, issued)
    && EntriesCarry(s, run, issued)
    && KeysCarry(s.kernel.liveSamples, issued)
  }

  lemma AnsweredStays(run: seq<Action>, a: Action, enter: nat, tid: nat, block: u64)
    ensures Answered(run, enter, tid, block) ==> Answered(run + [a], enter, tid, block)
  {
    if n :| enter < n < |run| && run[n].Allocate? && run[n].tid == tid && run[n].result == block {
      assert (run + [a])[n] == run[n];
    }
  }

  lemma IssuedStay(run: seq<Action>, a: Action, issued: seq<nat>, more: seq<nat>)
    requires AreIssued(run, issued)
    requires more == issued || (more == issued + [|run|] && a.Enter? && a.call.size != 0)
    ensures AreIssued(run + [a], more)
    ensures forall i :: 0 <= i < |issued| ==> more[i] == issued[i] && (run + [a])[more[i]] == run[issued[i]]
  {
  }

  /** Whatever was carried is still carried when the run goes on. */
  lemma RecordStays(e: Event, interval: u64, run: seq<Action>, a: Action, issued: seq<nat>, more: seq<nat>)
    requires AreIssued(run, issued) && RecordCarries(e, interval, run, issued)
    requires more == issued || (more == issued + [|run|] && a.Enter? && a.call.size != 0)
    ensures AreIssued(run + [a], more) && RecordCarries(e, interval, run + [a], more)
  {
    IssuedStay(run, a, issued, more);
    hide AreIssued, Answered, Weighs;
    if e.AllocRecord? {
      AnsweredStays(run, a, issued[e.token - 1], run[issued[e.token - 1]].tid, e.pointer);
    }
  }

  lemma EntryStays(tid: nat, p: PendingAllocation, phase: Phase, interval: u64, run: seq<Action>, a: Action,
                   issued: seq<nat>, more: seq<nat>)
    requires AreIssued(run, issued) && EntryCarries(tid, p, phase, interval, run, issued)
    requires more == issued || (more == issued + [|run|] && a.Enter? && a.call.size != 0)
    ensures AreIssued(run + [a], more) && EntryCarries(tid, p, phase, interval, run + [a], more)
  {
    IssuedStay(run, a, issued, more);
    hide AreIssued, Answered, Weighs;
    if phase.Returning? {
      AnsweredStays(run, a, issued[p.token - 1], tid, phase.result);
    }
  }

  // One step.

  lemma AllStay(s: System, run: seq<Action>, a: Action, issued: seq<nat>, more: seq<nat>)
    requires Carries(s, run, issued)
    requires more == issued || (more == issued + [|run|] && a.Enter? && a.call.size != 0)
    ensures AreIssued(run + [a], more)
    ensures RingCarries(s.kernel.ring, s.interval, run + [a], more)
    ensures EntriesCarry(s, run + [a], more) && KeysCarry(s.kernel.liveSamples, more)
  {
    IssuedStay(run, a, issued, more);
    forall i | 0 <= i < |s.kernel.ring|
      ensures RecordCarries(s.kernel.ring[i], s.interval, run + [a], more)
    {
      RecordStays(s.kernel.ring[i], s.interval, run, a, issued, more);
    }
    forall t | t in s.kernel.pending && s.kernel.pending[t].sampled
      ensures t in s.threads && EntryCarries(t, s.kernel.pending[t], s.threads[t], s.interval, run + [a], more)
    {
      EntryStays(t, s.kernel.pending[t], s.threads[t], s.interval, run, a, issued, more);
    }
    hide RecordCarries, EntryCarries, AreIssued;
  }

  lemma BeginCarries(k: Kernel, interval: u64, tid: nat, call: Call, o: EntryOutcome)
    ensures var k', sampled := Begin(k, interval, tid, call, o), IsSampled(call, interval, o);
            && (sampled ==> call.size != 0)
            && k'.nextToken == k.nextToken + (if sampled then 1 else 0)
            && k'.liveSamples == k.liveSamples
            && k'.ring == k.ring + (if sampled && o.ringHasRoom then [StackRecord(k'.nextToken, o.frames)] else [])
            && (k'.pending == k.pending
                || (tid in k'.pending && k'.pending == k.pending[tid := k'.pending[tid]]
                    && (k'.pending[tid].sampled ==>
                          sampled && k'.pending[tid].token == k'.nextToken && k'.pending[tid].size == call.size
                          && k'.pending[tid].weight == SamplingWeightOf(call.size, interval))))
  {
    hide ShouldSample, SamplingWeightOf;
  }

  /** The new stack record and the new entry carry the call that enters. */
  lemma NewCarries(s: System, run: seq<Action>, a: Action, more: seq<nat>)
    requires a.Enter? && AreIssued(run + [a], more) && more != [] && more[|more| - 1] == |run|
    ensures RecordCarries(StackRecord(|more|, a.entry.frames), s.interval, run + [a], more)
    ensures forall p: PendingAllocation ::
      p.token == |more| && p.size == a.call.size && Weighs(p.weight, p.size, s.interval) ==>
        EntryCarries(a.tid, p, Entered(a.call), s.interval, run + [a], more)
  {
  }

  lemma EnterEntries(s: System, run: seq<Action>, a: Action, more: seq<nat>)
    requires Inv(s) && a.Enter? && Enabled(s, a) && AreIssued(run + [a], more) && EntriesCarry(s, run + [a], more)
    requires IsSampled(a.call, s.interval, a.entry) ==>
      |more| == s.kernel.nextToken + 1 && more[|more| - 1] == |run|
    ensures EntriesCarry(Next(s, a), run + [a], more)
  {
    BeginCarries(s.kernel, s.interval, a.tid, a.call, a.entry);
    WeightWeighs(a.call.size, s.interval);
    assert a.tid !in s.kernel.pending;
    hide Inv, Begin, IsSampled, SamplingWeightOf, Weighs, AreIssued, RecordCarries, EntryCarries;
    if IsSampled(a.call, s.interval, a.entry) {
      NewCarries(s, run, a, more);
    }
  }

  lemma EnterRecords(s: System, run: seq<Action>, a: Action, more: seq<nat>)
    requires a.Enter? && Enabled(s, a) && AreIssued(run + [a], more) && RingCarries(s.kernel.ring, s.interval, run + [a], more)
    requires IsSampled(a.call, s.interval, a.entry) ==>
      |more| == s.kernel.nextToken + 1 && more[|more| - 1] == |run|
    ensures RingCarries(Next(s, a).kernel.ring, s.interval, run + [a], more)
    ensures Next(s, a).kernel.nextToken == s.kernel.nextToken + (if IsSampled(a.call, s.interval, a.entry) then 1 else 0)
    ensures Next(s, a).kernel.liveSamples == s.kernel.liveSamples && Next(s, a).interval == s.interval
  {
    BeginCarries(s.kernel, s.interval, a.tid, a.call, a.entry);
    hide Begin, IsSampled, SamplingWeightOf, Weighs, AreIssued, RecordCarries, EntryCarries;
    if IsSampled(a.call, s.interval, a.entry) {
      NewCarries(s, run, a, more);
    }
  }

  lemma SampledHasSize(call: Call, interval: u64, o: EntryOutcome)
    ensures IsSampled(call, interval, o) ==> call.size != 0
  {
  }

  lemma EnterCarries(s: System, run: seq<Action>, a: Action, issued: seq<nat>) returns (more: seq<nat>)
    requires Inv(s) && a.Enter? && Enabled(s, a) && Carries(s, run, issued)
    ensures Carries(Next(s, a), run + [a], more)
  {
    hide Inv, Begin, IsSampled, Next, Enabled, AreIssued, RingCarries, EntriesCarry, KeysCarry;
    SampledHasSize(a.call, s.interval, a.entry);
    more := if IsSampled(a.call, s.interval, a.entry) then issued + [|run|] else issued;
    AllStay(s, run, a, issued, more);
    EnterEntries(s, run, a, more);
    EnterRecords(s, run, a, more);
  }

  lemma AllocateCarries(s: System, run: seq<Action>, a: Action, issued: seq<nat>)
    requires Inv(s) && a.Allocate? && Enabled(s, a) && Carries(s, run, issued)
    ensures Carries(Next(s, a), run + [a], issued)
  {
    AllStay(s, run, a, issued, issued);
    var s', whole := Next(s, a), run + [a];
    IssuedStay(run, a, issued, issued);
    if a.tid in s.kernel.pending && s.kernel.pending[a.tid].sampled {
      var enter := issued[s.kernel.pending[a.tid].token - 1];
      assert whole[|run|] == a;
      assert Answered(whole, enter, a.tid, a.result);
    }
    hide Inv, AreIssued, RecordCarries, RingCarries, KeysCarry, Answered, Weighs;
  }

  /** What a return probe may send, and under which token a key may stand after it. */
  ghost predicate Sends(k: Kernel, k': Kernel, p: PendingAllocation, ptr: u64) {
    && k'.nextToken == k.nextToken && k.ring <= k'.ring
    && (forall i :: |k.ring| <= i < |k'.ring| ==>
          (p.sampled && ptr != 0 && k'.ring[i] == AllocRecord(p.token, ptr, p.size, p.weight))
          || (p.oldPtr in k.liveSamples && k'.ring[i] == FreeRecord(k.liveSamples[p.oldPtr], p.oldPtr)))
    && (forall key :: key in k'.liveSamples ==>
          (key in k.liveSamples && k'.liveSamples[key] == k.liveSamples[key])
          || (p.sampled && k'.liveSamples[key] == p.token))
  }

  lemma ReleaseSends(k: Kernel, p: PendingAllocation, ptr: u64, room: bool)
    ensures var released := if ReleasesOld(k, p, ptr) then ReleaseLive(k, p.oldPtr, room) else k;
            Sends(k, released, p, ptr) && released.pending == k.pending
  {
  }

  lemma RecordSends(k: Kernel, released: Kernel, p: PendingAllocation, ptr: u64, o: ExitOutcome)
    requires Sends(k, released, p, ptr) && p.sampled && ptr != 0
    ensures Sends(k, RecordLive(released, p, ptr, o), p, ptr) && RecordLive(released, p, ptr, o).pending == released.pending
  {
  }

  lemma FinishSends(k: Kernel, tid: nat, posixMemalign: bool, o: ExitOutcome)
    requires tid in k.pending
    ensures var k', p := Finish(k, tid, posixMemalign, o), k.pending[tid];
            Sends(k, k', p, ReturnedPointer(p, posixMemalign, o)) && k'.pending == k.pending - {tid}
  {
    hide ReturnedPointer, ReleaseLive, RecordLive;
    var p := k.pending[tid];
    var ptr := ReturnedPointer(p, posixMemalign, o);
    var released := if ReleasesOld(k, p, ptr) then ReleaseLive(k, p.oldPtr, o.roomForFree) else k;
    ReleaseSends(k, p, ptr, o.roomForFree);
    if p.sampled && ptr != 0 {
      RecordSends(k, released, p, ptr, o);
    }
  }

  /** The same of the step, by the block the allocator answered with. */
  lemma ExitSends(s: System, a: Action)
    requires Inv(s) && a.Exit? && Enabled(s, a)
    ensures var s', k, phase := Next(s, a), s.kernel, s.threads[a.tid];
            && s'.interval == s.interval && s'.threads == s.threads - {a.tid}
            && (a.tid !in k.pending ==> s'.kernel == k)
            && (a.tid in k.pending ==>
                  && s'.kernel.pending == k.pending - {a.tid}
                  && exists ptr: u64 :: (ptr == 0 || ptr == phase.result) && Sends(k, s'.kernel, k.pending[a.tid], ptr))
  {
    var k, phase := s.kernel, s.threads[a.tid];
    if a.tid in k.pending {
      ReturnedIs(s, a);
      FinishSends(k, a.tid, phase.call.operation.OpPosixMemalign?, ExitView(phase, a));
    } else {
      FinishWithoutPending(k, a.tid, phase.call.operation.OpPosixMemalign?, ExitView(phase, a));
    }
    hide Inv, Finish, Sends;
  }

  lemma SentCarries(s: System, k': Kernel, tid: nat, ptr: u64, run: seq<Action>, issued: seq<nat>)
    requires AreIssued(run, issued) && EntriesCarry(s, run, issued) && KeysCarry(s.kernel.liveSamples, issued)
    requires RingCarries(s.kernel.ring, s.interval, run, issued)
    requires tid in s.kernel.pending && tid in s.threads && s.threads[tid].Returning?
    requires (ptr == 0 || ptr == s.threads[tid].result) && Sends(s.kernel, k', s.kernel.pending[tid], ptr)
    ensures RingCarries(k'.ring, s.interval, run, issued) && KeysCarry(k'.liveSamples, issued)
  {
    hide AreIssued, Answered, Weighs;
  }

  lemma ExitCarries(s: System, run: seq<Action>, a: Action, issued: seq<nat>)
    requires Inv(s) && a.Exit? && Enabled(s, a) && Carries(s, run, issued)
    ensures Carries(Next(s, a), run + [a], issued)
  {
    AllStay(s, run, a, issued, issued);
    ExitSends(s, a);
    assert forall t :: t in s.kernel.pending ==> t in s.threads;
    hide Inv, AreIssued, RecordCarries, EntryCarries, Next;
    var s', k := Next(s, a), s.kernel;
    if a.tid in k.pending {
      var ptr: u64 :| (ptr == 0 || ptr == s.threads[a.tid].result) && Sends(k, s'.kernel, k.pending[a.tid], ptr);
      SentCarries(s, s'.kernel, a.tid, ptr, run + [a], issued);
      hide RingCarries, KeysCarry;
    }
  }

  lemma FreeCarries(s: System, run: seq<Action>, a: Action, issued: seq<nat>)
    requires Inv(s) && (a.EnterFree? || a.Deallocate?) && Enabled(s, a) && Carries(s, run, issued)
    ensures Carries(Next(s, a), run + [a], issued)
  {
    AllStay(s, run, a, issued, issued);
    IssuedStay(run, a, issued, issued);
    assert forall t :: t in s.kernel.pending ==> t in s.threads && !s.threads[t].Freeing?;
    hide Inv, AreIssued, Answered, Weighs, EntryCarries;
  }

  lemma StepCarries(s: System, run: seq<Action>, a: Action, issued: seq<nat>) returns (more: seq<nat>)
    requires Inv(s) && Enabled(s, a) && Carries(s, run, issued)
    ensures Carries(Next(s, a), run + [a], more)
  {
    hide Inv, Carries, Next, Enabled;
    more := issued;
    match a
    case Enter(_, _, _) => more := EnterCarries(s, run, a, issued);
    case Allocate(_, _, _) => AllocateCarries(s, run, a, issued);
    case Exit(_, _, _, _, _, _) => ExitCarries(s, run, a, issued);
    case _ => FreeCarries(s, run, a, issued);
  }

  lemma {:induction false} RunCarries(s: System, run: seq<Action>, rest: seq<Action>, issued: seq<nat>)
    returns (more: seq<nat>)
    requires Inv(s) && Carries(s, run, issued) && IsRun(s, rest)
    ensures Carries(After(s, rest), run + rest, more)
    decreases |rest|
  {
    hide Inv, Carries, Next, Enabled;
    if rest == [] {
      assert run + rest == run;
      more := issued;
    } else {
      StepKeeps(s, rest[0]);
      var next := StepCarries(s, run, rest[0], issued);
      more := RunCarries(Next(s, rest[0]), run + [rest[0]], rest[1..], next);
      assert run + [rest[0]] + rest[1..] == run + rest;
    }
  }

  /** In every run, every record of the ring, every sampled entry and every tracked pointer belongs to one
      call that entered; ALLOC records and entries carry that call's size and a weight for it. */
  lemma RecordsCarryCalls(interval: u64, run: seq<Action>) returns (issued: seq<nat>)
    requires IsRun(Initial(interval), run)
    ensures Carries(After(Initial(interval), run), run, issued)
  {
    NothingCarries(interval);
    hide Carries, Inv, IsRun, After, Initial;
    assert [] + run == run;
    issued := RunCarries(Initial(interval), [], run, []);
  }

  lemma NothingCarries(interval: u64)
    ensures Carries(Initial(interval), [], []) && Inv(Initial(interval))
  {
  }

  // The counters.

  function Entries(run: seq<Action>): nat {
    if run == [] then 0 else (if run[0].Enter? then 1 else 0) + Entries(run[1..])
  }

  /** Every record that was to be sent is in the ring or counted as dropped: one stack record a token, one
      ALLOC record a sampled allocation, one FREE record a sampled free. */
  predicate RecordsAddUp(k: Kernel) {
    |k.ring| + k.stats.ringbufDrops == k.nextToken + k.stats.sampledAllocs + k.stats.sampledFrees
  }

  /** A step of the kernel that keeps the account, with so many entries. */
  predicate Accounts(k: Kernel, k': Kernel, entries: nat) {
    && (RecordsAddUp(k) ==> RecordsAddUp(k'))
    && k'.stats.pendingOverwrites == k.stats.pendingOverwrites
    && k'.stats.allocEvents == k.stats.allocEvents + entries
  }

  lemma BeginAccounts(k: Kernel, interval: u64, tid: nat, call: Call, o: EntryOutcome)
    requires tid !in k.pending
    ensures Accounts(k, Begin(k, interval, tid, call, o), 1)
  {
    hide IsSampled;
  }

  lemma ReleaseAccounts(k: Kernel, ptr: u64, room: bool)
    requires ptr in k.liveSamples
    ensures Accounts(k, ReleaseLive(k, ptr, room), 0)
  {
  }

  lemma RecordAccounts(k: Kernel, p: PendingAllocation, ptr: u64, o: ExitOutcome)
    ensures Accounts(k, RecordLive(k, p, ptr, o), 0)
  {
  }

  lemma FinishAccounts(k: Kernel, tid: nat, posixMemalign: bool, o: ExitOutcome)
    ensures Accounts(k, Finish(k, tid, posixMemalign, o), 0)
  {
    hide ReturnedPointer, ReleaseLive, RecordLive;
    if tid in k.pending {
      var p := k.pending[tid];
      var ptr := ReturnedPointer(p, posixMemalign, o);
      var released := if ReleasesOld(k, p, ptr) then ReleaseLive(k, p.oldPtr, o.roomForFree) else k;
      if ReleasesOld(k, p, ptr) {
        ReleaseAccounts(k, p.oldPtr, o.roomForFree);
      }
      RecordAccounts(released, p, ptr, o);
    }
  }

  lemma StepAddsUp(s: System, a: Action)
    requires Inv(s) && Enabled(s, a)
    ensures Accounts(s.kernel, Next(s, a).kernel, if a.Enter? then 1 else 0)
  {
    hide Begin, Finish, ReleaseLive, ExitView;
    match a
    case Enter(tid, call, entry) =>
      assert tid !in s.kernel.pending;
      BeginAccounts(s.kernel, s.interval, tid, call, entry);
    case Exit(tid, _, _, _, _, _) =>
      FinishAccounts(s.kernel, tid, s.threads[tid].call.operation.OpPosixMemalign?, ExitView(s.threads[tid], a));
    case EnterFree(_, pointer, room) =>
      if pointer in s.kernel.liveSamples {
        ReleaseAccounts(s.kernel, pointer, room);
      }
    case _ =>
  }

  lemma {:induction false} RunAddsUp(s: System, run: seq<Action>)
    requires Inv(s) && IsRun(s, run) && RecordsAddUp(s.kernel) && s.kernel.stats.pendingOverwrites == 0
    ensures var k := After(s, run).kernel;
            && RecordsAddUp(k) && k.stats.pendingOverwrites == 0
            && k.stats.allocEvents == s.kernel.stats.allocEvents + Entries(run)
    decreases |run|
  {
    hide Inv, Next, Enabled, RecordsAddUp;
    if run != [] {
      StepKeeps(s, run[0]);
      StepAddsUp(s, run[0]);
      RunAddsUp(Next(s, run[0]), run[1..]);
    }
  }

  /** In every run the counters account for every call and every record, and no entry of a call is ever
      overwritten. */
  lemma CountersAddUp(interval: u64, run: seq<Action>)
    requires IsRun(Initial(interval), run)
    ensures var k := After(Initial(interval), run).kernel;
            && |k.ring| + k.stats.ringbufDrops == k.nextToken + k.stats.sampledAllocs + k.stats.sampledFrees
            && k.stats.allocEvents == Entries(run) && k.stats.pendingOverwrites == 0
  {
    NothingCarries(interval);
    assert RecordsAddUp(Initial(interval).kernel) && Initial(interval).kernel.stats == NO_STATS;
    RunAddsUp(Initial(interval), run);
  }
}
