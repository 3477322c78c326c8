/** Kernel probes, event ring, bounded queue and collector together: what userspace believes is
    live against what the kernel tracks, over every run. */
module HeapPipeline {
  import opened Machine
  import opened Sums
  import opened HeapProbes
  import opened HeapCollection
  import HeapStateModel
  import HeapSafety
  import Sampling
  import Maps

  /** `read` counts the ring records handed to the callback; `queue` are those admitted and not
      applied yet. The last three are history: the stacks the collector reported as lost, the records
      its bounded queue lost, and the FREE records among them since the last resync. */
  datatype Pipeline = Pipeline(
    system: HeapSafety.System, read: nat, queue: seq<Event>, user: Collector, previous: KernelCounters,
    lostStacks: nat, queueLosses: nat, lostFrees: nat)

  datatype Action =
    | Probe(action: HeapSafety.Action)
    | Callback
    | Receive
    | Snapshot

  function Initial(interval: u64): Pipeline {
    Pipeline(HeapSafety.Initial(interval), 0, [], EMPTY_COLLECTOR, KernelCounters(0, 0), 0, 0, 0)
  }

  function Waiting(p: Pipeline): seq<Event>
    requires p.read <= |p.system.kernel.ring|
  {
    p.system.kernel.ring[p.read..]
  }

  function Counters(k: Kernel): KernelCounters {
    KernelCounters(k.stats.ringbufDrops, k.stats.mapEvictions)
  }

  ghost predicate Enabled(p: Pipeline, a: Action) {
    && p.read <= |p.system.kernel.ring|
    && match a
       case Probe(action) => HeapSafety.Enabled(p.system, action)
       case Callback => p.read < |p.system.kernel.ring|
       case Receive => p.queue != []
       case Snapshot => p.queue == []
  }

  /** One snapshot, taken while no probe runs: the whole ring through the queue, the queue through
      the collector, and a resync when a kernel counter moved. */
  ghost function SnapshotOf(p: Pipeline, ranges: seq<Maps.Range>): Pipeline
    requires p.read <= |p.system.kernel.ring|
  {
    var waiting, kernel := Waiting(p), p.system.kernel;
    var drained := ApplyAll(p.user, waiting[..Admitted(|waiting|)], ranges);
    var lost := waiting[Admitted(|waiting|)..];
    var needed := NeedsResync(Delta(Counters(kernel), p.previous));
    p.(read := |kernel.ring|,
       user := Collector(drained.pendingStacks, Resynced(drained.live, needed, kernel.liveSamples.Keys), 0),
       previous := Counters(kernel),
       lostStacks := p.lostStacks + drained.stackFailures,
       queueLosses := p.queueLosses + |lost|,
       lostFrees := if needed then 0 else p.lostFrees + Frees(lost))
  }

  ghost function Next(p: Pipeline, a: Action, ranges: seq<Maps.Range>): Pipeline
    requires Enabled(p, a)
  {
    match a
    case Probe(action) => p.(system := HeapSafety.Next(p.system, action))
    case Callback =>
      if |p.queue| < EVENT_QUEUE_CAPACITY then
        p.(read := p.read + 1, queue := p.queue + [p.system.kernel.ring[p.read]])
      else
        p.(read := p.read + 1,
           queueLosses := p.queueLosses + 1,
           lostFrees := p.lostFrees + Frees([p.system.kernel.ring[p.read]]))
    case Receive =>
      p.(queue := p.queue[1..], user := ApplyRecord(p.user, p.queue[0], ranges))
    case Snapshot => SnapshotOf(p, ranges)
  }

  ghost predicate IsRun(p: Pipeline, acts: seq<Action>, ranges: seq<Maps.Range>)
    decreases |acts|
  {
    acts == [] || (Enabled(p, acts[0]) && IsRun(Next(p, acts[0], ranges), acts[1..], ranges))
  }

  ghost function After(p: Pipeline, acts: seq<Action>, ranges: seq<Maps.Range>): Pipeline
    requires IsRun(p, acts, ranges)
    decreases |acts|
  {
    if acts == [] then p else After(Next(p, acts[0], ranges), acts[1..], ranges)
  }

  // What the records say, for a reader that misses none.

  /** The pointers such a reader holds live, and the stacks that still wait for their ALLOC record. */
  datatype Mirror = Mirror(pointers: set<u64>, stacks: set<nat>)

  const EMPTY_MIRROR := Mirror({}, {})
  const EMPTY_COLLECTOR := Collector(map[], map[], 0)

  function Reflect(m: Mirror, e: Event): Mirror {
    match e
    case StackRecord(token, _) => m.(stacks := m.stacks + {token})
    case AllocRecord(token, pointer, _, _) => Mirror(m.pointers + {pointer}, m.stacks - {token})
    case FreeRecord(_, pointer) => m.(pointers := m.pointers - {pointer})
  }

  function ReflectAll(m: Mirror, es: seq<Event>): Mirror
    decreases |es|
  {
    if es == [] then m else ReflectAll(Reflect(m, es[0]), es[1..])
  }

  /** An ALLOC record comes after its stack and describes a real block. */
  predicate HasStack(m: Mirror, e: Event) {
    e.AllocRecord? ==> e.token in m.stacks && e.pointer != 0 && e.size != 0 && e.weight != 0
  }

  /** A stack record can be used, and finds room among those that wait. */
  ghost predicate Arrives(m: Mirror, e: Event, ranges: seq<Maps.Range>) {
    e.StackRecord? ==> IsUsable(e.frames, ranges) && |m.stacks + {e.token}| <= MAX_PENDING_STACKS
  }

  predicate Matched(m: Mirror, es: seq<Event>)
    decreases |es|
  {
    es == [] || (HasStack(m, es[0]) && Matched(Reflect(m, es[0]), es[1..]))
  }

  ghost predicate StacksArrive(m: Mirror, es: seq<Event>, ranges: seq<Maps.Range>)
    decreases |es|
  {
    es == [] || (Arrives(m, es[0], ranges) && StacksArrive(Reflect(m, es[0]), es[1..], ranges))
  }

  function Frees(es: seq<Event>): nat {
    if es == [] then 0 else (if es[0].FreeRecord? then 1 else 0) + Frees(es[1..])
  }

  lemma {:induction false} ReflectConcat(m: Mirror, a: seq<Event>, b: seq<Event>)
    ensures ReflectAll(m, a + b) == ReflectAll(ReflectAll(m, a), b)
    ensures Matched(m, a + b) <==> Matched(m, a) && Matched(ReflectAll(m, a), b)
    decreases |a|
  {
    if a == [] {
      assert a + b == b;
    } else {
      assert (a + b)[0] == a[0] && (a + b)[1..] == a[1..] + b;
      ReflectConcat(Reflect(m, a[0]), a[1..], b);
    }
  }

  lemma ReflectOne(m: Mirror, e: Event)
    ensures ReflectAll(m, [e]) == Reflect(m, e)
    ensures Matched(m, [e]) <==> HasStack(m, e)
  {
    assert [e][1..] == [];
    assert ReflectAll(Reflect(m, e), []) == Reflect(m, e) && Matched(Reflect(m, e), []);
  }

  lemma {:induction false} ReflectMonotone(m: Mirror, n: Mirror, es: seq<Event>)
    requires m.pointers <= n.pointers
    ensures ReflectAll(m, es).pointers <= ReflectAll(n, es).pointers
    decreases |es|
  {
    if es != [] {
      ReflectMonotone(Reflect(m, es[0]), Reflect(n, es[0]), es[1..]);
    }
  }

  /** Losing records that free nothing only makes a reader believe in fewer pointers. */
  lemma {:induction false} OnlyFreesShrink(m: Mirror, es: seq<Event>)
    requires Frees(es) == 0
    ensures m.pointers <= ReflectAll(m, es).pointers
    decreases |es|
  {
    if es != [] {
      OnlyFreesShrink(Reflect(m, es[0]), es[1..]);
    }
  }

  // The collector against that reader.

  lemma RecordWithin(c: Collector, m: Mirror, e: Event, ranges: seq<Maps.Range>)
    requires c.live.Keys <= m.pointers
    ensures ApplyRecord(c, e, ranges).live.Keys <= Reflect(m, e).pointers
  {
  }

  lemma {:induction false} CollectorWithin(c: Collector, m: Mirror, es: seq<Event>, ranges: seq<Maps.Range>)
    requires c.live.Keys <= m.pointers
    ensures ApplyAll(c, es, ranges).live.Keys <= ReflectAll(m, es).pointers
    decreases |es|
  {
    hide ApplyRecord, Reflect;
    if es != [] {
      RecordWithin(c, m, es[0], ranges);
      CollectorWithin(ApplyRecord(c, es[0], ranges), Reflect(m, es[0]), es[1..], ranges);
    }
  }

  /** The collector agrees with the mirror. */
  ghost predicate Mirrors(c: Collector, m: Mirror) {
    c.live.Keys == m.pointers && c.pendingStacks.Keys == m.stacks
  }

  lemma StackMirrors(c: Collector, m: Mirror, token: nat, frames: Stack, ranges: seq<Maps.Range>)
    requires Mirrors(c, m)
    ensures var c' := ApplyRecord(c, StackRecord(token, frames), ranges);
            && c'.live == c.live && c'.stackFailures >= c.stackFailures
            && (c'.stackFailures == c.stackFailures
                <==> IsUsable(frames, ranges) && |m.stacks + {token}| <= MAX_PENDING_STACKS)
            && (c'.stackFailures == c.stackFailures ==> c'.pendingStacks.Keys == m.stacks + {token})
  {
    hide IsUsable;
    var stacks := c.pendingStacks[token := frames];
    assert stacks.Keys == m.stacks + {token};
    PrunedSize(stacks);
    assert |stacks| == |m.stacks + {token}|;
  }

  /** One record costs the collector no stack exactly when it arrives, and then they stay alike. */
  lemma RecordMirrors(c: Collector, m: Mirror, e: Event, ranges: seq<Maps.Range>)
    requires Mirrors(c, m) && HasStack(m, e)
    ensures var c' := ApplyRecord(c, e, ranges);
            && (c'.stackFailures == c.stackFailures <==> Arrives(m, e, ranges))
            && (Arrives(m, e, ranges) ==> Mirrors(c', Reflect(m, e)))
  {
    hide IsUsable;
    if e.StackRecord? {
      StackMirrors(c, m, e.token, e.frames, ranges);
      hide ApplyRecord;
    }
  }

  lemma {:induction false} FailuresGrow(c: Collector, es: seq<Event>, ranges: seq<Maps.Range>)
    ensures ApplyAll(c, es, ranges).stackFailures >= c.stackFailures
    decreases |es|
  {
    if es != [] {
      if es[0].StackRecord? {
        PrunedSize(c.pendingStacks[es[0].token := es[0].frames]);
      }
      FailuresGrow(ApplyRecord(c, es[0], ranges), es[1..], ranges);
    }
  }

  /** Over a whole stream: no stack is counted as lost exactly when all of them arrive, and then
      every ALLOC record finds its stack. */
  lemma {:induction false} CollectorMirrors(c: Collector, m: Mirror, es: seq<Event>, ranges: seq<Maps.Range>)
    requires Mirrors(c, m) && Matched(m, es)
    ensures ApplyAll(c, es, ranges).stackFailures == c.stackFailures <==> StacksArrive(m, es, ranges)
    ensures StacksArrive(m, es, ranges) ==> Mirrors(ApplyAll(c, es, ranges), ReflectAll(m, es))
    decreases |es|
  {
    if es != [] {
      var c', m' := ApplyRecord(c, es[0], ranges), Reflect(m, es[0]);
      RecordMirrors(c, m, es[0], ranges);
      FailuresGrow(c, [es[0]], ranges);
      ApplyAllOne(c, es[0], ranges);
      FailuresGrow(c', es[1..], ranges);
      hide ApplyRecord, Reflect, Mirrors, HasStack, Arrives;
      if Arrives(m, es[0], ranges) {
        CollectorMirrors(c', m', es[1..], ranges);
      }
    }
  }

  /** What the collector has lost so far does not change what it does next. */
  lemma {:induction false} FailuresAdd(c: Collector, n: nat, es: seq<Event>, ranges: seq<Maps.Range>)
    ensures var c' := ApplyAll(c, es, ranges);
            ApplyAll(c.(stackFailures := c.stackFailures + n), es, ranges)
            == c'.(stackFailures := c'.stackFailures + n)
    decreases |es|
  {
    if es != [] {
      var e, d := es[0], c.(stackFailures := c.stackFailures + n);
      assert ApplyRecord(d, e, ranges)
          == ApplyRecord(c, e, ranges).(stackFailures := ApplyRecord(c, e, ranges).stackFailures + n);
      FailuresAdd(ApplyRecord(c, e, ranges), n, es[1..], ranges);
    }
  }

  // The kernel's own bookkeeping.

  /** The live counter never falls behind the map, so a full map is always seen as full. */
  predicate CountOk(k: Kernel) {
    |k.liveSamples| <= k.liveCount <= LIVE_SAMPLE_CAPACITY
  }

  /** Tokens of the sampled calls in progress. */
  function Tokens(pending: map<nat, PendingAllocation>): set<nat> {
    set t | t in pending && pending[t].sampled :: pending[t].token
  }

  predicate TokensOk(k: Kernel) {
    && (forall t {:trigger k.pending[t]} :: t in k.pending && k.pending[t].sampled ==>
          k.pending[t].token <= k.nextToken && k.pending[t].size != 0 && k.pending[t].weight != 0)
    && (forall t, u {:trigger k.pending[t], k.pending[u]} ::
          t in k.pending && u in k.pending && t != u && k.pending[t].sampled && k.pending[u].sampled ==>
            k.pending[t].token != k.pending[u].token)
  }

  predicate KernelOk(k: Kernel) {
    CountOk(k) && TokensOk(k) && 0 !in k.liveSamples
  }

  /** The records so far say exactly these pointers, and sent the stack of every one of these tokens. */
  ghost predicate InStep(m: Mirror, pointers: set<u64>, tokens: set<nat>) {
    m.pointers == pointers && tokens <= m.stacks
  }

  // One probe on both sides.

  predicate CountersGrow(k: Kernel, k': Kernel) {
    k.stats.ringbufDrops <= k'.stats.ringbufDrops && k.stats.mapEvictions <= k'.stats.mapEvictions
  }

  /** From `k` to `k'` the ring only grows. When no record was dropped and no key evicted, the new
      records keep a reader within the kernel's keys, and keep it in step. `before` and `after` are
      the tokens whose stacks have been sent. */
  ghost predicate Stage(k: Kernel, k': Kernel, m: Mirror, before: set<nat>, after: set<nat>) {
    && k.ring <= k'.ring
    && CountersGrow(k, k')
    && CountOk(k') && 0 !in k'.liveSamples
    && (Counters(k') == Counters(k) ==>
          var es := k'.ring[|k.ring|..];
          && (m.pointers <= k.liveSamples.Keys ==> ReflectAll(m, es).pointers <= k'.liveSamples.Keys)
          && (InStep(m, k.liveSamples.Keys, before)
              ==> Matched(m, es) && InStep(ReflectAll(m, es), k'.liveSamples.Keys, after)))
  }

  lemma RingChain<T>(a: seq<T>, b: seq<T>, c: seq<T>)
    requires a <= b <= c
    ensures a <= c && c[|a|..] == b[|a|..] + c[|b|..]
  {
  }

  lemma CountersChain(k: Kernel, k1: Kernel, k2: Kernel)
    requires CountersGrow(k, k1) && CountersGrow(k1, k2)
    ensures CountersGrow(k, k2)
    ensures Counters(k2) == Counters(k) ==> Counters(k1) == Counters(k)
  {
  }

  lemma StageChain(k: Kernel, k1: Kernel, k2: Kernel, m: Mirror, before: set<nat>, middle: set<nat>, after: set<nat>)
    requires Stage(k, k1, m, before, middle)
    requires Stage(k1, k2, ReflectAll(m, k1.ring[|k.ring|..]), middle, after)
    ensures Stage(k, k2, m, before, after)
  {
    var first, second := k1.ring[|k.ring|..], k2.ring[|k1.ring|..];
    CountersChain(k, k1, k2);
    RingChain(k.ring, k1.ring, k2.ring);
    hide ReflectAll, Matched, InStep, CountOk, CountersGrow;
    ReflectConcat(m, first, second);
  }

  /** A step that emits nothing and keeps the map. */
  lemma StageSilent(k: Kernel, k': Kernel, m: Mirror, before: set<nat>, after: set<nat>)
    requires CountOk(k) && 0 !in k.liveSamples && after <= before
    requires k'.ring == k.ring && Counters(k') == Counters(k)
    requires k'.liveSamples == k.liveSamples && k'.liveCount == k.liveCount
    ensures Stage(k, k', m, before, after)
  {
    assert k'.ring[|k.ring|..] == [];
  }

  lemma StageStack(k: Kernel, token: nat, o: EntryOutcome, m: Mirror, before: set<nat>)
    requires CountOk(k) && 0 !in k.liveSamples
    ensures Stage(k, EmitStack(k, token, o), m, before, before + {token})
  {
    if o.ringHasRoom {
      assert EmitStack(k, token, o).ring[|k.ring|..] == [StackRecord(token, o.frames)];
      ReflectOne(m, StackRecord(token, o.frames));
      hide ReflectAll, Matched;
    }
  }

  lemma StageRelease(k: Kernel, ptr: u64, room: bool, m: Mirror, tokens: set<nat>)
    requires CountOk(k) && 0 !in k.liveSamples && ptr in k.liveSamples
    ensures Stage(k, ReleaseLive(k, ptr, room), m, tokens, tokens)
  {
    var k' := ReleaseLive(k, ptr, room);
    var e := FreeRecord(k.liveSamples[ptr], ptr);
    Smaller(k.liveSamples, ptr);
    assert k'.liveSamples.Keys == k.liveSamples.Keys - {ptr};
    if room {
      assert k'.ring[|k.ring|..] == [e];
      ReflectOne(m, e);
      hide ReflectAll, Matched;
    }
  }

  /** A counted insertion: the counter moves exactly when a full map would have to evict. */
  lemma InsertCounts(live: map<u64, nat>, liveCount: nat, ptr: u64, token: nat, victim: u64)
    requires |live| <= liveCount <= LIVE_SAMPLE_CAPACITY && HasSlot(live, ptr, victim)
    ensures |LruInsert(live, ptr, token, victim)| <= LIVE_SAMPLE_CAPACITY
    ensures |LruInsert(live, ptr, token, victim)| <= |live| + 1
    ensures liveCount < LIVE_SAMPLE_CAPACITY ==> LruInsert(live, ptr, token, victim) == live[ptr := token]
  {
    if ptr in live {
      assert live[ptr := token].Keys == live.Keys;
    } else {
      assert live[ptr := token].Keys == live.Keys + {ptr};
      if |live| >= LIVE_SAMPLE_CAPACITY {
        Smaller(live, victim);
        assert (live - {victim})[ptr := token].Keys == (live - {victim}).Keys + {ptr};
      }
    }
  }

  lemma RecordShape(k: Kernel, p: PendingAllocation, ptr: u64, o: ExitOutcome)
    requires CountOk(k) && 0 !in k.liveSamples && ptr != 0
    requires o.liveUpdated && HasSlot(k.liveSamples, ptr, o.victim)
    ensures var k' := RecordLive(k, p, ptr, o);
            && k.ring <= k'.ring && CountersGrow(k, k') && CountOk(k') && 0 !in k'.liveSamples
            && (Counters(k') == Counters(k) ==>
                  && k'.ring == k.ring + [AllocRecord(p.token, ptr, p.size, p.weight)]
                  && k'.liveSamples.Keys == k.liveSamples.Keys + {ptr})
  {
    InsertCounts(k.liveSamples, k.liveCount, ptr, p.token, o.victim);
  }

  lemma StageRecord(k: Kernel, p: PendingAllocation, ptr: u64, o: ExitOutcome, m: Mirror, tokens: set<nat>)
    requires CountOk(k) && 0 !in k.liveSamples && ptr != 0 && p.size != 0 && p.weight != 0
    requires p.token in tokens
    ensures Stage(k, RecordLive(k, p, ptr, o), m, tokens, tokens - {p.token})
  {
    var k' := RecordLive(k, p, ptr, o);
    if !o.liveUpdated || !HasSlot(k.liveSamples, ptr, o.victim) {
      StageSilent(k, k', m, tokens, tokens - {p.token});
    } else {
      RecordShape(k, p, ptr, o);
      var e := AllocRecord(p.token, ptr, p.size, p.weight);
      if Counters(k') == Counters(k) {
        assert k'.ring[|k.ring|..] == [e];
        ReflectOne(m, e);
      }
      hide ReflectAll, Matched, RecordLive;
    }
  }

  // Whole probes.

  /** Everything one probe promises the rest of the pipeline. */
  ghost predicate ProbeOk(k: Kernel, k': Kernel, m: Mirror) {
    KernelOk(k') && Stage(k, k', m, Tokens(k.pending), Tokens(k'.pending))
  }

  lemma TokensInsert(pending: map<nat, PendingAllocation>, tid: nat, p: PendingAllocation)
    ensures Tokens(pending[tid := p]) <= Tokens(pending) + (if p.sampled then {p.token} else {})
  {
    var after := Tokens(pending[tid := p]);
    forall token | token in after
      ensures token in Tokens(pending) + (if p.sampled then {p.token} else {})
    {
      var t :| t in pending[tid := p] && pending[tid := p][t].sampled && pending[tid := p][t].token == token;
      if t != tid {
        assert t in pending && pending[t].token == token;
      }
    }
  }

  lemma TokensRemove(k: Kernel, tid: nat)
    requires TokensOk(k) && tid in k.pending
    ensures Tokens(k.pending - {tid})
      <= Tokens(k.pending) - (if k.pending[tid].sampled then {k.pending[tid].token} else {})
  {
    var after := Tokens(k.pending - {tid});
    forall token | token in after
      ensures token in Tokens(k.pending) && !(k.pending[tid].sampled && token == k.pending[tid].token)
    {
      var t :| t in k.pending - {tid} && (k.pending - {tid})[t].sampled && (k.pending - {tid})[t].token == token;
      assert t in k.pending && k.pending[t].sampled && k.pending[t].token == token;
    }
  }

  lemma BeginKernel(k: Kernel, interval: u64, tid: nat, call: Call, o: EntryOutcome)
    requires KernelOk(k)
    ensures KernelOk(Begin(k, interval, tid, call, o))
  {
    hide IsSampled;
    assert IsSampled(call, interval, o) ==> call.size != 0 by {
      SampledHasSize(call, interval, o);
    }
  }

  lemma SampledHasSize(call: Call, interval: u64, o: EntryOutcome)
    ensures IsSampled(call, interval, o) ==> call.size != 0
  {
  }

  lemma BeginSampled(k: Kernel, interval: u64, tid: nat, call: Call, o: EntryOutcome, m: Mirror)
    requires KernelOk(k) && IsSampled(call, interval, o)
    ensures ProbeOk(k, Begin(k, interval, tid, call, o), m)
  {
    hide IsSampled, EmitStack, TokensOk;
    BeginKernel(k, interval, tid, call, o);
    var k' := Begin(k, interval, tid, call, o);
    var before := Tokens(k.pending);
    var token := CountEntry(k, tid).nextToken + 1;
    var k1 := CountEntry(k, tid).(nextToken := token);
    var k2 := EmitStack(k1, token, o);
    StageSilent(k, k1, m, before, before);
    assert k1.ring[|k.ring|..] == [];
    StageStack(k1, token, o, m, before);
    StageChain(k, k1, k2, m, before, before, before + {token});
    StackKeeps(k1, token, o);
    TokensInsert(k.pending, tid, PendingOf(call, token, Sampling.SamplingWeightOf(call.size, interval), true, IsTracked(k, call)));
    StageSilent(k2, k', ReflectAll(m, k2.ring[|k.ring|..]), before + {token}, Tokens(k'.pending));
    StageChain(k, k2, k', m, before, before + {token}, Tokens(k'.pending));
  }

  lemma BeginProbe(k: Kernel, interval: u64, tid: nat, call: Call, o: EntryOutcome, m: Mirror)
    requires KernelOk(k)
    ensures ProbeOk(k, Begin(k, interval, tid, call, o), m)
  {
    hide IsSampled, EmitStack, TokensOk;
    if IsSampled(call, interval, o) {
      BeginSampled(k, interval, tid, call, o, m);
    } else {
      BeginKernel(k, interval, tid, call, o);
      var k' := Begin(k, interval, tid, call, o);
      if IsTracked(k, call) {
        TokensInsert(k.pending, tid, PendingOf(call, 0, Sampling.SamplingWeightOf(call.size, interval), false, true));
      }
      StageSilent(k, k', m, Tokens(k.pending), Tokens(k'.pending));
    }
  }

  lemma StackKeeps(k: Kernel, token: nat, o: EntryOutcome)
    ensures var k' := EmitStack(k, token, o);
            k'.pending == k.pending && k'.liveSamples == k.liveSamples && k'.liveCount == k.liveCount
  {
  }

  lemma FinishTokens(k: Kernel, k': Kernel, tid: nat)
    requires TokensOk(k) && tid in k.pending
    requires k'.pending == k.pending - {tid} && k'.nextToken == k.nextToken
    ensures TokensOk(k')
  {
    assert forall t :: t in k'.pending ==> k'.pending[t] == k.pending[t];
  }

  lemma ReleaseKeeps(k: Kernel, ptr: u64, room: bool)
    requires ptr in k.liveSamples
    ensures ReleaseLive(k, ptr, room).pending == k.pending && ReleaseLive(k, ptr, room).nextToken == k.nextToken
  {
  }

  lemma RecordKeeps(k: Kernel, p: PendingAllocation, ptr: u64, o: ExitOutcome)
    ensures RecordLive(k, p, ptr, o).pending == k.pending && RecordLive(k, p, ptr, o).nextToken == k.nextToken
  {
  }

  lemma StageTokens(k: Kernel, k': Kernel, m: Mirror, before: set<nat>, after: set<nat>, fewer: set<nat>)
    requires Stage(k, k', m, before, after) && fewer <= after
    ensures Stage(k, k', m, before, fewer)
  {
    hide ReflectAll, Matched;
  }

  lemma StagePending(k: Kernel, k': Kernel, m: Mirror, before: set<nat>, after: set<nat>,
                     pending: map<nat, PendingAllocation>)
    requires Stage(k, k', m, before, after)
    ensures Stage(k, k'.(pending := pending), m, before, after)
  {
    hide ReflectAll, Matched;
  }

  /** The first half of a return probe: the old block's record, if it has one to send. */
  lemma FinishHead(k: Kernel, p: PendingAllocation, ptr: u64, room: bool, m: Mirror, before: set<nat>)
    returns (k1: Kernel)
    requires KernelOk(k)
    ensures k1 == if ReleasesOld(k, p, ptr) then ReleaseLive(k, p.oldPtr, room) else k
    ensures Stage(k, k1, m, before, before) && CountOk(k1) && 0 !in k1.liveSamples
    ensures k1.pending == k.pending && k1.nextToken == k.nextToken
  {
    hide TokensOk, ReflectAll, Matched;
    if ReleasesOld(k, p, ptr) {
      k1 := ReleaseLive(k, p.oldPtr, room);
      StageRelease(k, p.oldPtr, room, m, before);
      ReleaseKeeps(k, p.oldPtr, room);
    } else {
      k1 := k;
      StageSilent(k, k, m, before, before);
    }
  }

  /** The second half: the new block's record. */
  lemma FinishTail(k: Kernel, p: PendingAllocation, ptr: u64, o: ExitOutcome, m: Mirror, before: set<nat>)
    returns (k1: Kernel)
    requires CountOk(k) && 0 !in k.liveSamples
    requires p.sampled ==> p.size != 0 && p.weight != 0 && p.token in before
    ensures k1 == if p.sampled && ptr != 0 then RecordLive(k, p, ptr, o) else k
    ensures Stage(k, k1, m, before, before - (if p.sampled then {p.token} else {}))
    ensures CountOk(k1) && 0 !in k1.liveSamples && k1.pending == k.pending && k1.nextToken == k.nextToken
  {
    hide ReflectAll, Matched;
    if p.sampled && ptr != 0 {
      k1 := RecordLive(k, p, ptr, o);
      StageRecord(k, p, ptr, o, m, before);
      RecordKeeps(k, p, ptr, o);
    } else {
      k1 := k;
      StageSilent(k, k, m, before, before - (if p.sampled then {p.token} else {}));
    }
  }

  lemma FinishProbe(k: Kernel, tid: nat, posixMemalign: bool, o: ExitOutcome, m: Mirror)
    requires KernelOk(k)
    ensures ProbeOk(k, Finish(k, tid, posixMemalign, o), m)
  {
    var before := Tokens(k.pending);
    if tid !in k.pending {
      StageSilent(k, k, m, before, before);
    } else {
      var p := k.pending[tid];
      var ptr := ReturnedPointer(p, posixMemalign, o);
      assert p.sampled ==> p.size != 0 && p.weight != 0 && p.token in before;
      TokensRemove(k, tid);
      hide ReleaseLive, RecordLive, ReturnedPointer, Stage, ReflectAll, Matched;
      var k1 := FinishHead(k, p, ptr, o.roomForFree, m, before);
      var m1 := ReflectAll(m, if k.ring <= k1.ring then k1.ring[|k.ring|..] else []);
      assert k.ring <= k1.ring by {
        StageGrows(k, k1, m, before, before);
      }
      var k2 := FinishTail(k1, p, ptr, o, m1, before);
      var k3 := Finish(k, tid, posixMemalign, o);
      assert k3 == k2.(pending := k2.pending - {tid});
      FinishTokens(k, k3, tid);
      hide TokensOk;
      var left := before - (if p.sampled then {p.token} else {});
      StageChain(k, k1, k2, m, before, before, left);
      StageTokens(k, k2, m, before, left, Tokens(k3.pending));
      StagePending(k, k2, m, before, Tokens(k3.pending), k3.pending);
    }
  }

  lemma StageGrows(k: Kernel, k': Kernel, m: Mirror, before: set<nat>, after: set<nat>)
    requires Stage(k, k', m, before, after)
    ensures k.ring <= k'.ring
  {
  }

  lemma FreeProbe(k: Kernel, ptr: u64, room: bool, m: Mirror)
    requires KernelOk(k)
    ensures ProbeOk(k, Free(k, ptr, room), m)
  {
    var before := Tokens(k.pending);
    if ptr == 0 || ptr !in k.liveSamples {
      StageSilent(k, k, m, before, before);
    } else {
      StageRelease(k, ptr, room, m, before);
      ReleaseKeeps(k, ptr, room);
      hide Stage, ReleaseLive;
      assert TokensOk(Free(k, ptr, room));
    }
    hide TokensOk;
    assert CountOk(Free(k, ptr, room)) && 0 !in Free(k, ptr, room).liveSamples;
  }

  lemma SystemProbe(s: HeapSafety.System, a: HeapSafety.Action, m: Mirror)
    requires KernelOk(s.kernel) && HeapSafety.Enabled(s, a)
    ensures ProbeOk(s.kernel, HeapSafety.Next(s, a).kernel, m)
  {
    hide KernelOk, Stage, Begin, Finish, Free, Tokens, HeapSafety.ExitView;
    match a
    case Enter(tid, call, entry) => BeginProbe(s.kernel, s.interval, tid, call, entry, m);
    case Exit(tid, _, _, _, _, _) =>
      var phase := s.threads[tid];
      FinishProbe(s.kernel, tid, phase.call.operation.OpPosixMemalign?, HeapSafety.ExitView(phase, a), m);
    case EnterFree(_, pointer, room) => FreeProbe(s.kernel, pointer, room, m);
    case _ => SilentProbe(s.kernel, m);
  }

  lemma SilentProbe(k: Kernel, m: Mirror)
    requires KernelOk(k)
    ensures ProbeOk(k, k, m)
  {
    StageSilent(k, k, m, Tokens(k.pending), Tokens(k.pending));
  }

  // The invariant of the whole pipeline.

  function InFlight(p: Pipeline): seq<Event>
    requires p.read <= |p.system.kernel.ring|
  {
    p.queue + Waiting(p)
  }

  /** The collector once everything in flight has reached it. */
  ghost function Settled(p: Pipeline, ranges: seq<Maps.Range>): Collector
    requires p.read <= |p.system.kernel.ring|
  {
    ApplyAll(p.user, InFlight(p), ranges)
  }

  predicate AtMost(a: KernelCounters, b: KernelCounters) {
    a.ringbufDrops <= b.ringbufDrops && a.mapEvictions <= b.mapEvictions
  }

  /** What userspace holds live now, read on by a reader that misses nothing in flight. */
  function Expected(p: Pipeline): Mirror
    requires p.read <= |p.system.kernel.ring|
  {
    ReflectAll(Mirror(p.user.live.Keys, {}), InFlight(p))
  }

  /** Since the last resync nothing was dropped, evicted, or lost that frees a block: userspace is
      on its way to a part of the kernel's keys. */
  ghost predicate Within(p: Pipeline)
    requires p.read <= |p.system.kernel.ring|
  {
    (Counters(p.system.kernel) == p.previous && p.lostFrees == 0)
      ==> Expected(p).pointers <= p.system.kernel.liveSamples.Keys
  }

  /** A ring without drops tells the kernel's keys. */
  ghost predicate RingTells(k: Kernel) {
    Counters(k) == KernelCounters(0, 0) ==>
      && Matched(EMPTY_MIRROR, k.ring)
      && InStep(ReflectAll(EMPTY_MIRROR, k.ring), k.liveSamples.Keys, Tokens(k.pending))
  }

  /** Without losses the settled collector is the one that read the whole ring in one go, its
      failures split between what was reported and what was not yet. */
  ghost predicate ReadsAll(p: Pipeline, ranges: seq<Maps.Range>)
    requires p.read <= |p.system.kernel.ring|
  {
    Counters(p.system.kernel) == KernelCounters(0, 0) && p.queueLosses == 0 ==>
      var c := Settled(p, ranges);
      ApplyAll(EMPTY_COLLECTOR, p.system.kernel.ring, ranges)
      == c.(stackFailures := c.stackFailures + p.lostStacks)
  }

  ghost predicate Inv(p: Pipeline, ranges: seq<Maps.Range>) {
    && p.read <= |p.system.kernel.ring|
    && KernelOk(p.system.kernel)
    && AtMost(p.previous, Counters(p.system.kernel))
    && Within(p)
    && RingTells(p.system.kernel)
    && ReadsAll(p, ranges)
  }

  /** A probe extends what is in flight by the records it adds to the ring. */
  lemma ProbeExtends(p: Pipeline, p': Pipeline, ranges: seq<Maps.Range>)
    requires p.read <= |p.system.kernel.ring| && p.system.kernel.ring <= p'.system.kernel.ring
    requires p' == p.(system := p'.system)
    ensures var ring, es := p.system.kernel.ring, p'.system.kernel.ring[|p.system.kernel.ring|..];
            && Expected(p') == ReflectAll(Expected(p), es)
            && Settled(p', ranges) == ApplyAll(Settled(p, ranges), es, ranges)
            && ApplyAll(EMPTY_COLLECTOR, p'.system.kernel.ring, ranges)
               == ApplyAll(ApplyAll(EMPTY_COLLECTOR, ring, ranges), es, ranges)
            && ReflectAll(EMPTY_MIRROR, p'.system.kernel.ring) == ReflectAll(ReflectAll(EMPTY_MIRROR, ring), es)
            && (Matched(EMPTY_MIRROR, p'.system.kernel.ring)
                <==> Matched(EMPTY_MIRROR, ring) && Matched(ReflectAll(EMPTY_MIRROR, ring), es))
  {
    hide ApplyAll, ReflectAll, Matched;
    var ring, es := p.system.kernel.ring, p'.system.kernel.ring[|p.system.kernel.ring|..];
    assert InFlight(p') == InFlight(p) + es && p'.system.kernel.ring == ring + es;
    ApplyAllConcat(p.user, InFlight(p), es, ranges);
    ApplyAllConcat(EMPTY_COLLECTOR, ring, es, ranges);
    ReflectConcat(Mirror(p.user.live.Keys, {}), InFlight(p), es);
    ReflectConcat(EMPTY_MIRROR, ring, es);
  }

  lemma ProbeKeeps(p: Pipeline, a: HeapSafety.Action, ranges: seq<Maps.Range>)
    requires Inv(p, ranges) && Enabled(p, Probe(a))
    ensures Inv(Next(p, Probe(a), ranges), ranges)
  {
    hide KernelOk, ApplyAll, Tokens, HeapSafety.Next, HeapSafety.Enabled, Settled, Expected, ReflectAll, Matched, InStep;
    var p', k := Next(p, Probe(a), ranges), p.system.kernel;
    var c, es := Settled(p, ranges), p'.system.kernel.ring;
    SystemProbe(p.system, a, Expected(p));
    SystemProbe(p.system, a, ReflectAll(EMPTY_MIRROR, k.ring));
    ProbeExtends(p, p', ranges);
    FailuresAdd(c, p.lostStacks, p'.system.kernel.ring[|k.ring|..], ranges);
  }

  lemma CallbackKeeps(p: Pipeline, ranges: seq<Maps.Range>)
    requires Inv(p, ranges) && Enabled(p, Callback)
    ensures Inv(Next(p, Callback, ranges), ranges)
  {
    hide KernelOk, ApplyAll, ReflectAll, RingTells;
    var p', ring := Next(p, Callback, ranges), p.system.kernel.ring;
    assert ring[p.read..] == [ring[p.read]] + ring[p.read + 1..];
    if |p.queue| < EVENT_QUEUE_CAPACITY {
      assert InFlight(p') == InFlight(p);
    } else if !ring[p.read].FreeRecord? {
      SkipsRecord(Mirror(p.user.live.Keys, {}), p.queue, ring[p.read], ring[p.read + 1..]);
      assert p.queue + [ring[p.read]] + ring[p.read + 1..] == InFlight(p);
    }
  }

  /** A reader that misses a record that frees nothing believes in no more pointers. */
  lemma SkipsRecord(m: Mirror, a: seq<Event>, e: Event, b: seq<Event>)
    requires !e.FreeRecord?
    ensures ReflectAll(m, a + b).pointers <= ReflectAll(m, a + [e] + b).pointers
  {
    hide ReflectAll;
    ReflectConcat(m, a, b);
    ReflectConcat(m, a + [e], b);
    ReflectConcat(m, a, [e]);
    ReflectOne(ReflectAll(m, a), e);
    ReflectMonotone(ReflectAll(m, a), Reflect(ReflectAll(m, a), e), b);
  }

  lemma ReceiveKeeps(p: Pipeline, ranges: seq<Maps.Range>)
    requires Inv(p, ranges) && Enabled(p, Receive)
    ensures Inv(Next(p, Receive, ranges), ranges)
  {
    var p', m := Next(p, Receive, ranges), Mirror(p.user.live.Keys, {});
    assert InFlight(p)[0] == p.queue[0] && InFlight(p)[1..] == InFlight(p');
    assert Settled(p', ranges) == Settled(p, ranges);
    assert Expected(p) == ReflectAll(Reflect(m, p.queue[0]), InFlight(p'));
    hide KernelOk, ApplyAll, ApplyRecord, Settled, RingTells, ReflectAll, Reflect;
    RecordWithin(p.user, m, p.queue[0], ranges);
    ReflectMonotone(Mirror(p'.user.live.Keys, {}), Reflect(m, p.queue[0]), InFlight(p'));
  }

  lemma SnapshotKeeps(p: Pipeline, ranges: seq<Maps.Range>)
    requires Inv(p, ranges) && Enabled(p, Snapshot)
    ensures Inv(Next(p, Snapshot, ranges), ranges)
  {
    var p', waiting := Next(p, Snapshot, ranges), Waiting(p);
    assert InFlight(p') == [] && Settled(p', ranges) == p'.user;
    assert Expected(p') == Mirror(p'.user.live.Keys, {});
    assert InFlight(p) == waiting;
    hide KernelOk, ApplyAll, RingTells, ReflectAll, Settled, Expected;
    if |waiting| == Admitted(|waiting|) {
      assert waiting[..|waiting|] == waiting;
      assert Settled(p, ranges) == ApplyAll(p.user, waiting, ranges);
    }
    SnapshotWithin(p, ranges);
  }

  /** A snapshot leaves userspace within the kernel's keys unless a FREE record was lost. */
  lemma SnapshotWithin(p: Pipeline, ranges: seq<Maps.Range>)
    requires Inv(p, ranges) && Enabled(p, Snapshot)
    ensures var p' := Next(p, Snapshot, ranges);
            p'.lostFrees == 0 ==> p'.user.live.Keys <= p'.system.kernel.liveSamples.Keys
  {
    var p', waiting, m := Next(p, Snapshot, ranges), Waiting(p), Mirror(p.user.live.Keys, {});
    assert InFlight(p) == waiting;
    hide KernelOk, ApplyAll, RingTells, ReflectAll, ReadsAll;
    var n := Admitted(|waiting|);
    CollectorWithin(p.user, m, waiting[..n], ranges);
    assert waiting == waiting[..n] + waiting[n..];
    ReflectConcat(m, waiting[..n], waiting[n..]);
    if p'.lostFrees == 0 && !NeedsResync(Delta(Counters(p.system.kernel), p.previous)) {
      OnlyFreesShrink(ReflectAll(m, waiting[..n]), waiting[n..]);
    }
  }

  lemma StepKeeps(p: Pipeline, a: Action, ranges: seq<Maps.Range>)
    requires Inv(p, ranges) && Enabled(p, a)
    ensures Inv(Next(p, a, ranges), ranges)
  {
    hide Inv, Next;
    match a
    case Probe(action) => ProbeKeeps(p, action, ranges);
    case Callback => CallbackKeeps(p, ranges);
    case Receive => ReceiveKeeps(p, ranges);
    case Snapshot => SnapshotKeeps(p, ranges);
  }

  lemma {:induction false} RunKeeps(p: Pipeline, acts: seq<Action>, ranges: seq<Maps.Range>)
    requires Inv(p, ranges) && IsRun(p, acts, ranges)
    ensures Inv(After(p, acts, ranges), ranges)
    decreases |acts|
  {
    hide Inv, Next, Enabled;
    if acts != [] {
      StepKeeps(p, acts[0], ranges);
      RunKeeps(Next(p, acts[0], ranges), acts[1..], ranges);
    }
  }

  lemma InitialInv(interval: u64, ranges: seq<Maps.Range>)
    ensures Inv(Initial(interval), ranges)
  {
    var p := Initial(interval);
    assert InFlight(p) == [];
    assert Tokens(map[]) == {};
  }

  lemma ReachableInv(interval: u64, acts: seq<Action>, ranges: seq<Maps.Range>)
    requires IsRun(Initial(interval), acts, ranges)
    ensures Inv(After(Initial(interval), acts, ranges), ranges)
  {
    InitialInv(interval, ranges);
    RunKeeps(Initial(interval), acts, ranges);
  }

  // The results.

  /** Without drops, evictions and queue losses, what userspace will believe once it has caught up
      lies within the kernel's keys. No stack is counted as lost exactly when every stack record
      of the ring is usable and finds room among those that wait for their ALLOC record; then every
      ALLOC record finds its stack and userspace believes in exactly the kernel's keys. */
  lemma CaughtUpUserspaceAgrees(interval: u64, acts: seq<Action>, ranges: seq<Maps.Range>)
    requires IsRun(Initial(interval), acts, ranges)
    requires var p := After(Initial(interval), acts, ranges);
             Counters(p.system.kernel) == KernelCounters(0, 0) && p.queueLosses == 0
    ensures var p := After(Initial(interval), acts, ranges);
            var arrive := StacksArrive(EMPTY_MIRROR, p.system.kernel.ring, ranges);
            && p.read <= |p.system.kernel.ring|
            && Settled(p, ranges).live.Keys <= p.system.kernel.liveSamples.Keys
            && (p.lostStacks + Settled(p, ranges).stackFailures == 0 <==> arrive)
            && (arrive ==> Settled(p, ranges).live.Keys == p.system.kernel.liveSamples.Keys)
  {
    ReachableInv(interval, acts, ranges);
    var p := After(Initial(interval), acts, ranges);
    hide IsRun, After, KernelOk, ApplyAll, Tokens, ReflectAll, Matched, Settled, StacksArrive, Within;
    CollectorWithin(EMPTY_COLLECTOR, EMPTY_MIRROR, p.system.kernel.ring, ranges);
    CollectorMirrors(EMPTY_COLLECTOR, EMPTY_MIRROR, p.system.kernel.ring, ranges);
  }

  /** After every snapshot, whatever mix of ring drops and evictions came before, userspace's live
      pointers lie within the kernel's, unless the bounded queue lost a FREE record since the last
      resync. */
  lemma SnapshotWithinKernel(interval: u64, acts: seq<Action>, ranges: seq<Maps.Range>)
    requires IsRun(Initial(interval), acts, ranges)
    requires Enabled(After(Initial(interval), acts, ranges), Snapshot)
    requires Next(After(Initial(interval), acts, ranges), Snapshot, ranges).lostFrees == 0
    ensures var p := Next(After(Initial(interval), acts, ranges), Snapshot, ranges);
            p.user.live.Keys <= p.system.kernel.liveSamples.Keys
  {
    ReachableInv(interval, acts, ranges);
    SnapshotWithin(After(Initial(interval), acts, ranges), ranges);
  }

  /** The live counter brackets the map in every reachable state, so no capacity eviction can go
      uncounted: an insertion that costs some other key its place always moves the counter. */
  lemma EvictionsAreCounted(interval: u64, acts: seq<Action>, ranges: seq<Maps.Range>,
                            a: PendingAllocation, ptr: u64, o: ExitOutcome, key: u64)
    requires IsRun(Initial(interval), acts, ranges)
    ensures var k := After(Initial(interval), acts, ranges).system.kernel;
            && |k.liveSamples| <= k.liveCount <= LIVE_SAMPLE_CAPACITY
            && (key in k.liveSamples && key !in RecordLive(k, a, ptr, o).liveSamples
                ==> RecordLive(k, a, ptr, o).stats.mapEvictions == k.stats.mapEvictions + 1)
  {
    ReachableInv(interval, acts, ranges);
    var k := After(Initial(interval), acts, ranges).system.kernel;
    assert CountOk(k);
    hide IsRun, After, Inv;
    if o.liveUpdated && HasSlot(k.liveSamples, ptr, o.victim) {
      InsertCounts(k.liveSamples, k.liveCount, ptr, a.token, o.victim);
    }
  }

  // Why the bounded queue must not lose records.

  lemma {:induction false} RunSplit(p: Pipeline, a: seq<Action>, b: seq<Action>, ranges: seq<Maps.Range>)
    requires IsRun(p, a, ranges) && IsRun(After(p, a, ranges), b, ranges)
    ensures IsRun(p, a + b, ranges) && After(p, a + b, ranges) == After(After(p, a, ranges), b, ranges)
    decreases |a|
  {
    hide Next, Enabled;
    if a == [] {
      assert a + b == b;
    } else {
      assert (a + b)[0] == a[0] && (a + b)[1..] == a[1..] + b;
      RunSplit(Next(p, a[0], ranges), a[1..], b, ranges);
    }
  }

  /** Appends one action to a run. */
  lemma RunExtend(p: Pipeline, acts: seq<Action>, a: Action, ranges: seq<Maps.Range>)
    requires IsRun(p, acts, ranges) && Enabled(After(p, acts, ranges), a)
    ensures IsRun(p, acts + [a], ranges)
    ensures After(p, acts + [a], ranges) == Next(After(p, acts, ranges), a, ranges)
  {
    hide Next, Enabled;
    var q := After(p, acts, ranges);
    assert [a][1..] == [];
    assert IsRun(Next(q, a, ranges), [], ranges);
    assert After(Next(q, a, ranges), [], ranges) == Next(q, a, ranges);
    assert IsRun(q, [a], ranges) && After(q, [a], ranges) == Next(q, a, ranges);
    RunSplit(p, acts, [a], ranges);
  }

  /** One call of thread 1: entered, answered, returned from. */
  lemma RunCall(p: Pipeline, acts: seq<Action>, enter: HeapSafety.Action, allocate: HeapSafety.Action,
                exit: HeapSafety.Action, ranges: seq<Maps.Range>) returns (longer: seq<Action>)
    requires IsRun(p, acts, ranges)
    requires var s := After(p, acts, ranges).system;
             && After(p, acts, ranges).read <= |s.kernel.ring|
             && HeapSafety.Enabled(s, enter)
             && HeapSafety.Enabled(HeapSafety.Next(s, enter), allocate)
             && HeapSafety.Enabled(HeapSafety.Next(HeapSafety.Next(s, enter), allocate), exit)
             && s.kernel.ring <= HeapSafety.Next(s, enter).kernel.ring
             && HeapSafety.Next(s, enter).kernel.ring
                <= HeapSafety.Next(HeapSafety.Next(s, enter), allocate).kernel.ring
    ensures IsRun(p, longer, ranges)
    ensures var q := After(p, acts, ranges);
            After(p, longer, ranges)
            == q.(system := HeapSafety.Next(HeapSafety.Next(HeapSafety.Next(q.system, enter), allocate), exit))
  {
    hide IsRun, After, HeapSafety.Enabled, HeapSafety.Next;
    RunExtend(p, acts, Probe(enter), ranges);
    RunExtend(p, acts + [Probe(enter)], Probe(allocate), ranges);
    RunExtend(p, acts + [Probe(enter)] + [Probe(allocate)], Probe(exit), ranges);
    longer := acts + [Probe(enter)] + [Probe(allocate)] + [Probe(exit)];
  }

  const ONE_BYTE := Call(OpAlloc, 1, 0, 0)
  const FAILURE := HeapSafety.Allocate(1, 0, false)

  /** The state between two calls of thread 1 while it owns the block at 100 and nothing was lost. */
  predicate Between(s: HeapSafety.System) {
    && s.threads == map[] && s.held == {100} && s.blocks == {100} && s.interval == 1
    && s.kernel.pending == map[] && s.kernel.liveSamples.Keys == {100} && s.kernel.liveCount == 1
    && Counters(s.kernel) == KernelCounters(0, 0)
  }

  lemma OneByteBegins(k: Kernel, o: EntryOutcome)
    requires k.pending == map[] && o == HeapSafety.PLAIN_ENTRY.(frames := o.frames)
    ensures var token := k.nextToken + 1;
            Begin(k, 1, 1, ONE_BYTE, o)
            == k.(nextToken := token,
                  ring := k.ring + [StackRecord(token, o.frames)],
                  stats := k.stats.(allocEvents := k.stats.allocEvents + 1),
                  pending := map[1 := PendingOf(ONE_BYTE, token, 1, true, false)])
  {
    assert IsSampled(ONE_BYTE, 1, o);
  }

  /** A sampled call that gets no memory leaves one stack record behind and nothing else. */
  lemma FailingCall(s: HeapSafety.System)
    requires Between(s)
    ensures var enter := HeapSafety.Enter(1, ONE_BYTE, HeapSafety.PLAIN_ENTRY);
            && HeapSafety.Enabled(s, enter)
            && var s1 := HeapSafety.Next(s, enter);
               && HeapSafety.Enabled(s1, FAILURE)
               && var s2 := HeapSafety.Next(s1, FAILURE);
                  && HeapSafety.Enabled(s2, HeapSafety.PLAIN_EXIT)
                  && s1.kernel.ring == s2.kernel.ring == s.kernel.ring + [StackRecord(s.kernel.nextToken + 1, [])]
                  && var s3 := HeapSafety.Next(s2, HeapSafety.PLAIN_EXIT);
                     Between(s3) && s3.kernel.ring == s2.kernel.ring
  {
    hide Begin;
    OneByteBegins(s.kernel, HeapSafety.PLAIN_ENTRY);
    var s1 := HeapSafety.Next(s, HeapSafety.Enter(1, ONE_BYTE, HeapSafety.PLAIN_ENTRY));
    var s2 := HeapSafety.Next(s1, FAILURE);
    assert s2.blocks == {100} && s2.held == {100};
    var s3 := HeapSafety.Next(s2, HeapSafety.PLAIN_EXIT);
    assert s3.kernel == s2.kernel.(pending := map[]);
  }

  /** The ring holds `n` unread stack records nobody can use; userspace believes 100 is live. */
  ghost predicate Filled(p: Pipeline, n: nat) {
    && Between(p.system)
    && p.read + n == |p.system.kernel.ring| && p.queue == []
    && p.user.live.Keys == {100}
    && p.previous == KernelCounters(0, 0)
    && forall i :: p.read <= i < |p.system.kernel.ring| ==>
         p.system.kernel.ring[i].StackRecord? && p.system.kernel.ring[i].frames == []
  }

  lemma {:induction false} Fill(start: Pipeline, acts: seq<Action>, n: nat, ranges: seq<Maps.Range>)
    returns (longer: seq<Action>)
    requires IsRun(start, acts, ranges) && Filled(After(start, acts, ranges), 0)
    ensures IsRun(start, longer, ranges) && Filled(After(start, longer, ranges), n)
  {
    if n == 0 {
      longer := acts;
    } else {
      var some := Fill(start, acts, n - 1, ranges);
      var p := After(start, some, ranges);
      FailingCall(p.system);
      longer := RunCall(start, some, HeapSafety.Enter(1, ONE_BYTE, HeapSafety.PLAIN_ENTRY), FAILURE, HeapSafety.PLAIN_EXIT, ranges);
      hide IsRun, After, Between, HeapSafety.Next, HeapSafety.Enabled;
    }
  }

  /** A call that succeeds at address 100, its stack usable. */
  lemma SucceedingCall(s: HeapSafety.System)
    requires s == HeapSafety.Initial(1)
    ensures var enter := HeapSafety.Enter(1, ONE_BYTE, HeapSafety.PLAIN_ENTRY.(frames := [5]));
            && HeapSafety.Enabled(s, enter)
            && var s1 := HeapSafety.Next(s, enter);
               var allocate := HeapSafety.Allocate(1, 100, false);
               && HeapSafety.Enabled(s1, allocate)
               && var s2 := HeapSafety.Next(s1, allocate);
                  && HeapSafety.Enabled(s2, HeapSafety.PLAIN_EXIT)
                  && s1.kernel.ring == s2.kernel.ring == [StackRecord(1, [5])]
                  && var s3 := HeapSafety.Next(s2, HeapSafety.PLAIN_EXIT);
                     Between(s3) && s3.kernel.ring == [StackRecord(1, [5]), AllocRecord(1, 100, 1, 1)]
  {
    hide Begin;
    var enter := HeapSafety.Enter(1, ONE_BYTE, HeapSafety.PLAIN_ENTRY.(frames := [5]));
    OneByteBegins(s.kernel, enter.entry);
    var s1 := HeapSafety.Next(s, enter);
    var s2 := HeapSafety.Next(s1, HeapSafety.Allocate(1, 100, false));
    assert s2.blocks == {100};
    SucceedingReturn(s2.kernel, HeapSafety.ExitView(s2.threads[1], HeapSafety.PLAIN_EXIT));
    hide Finish;
  }

  lemma SucceedingReturn(k: Kernel, o: ExitOutcome)
    requires k.pending == map[1 := PendingOf(ONE_BYTE, 1, 1, true, false)]
    requires k.liveSamples == map[] && k.liveCount == 0 && Counters(k) == KernelCounters(0, 0)
    requires o.returned == 100 && o.liveUpdated && o.roomForAlloc
    ensures var k' := Finish(k, 1, false, o);
            && k'.pending == map[] && k'.liveSamples == map[100 := 1] && k'.liveCount == 1
            && Counters(k') == Counters(k) && k'.ring == k.ring + [AllocRecord(1, 100, 1, 1)]
  {
  }

  /** Userspace learns about the block. */
  lemma LearnsBlock(c: Collector, ranges: seq<Maps.Range>)
    requires c == Collector(map[], map[], 0) && ranges == [Maps.Range(0, 10)]
    ensures ApplyAll(c, [StackRecord(1, [5]), AllocRecord(1, 100, 1, 1)], ranges).live.Keys == {100}
  {
    var e1, e2 := StackRecord(1, [5]), AllocRecord(1, 100, 1, 1);
    assert [e1] + [e2] == [e1, e2];
    ApplyAllSnoc(c, [e1], e2, ranges);
    ApplyAllOne(c, e1, ranges);
    assert ranges[0].Holds(5);
    assert IsUsable([5], ranges);
    assert |map[1 := [5]]| == 1;
    var c1 := ApplyRecord(c, e1, ranges);
    assert c1.pendingStacks == map[1 := [5]];
    assert ApplyRecord(c1, e2, ranges).live.Keys == {100};
  }

  lemma {:induction false} UselessRecords(c: Collector, es: seq<Event>, ranges: seq<Maps.Range>)
    requires forall i :: 0 <= i < |es| ==> es[i].StackRecord? && es[i].frames == []
    ensures ApplyAll(c, es, ranges).live == c.live
    decreases |es|
  {
    if es != [] {
      UselessRecords(ApplyRecord(c, es[0], ranges), es[1..], ranges);
    }
  }

  /** With the queue full of useless records, the FREE of a live block is the one that is lost,
      and the snapshot keeps the block. */
  lemma LosesFree(p: Pipeline, ranges: seq<Maps.Range>)
    requires Filled(p, EVENT_QUEUE_CAPACITY)
    ensures var free := Probe(HeapSafety.EnterFree(1, 100, true));
            && Enabled(p, free) && Enabled(Next(p, free, ranges), Snapshot)
            && var q := Next(Next(p, free, ranges), Snapshot, ranges);
               && 100 in q.user.live && q.system.kernel.liveSamples == map[]
               && Counters(q.system.kernel) == KernelCounters(0, 0)
  {
    var free := Probe(HeapSafety.EnterFree(1, 100, true));
    var p1 := Next(p, free, ranges);
    assert p1.system.kernel.liveSamples.Keys == {};
    var waiting := Waiting(p1);
    assert |waiting| == EVENT_QUEUE_CAPACITY + 1;
    UselessRecords(p1.user, waiting[..EVENT_QUEUE_CAPACITY], ranges);
    hide ApplyAll;
  }

  /** The condition on the bounded queue cannot be dropped: a run without a single kernel drop or
      eviction whose last snapshot still shows a block the kernel no longer tracks. */
  lemma QueueLossDefeatsResync() returns (acts: seq<Action>, ranges: seq<Maps.Range>)
    ensures IsRun(Initial(1), acts, ranges) && acts != [] && acts[|acts| - 1] == Snapshot
    ensures var p := After(Initial(1), acts, ranges);
            && Counters(p.system.kernel) == KernelCounters(0, 0)
            && 100 in p.user.live && 100 !in p.system.kernel.liveSamples
  {
    ranges := [Maps.Range(0, 10)];
    var start := Initial(1);
    assert IsRun(start, [], ranges) && After(start, [], ranges) == start;
    SucceedingCall(start.system);
    acts := RunCall(start, [], HeapSafety.Enter(1, ONE_BYTE, HeapSafety.PLAIN_ENTRY.(frames := [5])),
                    HeapSafety.Allocate(1, 100, false), HeapSafety.PLAIN_EXIT, ranges);
    FirstSnapshot(After(start, acts, ranges), ranges);
    RunExtend(start, acts, Snapshot, ranges);
    acts := acts + [Snapshot];
    acts := Fill(start, acts, EVENT_QUEUE_CAPACITY, ranges);
    LosesFree(After(start, acts, ranges), ranges);
    RunExtend(start, acts, Probe(HeapSafety.EnterFree(1, 100, true)), ranges);
    acts := acts + [Probe(HeapSafety.EnterFree(1, 100, true))];
    RunExtend(start, acts, Snapshot, ranges);
    acts := acts + [Snapshot];
    hide IsRun, After, Next, Enabled, HeapSafety.Next, HeapSafety.Enabled;
  }

  lemma FirstSnapshot(p: Pipeline, ranges: seq<Maps.Range>)
    requires Between(p.system) && p.system.kernel.ring == [StackRecord(1, [5]), AllocRecord(1, 100, 1, 1)]
    requires p == Initial(1).(system := p.system) && ranges == [Maps.Range(0, 10)]
    ensures Enabled(p, Snapshot) && Filled(Next(p, Snapshot, ranges), 0)
  {
    var waiting := Waiting(p);
    assert waiting == p.system.kernel.ring && waiting[..2] == waiting;
    LearnsBlock(p.user, ranges);
    hide ApplyAll;
  }
}
