# Verified model of rustprofile's bookkeeping

rustprofile samples heap allocations, CPU time and off-CPU time of a running process, splits them
into windows and publishes each window as pprof, SVG, Firefox and OTLP output. Its numbers are worth
something only if the bounded tables, queues and buffers on the way stay exact, or say how much they
dropped. This project models that bookkeeping in Dafny and proves it.

`dafny verify dfyconfig.toml` checks everything.

## What is modelled

| files | part of rustprofile | main result |
|---|---|---|
| `Sampling`, `Bits` | sampling weights of the heap probes | weights are powers of two that bracket the interval, and sampling is unbiased by exact counting |
| `HeapProbes`, `HeapSafety` | the kernel probes beside any allocator and any number of threads | in every run each tracked pointer is a live block or the old pointer of a running tracked realloc, under the exact condition; when a tracked block stops being tracked |
| `HeapTracking`, `HeapRecords`, `HeapOrigins` | what is sampled and tracked, and where records and live entries come from | every record of every run carries its call's size, weight, stack and block, and so does every entry userspace holds live |
| `HeapStateModel` | the live map with its per-stack index and the capped window | the index is exact, never clamps, and snapshots conserve totals |
| `HeapCollection`, `HeapPipeline` | ring, bounded queue, collector and resync, as one transition system | userspace's live pointers agree with the kernel's, with the exact conditions |
| `EventSorter`, `PerfSamples` | the bounded reorder buffer | it refines a stable sort and never loses a sample |
| `PprofProfile`, `PprofBuilder`, `ProfileTypes` | interning a window into a pprof profile | reading the profile gives the window back |
| `OtlpDictionary`, `OtlpDictionaryBuilder`, `Grouping`, `OtlpEncoder`, `ExportPipeline` | translating profiles into one OTLP request with a shared dictionary | every exported sample reads as its source; the timeline is grouped without loss |
| `FlameTree`, `FlameLayout` | the node-capped flame tree and its geometry | shown nodes are exact, frames are shares of the width, nested and disjoint |
| `Bytes`, `Subsequences`, `PerfRecords`, `PerfRing` | the perf ring buffer | both readers agree with the logical byte stream; records are visited once, in order |
| `Maps` | executable address ranges | binary search over merged ranges decides membership |
| `OffCpuEvents`, `OffCpuIntervals`, `OffCpu`, `OffCpuThreads` | off-CPU intervals cut at window edges | a thread's switch-out and switch-in become its interval, no time is lost or counted twice, every switch-out is accounted for |
| `CappedGroupBy`, `Sums`, `CpuSamples`, `CpuWindows` | capped aggregation, CPU ingestion | a capped table is the group-by restricted to the first keys, with everything else counted |
| `ImportHistory`, `ImportWindows`, `Import` | importing a recording with few windows open | what becomes of each sample is said without the windows: each window is written once, in order, with exactly its samples, and a sample is late under an exact condition |
| `Publication`, `OutputWriter` | writing, rolling back and expiring windows | a session's files are exactly those of the newest successful windows |

An object of the source that changes in place is a class here, with one method for each of its
methods. A class that keeps a history (`pushed`, `accepted`, `log`, `at`, ...) keeps it in ghost fields:
its `Valid()` says what the real fields are as a function of that history, its methods say how the
history moves. The probes and the pipeline are transition systems over functions that the methods of
`Probes` and `HeapCollector` are proved to compute. The order in which a hash map is walked is
arbitrary everywhere.

## What came out differently from what one might expect

- One failure makes the map of live samples unsafe: a tracked realloc whose `pending` entry cannot be
  stored while no other call claims its block. Unless that happens every key is explained, whatever
  else fails (`HeapSafety.LiveSamplesAreLive`); wherever it happens, two more steps can leave a key
  that is no block (`HeapSafety.MissedReallocBreaksSafety`), and it can happen
  (`HeapSafety.FailedUpdateLeavesStaleKey`).
- A tracked block can stop being tracked while the program still holds it: a realloc that moved away
  from its address returns only after the allocator handed the address out again
  (`HeapSafety.TrackedUntil` says exactly when).
- A resync looks at kernel drops and evictions only; a FREE record lost by the bounded userspace queue
  can leave a dead block in the snapshots (`HeapPipeline.QueueLossDefeatsResync`); losing other
  records cannot (`HeapPipeline.SnapshotWithinKernel`).
- A thread named by the empty string cannot be told from a thread without a name in a written
  profile (`PprofBuilder.DecodedKey` says exactly when reading back works).
- A file that cannot be removed breaks retention for good: its window has left the queue and the new
  window is rolled back while its paths stay queued (`Publication.StuckFileLeaks`;
  `Publication.PublishKeepsConsistent` says exactly when retention holds).
- An off-CPU interval keeps its true length exactly when neither a boundary nor its switch-in lies
  before the start it is measured from (`OffCpuIntervals.SplitIsExact`).
- A stack that the kernel failed to read is reported twice as an incomplete off-CPU interval, once
  by the collector for its empty frames and once from the kernel's counter
  (`OffCpu.FailedStackCountsTwice`). The reported counters balance over any windows exactly when the
  kernel failed to read no stack in them (`OffCpu.DiagnosticsBalance`).
- An imported sample is late exactly when more than four windows from its own on already hold samples,
  so a recording whose samples are never four windows or more out of order loses none
  (`ImportHistory.SampleFate`, `ImportHistory.NearlyInOrderIsComplete`).
- A parsed callchain is free of context markers exactly when the sampled instruction is no marker itself:
  the instruction is put in front unchecked (`PerfRecords.CallchainRoundTrip`).
- The import takes `u64::MAX - 4095` for the first context marker where the perf ABI has
  `u64::MAX - 4094`; each model uses the constant of its file.

## Model

| member | source | states |
|---|---|---|
| `Sampling.SamplingWeight` | bpf/heap.bpf.c:132-146 | the weight is 1 when the size is 0 or reaches the interval; below it a power of two w with w*size <= interval < 2*w*size, although it is computed by smearing bits |
| `Sampling.SamplingIsUnbiased` | bpf/heap.bpf.c:148-158 | for every power-of-two weight exactly one random word in w passes, counted over all 32-bit words up to 2^32 and all 64-bit words above |
| `HeapProbes.Probes.BeginAllocation` | bpf/heap.bpf.c:241-279 | an entry probe moves counters, token, ring and `pending` as the step of the model that `HeapTracking.EnterSamples` and `HeapRecords.RecordsCarryCalls` describe, with every map or ring failure |
| `HeapProbes.Probes.FinishAllocation` | bpf/heap.bpf.c:281-322 | a return probe moves the maps, counters and ring as the step of the model that `HeapTracking.ReturnTracks`, `HeapSafety.TrackedUntil` and `HeapPipeline.EvictionsAreCounted` describe |
| `HeapProbes.Probes.FreeAllocation` | bpf/heap.bpf.c:324-337 | a free probe releases a tracked pointer and emits its record, and otherwise does nothing |
| `HeapTracking.EnterSamples` | bpf/heap.bpf.c:132-158 | in every reachable state, a call above size zero is sampled exactly when the weight for its size divides the number drawn; then it gets the next token, its stack is sent under it, and its entry carries its own size, weight and pointers; otherwise it gets none of these |
| `HeapTracking.ReturnTracks` | bpf/heap.bpf.c:281-322 | in every reachable state, a sampled call that returns with a block the probe can see and the map can take makes that block a key under its token and sends its ALLOC record last; no other step makes anything tracked or sends an ALLOC record |
| `HeapTracking.StepCounts` | bpf/heap.bpf.c:160-322 | in every step failed updates, unread stacks and tracked allocations are each counted exactly once |
| `HeapRecords.RecordsCarryCalls` | bpf/heap.bpf.c:160-337 | in every run, tokens belong to calls that entered, in order; every stack record carries its call's frames, every ALLOC record its call's size, a weight that brackets the interval for that size, and a block the allocator then gave that thread; every sampled entry carries its call's size and weight |
| `HeapRecords.CountersAddUp` | bpf/heap.bpf.c:160-337 | in every run, records in the ring and records counted as dropped are together one a token, one a sampled allocation and one a sampled free; every entry is counted and none is overwritten |
| `HeapOrigins.RingCarriesCalls` | bpf/heap.bpf.c:160-337 | the same of every record of the ring in every run of the whole pipeline |
| `HeapOrigins.LiveEntriesAreCalls` | src/platform/linux/heap.rs:274-332 | in every run, whatever was dropped, evicted, lost or resynchronised, a block that userspace holds live was given to a sampled call, and its entry is that call's stack, executable and without repeats, a weight for that call's size, and size times weight as space |
| `HeapSafety.LiveSamplesAreLive` | bpf/heap.bpf.c:241-337 | in every run of any number of threads, with any allocator answers and any failures of maps and ring, every key of `live_samples` is a block handed out by the allocator or the old pointer of a tracked realloc that some thread is still running, unless a tracked realloc entered whose `pending` entry could not be stored while no other call claimed its block |
| `HeapSafety.RunKeeps` | bpf/heap.bpf.c:241-337 | every probe and every allocator action, failing or not, keeps the ownership of blocks and of pending entries behind that result |
| `HeapSafety.MissedReallocBreaksSafety` | bpf/heap.bpf.c:241-279 | the condition is exact: from every reachable state where such a realloc enters and the allocator has an address left, the block moves and the call returns, and the old pointer stays a key that is no block and that no call claims |
| `HeapSafety.FailedUpdateLeavesStaleKey` | bpf/heap.bpf.c:241-279 | and it happens: a run of two calls from the start after which a moved block's old pointer stays in the map with no call in progress |
| `HeapSafety.TrackedUntil` | bpf/heap.bpf.c:281-337 | in every reachable state, a tracked block the program holds loses its key in a step exactly when it is freed, displaced by a new key in a full map, or given up by the return of a realloc that had moved away from the address before it was handed out again |
| `HeapStateModel.TotalsFit` | src/heap/state.rs:123-198 | no per-stack total over a live map can exceed 128 bits: at most 2^64-1 pointers of 64-bit weights and weighted spaces |
| `HeapStateModel.TotalsNeverClamp` | src/heap/state.rs:123-198 | so the saturating additions to the index never clamp and equal exact ones |
| `HeapStateModel.HeapState.Apply` | src/heap/state.rs:60-69 | a free removes a pointer, an allocation sets it; the live map, the per-stack index and the window's table and drop counters follow exactly, and the index keeps exactly the stacks that have a live allocation |
| `HeapStateModel.HeapState.Allocate` | src/heap/state.rs:123-173 | the validity rule of an allocation, the capped window table and the replacement of a reused pointer |
| `HeapStateModel.HeapState.RemoveLiveTotals` | src/heap/state.rs:185-198 | taking an allocation out of the index leaves exactly the sums over the others and no empty entry |
| `HeapStateModel.HeapState.RebuildLiveTotals` | src/heap/state.rs:200-212 | rebuilding the index over the live map in any order gives the index that was kept incrementally |
| `HeapStateModel.HeapState.RetainLivePointers` | src/heap/state.rs:118-121 | only the given pointers stay live and the index is theirs |
| `HeapStateModel.IndexUnique` | src/heap/state.rs:200-212 | the index is determined by the live map, so rebuilding changes nothing |
| `HeapStateModel.WindowStep` | src/heap/state.rs:123-152 | a valid allocation moves the window's table and drop counters as one more contribution to the capped group-by does |
| `HeapStateModel.HeapState.SnapshotWindowWithDrops` | src/heap/state.rs:75-107 | for any iteration order a snapshot shows at most the allowed number of stacks, with their exact live totals, and starts a new window |
| `HeapStateModel.SnapshotConservesInuse` | src/heap/state.rs:75-107 | absent 64-bit saturation, shown plus dropped in-use totals are those of the live set |
| `HeapStateModel.SnapshotConservesAllocations` | src/heap/state.rs:75-152 | in each column that stays below the 64-bit ceiling, shown plus dropped allocation totals are those of the valid allocations since the last snapshot |
| `HeapCollection.HeapCollector.ApplyRawEvent` | src/platform/linux/heap.rs:274-332 | a stack record is kept or counted as a failure, an allocation takes its stack and goes live, a free removes it; unmatched tokens are counted |
| `HeapCollection.AcceptedMeans` | src/platform/linux/heap.rs:310-332 | an ALLOC record enters the window once, under its stack, with its weight and size times weight, exactly when its stack waits and its block, size and weight are there |
| `HeapCollection.HeapCollector.PrunePendingStacks` | src/platform/linux/heap.rs:274-332 | an overfull table of stacks drops exactly the older half of its tokens |
| `HeapCollection.HeapCollector.Drain` | src/platform/linux/heap.rs:190-203 | the queue admits records up to its capacity, counts the others as dropped, and the admitted ones are applied in order |
| `HeapCollection.HeapCollector.SnapshotWindow` | src/platform/linux/heap.rs:205-255 | a snapshot drains, and keeps only pointers the kernel still has when a drop or eviction counter moved since the last one |
| `HeapPipeline.CaughtUpUserspaceAgrees` | src/platform/linux/heap.rs:190-332 | in every run without drops, evictions and queue losses, applying what is in flight to userspace's live pointers gives a subset of the kernel's keys; no stack is counted as lost exactly when every stack record sent is usable and finds room among those waiting for their allocation, and then the pointers are exactly the kernel's keys |
| `HeapPipeline.CollectorMirrors` | src/platform/linux/heap.rs:274-332 | for any stream in which stacks precede their allocations: the collector counts no failure exactly when all stacks are usable and fit, and then every ALLOC record finds its stack and the live pointers and waiting tokens are those the stream tells |
| `HeapPipeline.SnapshotWithinKernel` | src/platform/linux/heap.rs:205-215 | after every snapshot, for any mix of ring drops and evictions, userspace's live pointers are within the kernel's, unless the bounded queue lost a FREE record since the last resync; lost stack and allocation records do no harm |
| `HeapPipeline.EvictionsAreCounted` | bpf/heap.bpf.c:302-335 | in every reachable state the map's size is at most the live counter and that at most the capacity, so an insertion that displaces another key always moves the eviction counter |
| `HeapPipeline.QueueLossDefeatsResync` | src/platform/linux/heap.rs:205-215 | the condition on the queue is needed: a run without kernel drops or evictions whose last snapshot shows a block the kernel no longer tracks |
| `EventSorter.StableSortSpec` | src/platform/linux/event.rs:28-84 | the specification: a stable sort is sorted and keeps, for every timestamp, the samples of that timestamp in their order |
| `EventSorter.SortedUnique` | src/platform/linux/event.rs:28-84 | and it is the only such sequence |
| `EventSorter.PerfEventSorter.Push` | src/platform/linux/event.rs:28-45 | a push appends a sorted run, leaves at most the allowed number pending and loses nothing; the order stays intact exactly while no flush is forced and no event is older than the newest seen by more than the reorder window |
| `EventSorter.PerfEventSorter.Flush` | src/platform/linux/event.rs:47-51 | a flush empties the buffer; everything emitted is everything pushed, and it is its stable sort when the order is intact |
| `EventSorter.PerfEventSorter.DrainBefore` | src/platform/linux/event.rs:59-71 | everything up to the watermark comes out oldest first and nothing else |
| `EventSorter.PerfEventSorter.PopOldest` | src/platform/linux/event.rs:73-84 | the first sample of the oldest timestamp |
| `EventSorter.NothingLost` | src/platform/linux/event.rs:28-84 | at any time emitted and pending samples together are the multiset pushed |
| `EventSorter.ReorderAll` | src/platform/linux/event.rs:28-84 | a whole session outputs a permutation of its input, and its stable sort when events are at most the reorder window late and no flush was forced |
| `PprofBuilder.ProfileBuilder.Intern` | src/pprof.rs:466-476 | the index of a string; equal strings get one index and entries never move |
| `PprofBuilder.ProfileBuilder.FunctionId` | src/pprof.rs:614-636 | an id that reads as the function asked for, one entry a function |
| `PprofBuilder.ProfileBuilder.MappingId` | src/pprof.rs:583-612 | an id that reads as the mapping, with its flags the OR over every location interned so far |
| `PprofBuilder.ProfileBuilder.LocationId` | src/pprof.rs:536-581 | an id that reads as the resolved location, one entry an address |
| `PprofBuilder.ProfileBuilder.ThreadLabels` | src/pprof.rs:497-521 | labels that read as the process, the thread and its name if it has one |
| `PprofBuilder.ProfileBuilder.SampleLabels` | src/pprof.rs:485-495 | labels that read as the pairs with a key, a value without text reading as the number zero |
| `PprofBuilder.ProfileBuilder.AddSample` | src/pprof.rs:523-534 | one more sample, reading as the stack, values and labels given |
| `PprofBuilder.BuildProfile` | src/pprof.rs:150-206 | for any iteration order the profile is well formed (ids dense from 1, string 0 empty, strings distinct), has the columns, period, default column and times asked for, holds each entry of the aggregated map as one sample with its resolved stack, thread and values, and every mapping's flags are the OR over the locations interned in it |
| `PprofBuilder.DecodedKey` | src/pprof.rs:497-521 | reading a sample back gives its key exactly when its thread name is not the empty string |
| `PprofBuilder.RoundTrip` | src/pprof.rs:150-206 | so, without empty thread names, the entries read from a profile are exactly those of the aggregated map, each from one sample |
| `PprofBuilder.LocationRead` | src/pprof.rs:536-636 | reading a written location gives back the resolver's functions, files, lines and mapping exactly when none of its optional texts is empty |
| `PprofBuilder.PairsRead` | src/pprof.rs:485-495 | the target's labels are exactly those pairs with a key, in order, an empty text reading as the number zero |
| `PprofBuilder.FlagsFold` | src/pprof.rs:583-612 | ORing a location's flags into its mapping keeps the flags right for one more address |
| `PprofBuilder.FlagsMean` | src/pprof.rs:583-612 | a mapping's flags say whether some address interned in it has a call, one with a file, one with a line, or several |
| `OtlpDictionary.CacheKeyInjective` | src/otlp/mod.rs:433-485 | the text under which attributes are cached tells any two different attributes apart, whatever colons and digits they contain |
| `OtlpDictionary.StackUnique` | src/otlp/mod.rs:586-642 | two stack entries that read the same are the same entry, through locations, mappings, functions and strings |
| `OtlpDictionary.AttributesUnique` | src/otlp/mod.rs:433-485 | two attribute lists that read the same are the same list |
| `OtlpDictionary.LabelsRead` | src/otlp/mod.rs:487-501 | labels written as attributes read back as the same labels |
| `OtlpDictionary.StackStable` | src/otlp/mod.rs:586-642 | a stack keeps its meaning while the dictionary grows |
| `OtlpDictionaryBuilder.DictionaryBuilder.InternString` | src/otlp/mod.rs:422-431 | an index that reads as the string; index 0 is the empty one |
| `OtlpDictionaryBuilder.DictionaryBuilder.InternAttribute` | src/otlp/mod.rs:433-485 | an index that reads as the key, typed value and unit |
| `OtlpDictionaryBuilder.DictionaryBuilder.InternPprofLabel` | src/otlp/mod.rs:487-501 | an attribute that reads as the pprof label, or nothing for a label without a key |
| `OtlpDictionaryBuilder.DictionaryBuilder.InternMapping` | src/otlp/mod.rs:503-558 | an index that reads as the range, file name and GNU build id of the pprof mapping; a new entry carries its build id, hash and flags in order |
| `OtlpDictionaryBuilder.DictionaryBuilder.InternFunction` | src/otlp/mod.rs:560-584 | an index that reads as the pprof function |
| `OtlpDictionaryBuilder.DictionaryBuilder.InternLocation` | src/otlp/mod.rs:586-630 | an index that reads as the pprof location: address, mapping and lines, unknown ids reading as none |
| `OtlpDictionaryBuilder.DictionaryBuilder.InternStack` | src/otlp/mod.rs:632-642 | an index that reads as the locations given |
| `Grouping.GroupingConserves` | src/otlp/mod.rs:301-339 | grouping rows by key keeps every row as often as it was given |
| `OtlpEncoder.ConvertSamples` | src/otlp/mod.rs:301-339 | without timestamps each source sample becomes one sample reading as the same stack, labels and value |
| `OtlpEncoder.ConvertTimeline` | src/otlp/mod.rs:301-339 | with timestamps there is one sample for each distinct stack and labels, with aligned columns holding exactly that stack's values and times in source order |
| `OtlpEncoder.TimelineConserves` | src/otlp/mod.rs:301-339 | read back, a timeline holds exactly the source's samples with their values and times |
| `OtlpEncoder.ConvertProfile` | src/otlp/mod.rs:280-353 | the header and samples of one sample type; an index that names no sample type is an error |
| `OtlpEncoder.EncodeProfiles` | src/otlp/mod.rs:186-278 | every profile of every source reads back from the one shared dictionary as its source; the request fails exactly when the timeline's timestamps do not match its samples |
| `ExportPipeline.Export` | src/otlp/mod.rs:186-278 | end to end: any windows are built as profiles and encoded over one dictionary; each scope reads back as its window, with one profile a column holding the header and every entry once, reading as its resolved stack, labels and value |
| `ExportPipeline.ExportRead` | src/otlp/mod.rs:186-353 | reading an exported sample gives back its entry of the window, addresses, process, thread and name, exactly when the name is not the empty string |
| `FlameTree.FlameGraph.InsertSample` | src/svg.rs:136-161 | inserting a sample keeps the tree's account of all samples so far, whether or not the node limit stops it |
| `FlameTree.NodesAreExact` | src/svg.rs:136-161 | absent 64-bit saturation, every node carries exactly the sum of the samples whose stack begins with its path: truncation removes nodes and never changes one |
| `FlameTree.TruncatedMeans` | src/svg.rs:136-161 | the truncation flag is set exactly when some sample's stack has no node |
| `FlameTree.ChildrenFit` | src/svg.rs:136-161 | any children of a node sum to at most the node |
| `FlameLayout.TreeDepth` | src/svg.rs:163-169 | the length of the longest way down from a node |
| `FlameLayout.SampleFrames` | src/svg.rs:107-134 | the labels of a sample from the root outwards: those of the stack that the profile means, each call by its function's name or its address |
| `FlameLayout.HexRead` | src/svg.rs:107-134 | an address written in hexadecimal digits reads back as the address, without a leading zero |
| `FlameLayout.RenderChildren` | src/svg.rs:172-229 | for any order of children exactly the nodes below whose share is wide enough are drawn, once each, at their share of the width; absent saturation frames lie inside their callers and beside all others, within the parent's width |
| `FlameLayout.Render` | src/svg.rs:44-105 | the picture of a profile: the tree accounts for its positive samples, the height fits the deepest node, frames are placed by depth and fill no more than the whole width |
| `FlameLayout.FramesAreShares` | src/svg.rs:172-229 | a drawn frame's width is its path's share of all samples, and every path with a large enough share that has a node is drawn |
| `PerfRing.PerfEvent.CopyFromRingInto` | src/platform/linux/perf.rs:470-502 | the copying reader yields the logical bytes of the stream across the wrap, or fails exactly when the area is not mapped or too small |
| `PerfRing.PerfEvent.RecordFromRing` | src/platform/linux/perf.rs:504-527 | the borrowing reader yields the same logical bytes, under the same conditions |
| `PerfRing.PerfEvent.Drain` | src/platform/linux/perf.rs:389-468 | the batch gains exactly what the bytes between tail and head decode to, and the tail ends at the head whatever those bytes are; an impossible ring size only counts one malformed record |
| `PerfRing.LaidReads` | src/platform/linux/perf.rs:470-527 | bytes written round a ring no shorter than them are read back in order |
| `PerfRing.DrainAfterWrites` | src/platform/linux/perf.rs:389-468 | the bytes between tail and head, wherever well-formed records were written round the ring, decode to each record once, in order |
| `PerfRing.DrainWritten` | src/platform/linux/perf.rs:389-468 | so after a producer wrote records round the ring, a drain adds each of them to the batch once, in order, and leaves the ring empty |
| `PerfRecords.DrainRecords` | src/platform/linux/perf.rs:389-468 | a stream of well-formed records is read record by record without a malformed one |
| `PerfRing.ParseSample` | src/platform/linux/perf.rs:568-621 | reading a sample's fields in order gives the fields at their positions in the record layout; `PerfRecords.CallchainRoundTrip` and `PerfRecords.SnapshotRoundTrip` say what these are |
| `PerfRing.DecodeRegisters` | src/platform/linux/perf.rs:624-646 | each register is the word at the rank of its bit in the register mask |
| `PerfRecords.SampleRoundTrip` | src/platform/linux/perf.rs:568-600 | a frame-pointer sample written in the kernel's layout parses back with its process, thread, time and period, and its callchain cut to the frame limit |
| `PerfRecords.CallchainRoundTrip` | src/platform/linux/perf.rs:568-600 | any callchain parses to the words that are no context markers, in order and as often as read, with the sampled instruction in front exactly when it does not lead them; a marker is left exactly when the sampled instruction is one itself |
| `PerfRecords.CleanSampleRoundTrip` | src/platform/linux/perf.rs:568-600 | a clean callchain parses back unchanged |
| `PerfRecords.SnapshotRoundTrip` | src/platform/linux/perf.rs:602-646 | a stack snapshot written in the kernel's layout parses back with the registers the mask gives their places and the filled part of its stack, and is refused exactly when the mask lacks the stack or the frame pointer |
| `PerfRecords.VisitLost` | src/platform/linux/perf.rs:444-459 | both kinds of lost records add their count |
| `PerfRecords.VisitSample` | src/platform/linux/perf.rs:413-464 | a sample record adds its sample behind those before or counts as malformed |
| `Maps.FromMaps` | src/maps.rs:27-46 | the merged ranges are strictly separated, sorted and cover exactly the addresses of executable mappings, for any list of mappings |
| `Maps.Contains` | src/maps.rs:48-51 | binary search over such ranges decides coverage |
| `Maps.ContainsAfterMerge` | src/maps.rs:27-51 | so an address is found exactly when some executable mapping contains it |
| `OffCpuIntervals.SplitKeepsTime` | src/platform/linux/off_cpu.rs:228-356 | over boundaries that go forward, an interval's pieces add up to the time from its switch-out to the later of its switch-in and the last boundary, and count as one event |
| `OffCpuIntervals.SplitIsExact` | src/platform/linux/off_cpu.rs:228-356 | the pieces add up to the true length exactly when no boundary and no switch-in goes back in time |
| `OffCpuEvents.SwitchOutRoundTrip` | src/platform/linux/off_cpu.rs:274-303 | a switch-out written in the kernel's layout decodes to its process, thread and time and to the non-zero words, in order, among the first length / 8, at most 127; a negative length counts as none |
| `OffCpuEvents.SwitchInRoundTrip` | src/platform/linux/off_cpu.rs:274-327 | a switch-in written in the kernel's layout decodes to its thread and time |
| `OffCpu.OffCpuCollector.Apply` | src/platform/linux/off_cpu.rs:274-327 | a record moves the history of intervals by what it decodes to and is counted once for what it did; switch-outs, malformed records and intervals running before stay equal to completed, incomplete and pending intervals |
| `OffCpuThreads.StayBecomes` | src/platform/linux/off_cpu.rs:274-356 | a thread's switch-out and next switch-in, as the kernel writes them, become one completed interval of its own process, thread and stack, handed on as one event of its whole length, whatever records of other threads lie between |
| `OffCpuThreads.DrainStay` | src/platform/linux/off_cpu.rs:216-226 | so the collector, draining such records, completes that thread's interval |
| `OffCpu.IntervalsKeepTime` | src/platform/linux/off_cpu.rs:228-356 | in every reachable collector, what was handed on for a completed interval counts once and adds up to its time off the CPU, exactly when its boundaries and switch-in go forward |
| `OffCpu.OffCpuCollector.Aggregate` | src/platform/linux/off_cpu.rs:329-356 | one more contribution to the capped group-by, or one more dropped event |
| `OffCpu.OffCpuCollector.ApplyThreads` | src/platform/linux/off_cpu.rs:183-214 | too many threads or a failed update change nothing; otherwise the intervals of threads that are gone are given up, each counted once |
| `OffCpu.OffCpuCollector.CutPending` | src/platform/linux/off_cpu.rs:234-248 | every pending interval is cut once at the boundary and goes on from there, in any order |
| `OffCpu.OffCpuCollector.SnapshotWindow` | src/platform/linux/off_cpu.rs:228-272 | a window shows the capped group-by of all pieces handed on since the last one and reports exactly what the events since then count as, with the movement of the kernel's drop and stack failure counters; unreadable counters report nothing and the window goes on |
| `OffCpu.DiagnosticsBalance` | src/platform/linux/off_cpu.rs:228-327 | over any consecutive windows, the reported switch-outs with the malformed records and the intervals running before equal the reported completed and incomplete intervals with those running after, exactly when the kernel's stack failure counter did not move in them |
| `OffCpu.FailedStackCountsTwice` | src/platform/linux/off_cpu.rs:228-303 | a window with one switch-out whose stack the kernel failed to read reports one switch-out and two incomplete intervals |
| `OffCpu.OffCpuCollector.EventsAreCompletions` | src/platform/linux/off_cpu.rs:228-272 | events shown and dropped are the completed intervals, and nanoseconds shown and dropped all the time handed on, each unless it passes the 64-bit ceiling itself |
| `OffCpu.OffCpuCollector.ShownValues` | src/platform/linux/off_cpu.rs:228-272 | a stack and thread shown stands there with the number of its completed intervals and all the time handed on for it, clamped to 64 bits |
| `CappedGroupBy.Step` | src/platform/linux/record.rs:1951-1969 | the insertion rule of every bounded table adds one contribution to the group-by restricted to the first keys |
| `CappedGroupBy.CappedMeaning` | src/platform/linux/record.rs:1951-1969 | such a table holds exactly the first distinct keys, as many as fit, in order of appearance, with their uncapped sums |
| `CappedGroupBy.Conservation` | src/platform/linux/record.rs:1951-1969 | what a column of a table shows and what was dropped of it are all that came in, unless that column passes the 64-bit ceiling |
| `CpuWindows.CpuWindow.Accept` | src/platform/linux/record.rs:1929-1969 | an accepted sample enters the timeline or is counted as dropped from it, and the capped table or its drop counters |
| `CpuWindows.CpuWindow.ThreadName` | src/platform/linux/record.rs:1810-1826 | a bounded table of names, so that one thread has one name in all samples of a window |
| `CpuWindows.CpuWindow.Ingest` | src/platform/linux/record.rs:1862-1970 | which samples are usable, with the counts of invalid addresses and truncated stacks; the sum of depths is that of the samples kept |
| `CpuWindows.IngestCpuBatch` | src/platform/linux/record.rs:1839-1972 | the window gains what the samples leaving the reorder buffer contribute, in that order, up to the first one that cannot be unwound safely |
| `CpuSamples.CallchainJudged` | src/platform/linux/record.rs:1862-1885 | a callchain is used, whole, exactly when it has frames, all executable and no two alike; otherwise its frames that are not executable are counted |
| `CpuSamples.SampleContributes` | src/platform/linux/record.rs:1912-1932 | a usable sample contributes once: its frames, thread and time, the target's process for process zero, and its period or, without one, the time between two samples at the frequency |
| `CpuWindows.WindowCounts` | src/platform/linux/record.rs:1839-1972 | accepted samples are usable plus dropped, the depth sum is that of the samples not dropped, usable samples are the sum of the counts shown, and nanoseconds shown and dropped are all accepted, the last two each below the 64-bit ceiling |
| `CpuWindows.WindowValues` | src/platform/linux/record.rs:1929-1969 | a stack and thread shown stands there with the number of its samples and their nanoseconds, clamped to 64 bits, and the timeline shows the first samples as accepted |
| `ImportWindows.WindowCounts` | src/platform/linux/import.rs:176-219 | a window's total is what its table shows plus what it dropped, and its timeline shows the first samples and counts the rest |
| `ImportWindows.WindowValues` | src/platform/linux/import.rs:176-219 | a stack and thread shown stands there with the number of its samples and the time they stand for, clamped to 64 bits |
| `ImportWindows.AddressesAreClean` | src/platform/linux/import.rs:138-152 | the addresses of a sample have no markers, zeros or immediate repeats, and there are none exactly when the record holds none |
| `ImportWindows.AddressesPick` | src/platform/linux/import.rs:138-152 | they are exactly the addresses among the instruction pointer and the callchain, in order, that do not repeat the address before |
| `ImportHistory.SampleFate` | src/platform/linux/import.rs:123-175 | what becomes of each sample of a recording, said without the windows kept: its window holds exactly the times from index to index + 1 windows after the recording's first sample, window zero also all earlier ones; it is late exactly when more than four windows from its own on already hold samples; else it is taken if it has an address, under its own stack, thread, name and time |
| `ImportHistory.NameIsLatest` | src/platform/linux/import.rs:110-122 | a thread's name is the last one the recording gave it, and a thread given one has none only while the bounded table is full |
| `ImportHistory.SamplesAddUp` | src/platform/linux/import.rs:123-234 | samples with a time and a thread are exactly those taken, those late and those without an address |
| `ImportHistory.NearlyInOrderIsComplete` | src/platform/linux/import.rs:130-137 | a recording in which no sample is four windows or more behind an earlier one has no late sample, and every usable one is taken |
| `Import.Importer.Delta` | src/platform/linux/import.rs:163-175 | the time a sample stands for: since its thread's last one, at most a window, never nothing; a bounded table remembers the threads |
| `Import.FrontierIsTooLate` | src/platform/linux/import.rs:130-234 | the mark of the windows written decides lateness as the history does |
| `Import.Importer.AddSample` | src/platform/linux/import.rs:123-234 | one more sample moves windows, mark, names, times and counters as its fate in the history says; at most four windows stay open and every window holds exactly its samples |
| `Import.Importer.Finish` | src/platform/linux/import.rs:239-253 | all windows are written in strictly increasing order, one an index with samples, each holding exactly the samples of its index; an import that found nothing fails |
| `Import.EverySampleOnce` | src/platform/linux/import.rs:102-253 | the windows written count every sample taken exactly once |
| `Import.Run` | src/platform/linux/import.rs:59-263 | for records in any order exactly one window is written for each index that a sample was taken for, in increasing order, holding exactly the taken samples of that index, whose times lie in that window counted from the first sample; late samples and forgotten threads are those of the history, every sample with a time and a thread is in one window, late, or without an address, and it fails exactly when none is usable |
| `Publication.SessionKeepsNewest` | src/platform/linux/record.rs:766-1021 | when removals work, after any sequence of publications with any failing writes and any late exporter updates, the session's files are exactly those of the newest successful windows, as many as are kept |
| `Publication.PublishKeepsConsistent` | src/platform/linux/record.rs:766-1021 | after one publication the files are those of the windows kept if and only if no removal that was needed failed |
| `Publication.FailureLeavesNothing` | src/platform/linux/record.rs:990-1021 | rolling back an incomplete window restores the directory exactly when every file written can be removed |
| `Publication.StuckFileLeaks` | src/platform/linux/record.rs:2111-2128 | an expired file that cannot be removed stays for good and takes the new window with it |
| `Publication.UpdateAddsNothing` | src/platform/linux/record.rs:1275-1280 | a late exporter update, failing or not, never adds or removes a file |
| `OutputWriter.WindowOutput.ShedDerivedOutputs` | src/platform/linux/record.rs:704-764 | shedding takes away exactly the pictures and the timeline file, from the window and from its list of outputs alike, and reports how many |
| `OutputWriter.Writer.WriteOutputs` | src/platform/linux/record.rs:785-988 | the paths written are those of the diagnostics' list, shed or not, in its order, up to the first failure |
| `OutputWriter.Writer.RollBack` | src/platform/linux/record.rs:990-1021 | every listed output that can be removed is removed |
| `OutputWriter.Writer.PruneWindows` | src/platform/linux/record.rs:2111-2128 | the oldest windows beyond the limit leave the queue and their files the directory, up to the first removal that fails |
| `OutputWriter.Writer.Write` | src/platform/linux/record.rs:766-1021 | a publication changes directory and queue as the model of a publication says |
| `OutputWriter.WindowsApart` | src/platform/linux/record.rs:343-409 | windows of different indices have no file in common |

## Left out

- Sub-probe interleavings: one probe is one step, since the source updates `live_samples` and `live_count` in two.
- Loading eBPF, perf system calls, `/proc`, ptrace, signals and cgroups: their results are parameters (allocator answers, thread names, clock values, thread sets, failures of map updates and of the ring).
- HeapCollection.HeapCollector.ApplyRawEvent: records arrive decoded, so a header too short to parse, the unwinding of a stack snapshot and the counters of stack samples and their depths are not modelled.
- Bytes of the heap probes' events: records are values; off-CPU events and perf records are modelled down to their bytes.
- Wrap-around of 64-bit counters: tokens of the heap probes, event counters of the windows and ring positions are unbounded numbers here; sums kept in `i64` and `u128`, and the lost-sample counts, saturate as in the source.
- Dictionary and profile indices: tables are assumed shorter than 2^31, so indices are natural numbers.
- OtlpDictionaryBuilder.DictionaryBuilder.InternMapping: a mapping met again keeps the flags and the hash of its first occurrence, because the cache key does not contain them; only ranges, names and build ids are part of the meaning.
- OtlpDictionaryBuilder.DictionaryBuilder.InternLocation: the `is_folded` attribute is written but not part of the meaning, for the same reason.
- OtlpEncoder.EncodeProfiles: the resource, the scope's name and version, the random profile id, the encoding to bytes and its transport are not modelled.
- PprofBuilder.BuildProfile: symbol resolution is any function from addresses to locations; gzip and prost bytes are not modelled.
- Heap profiles and CPU timelines as pprof: the same builder calls as the CPU and off-CPU profiles, which are modelled.
- PerfRing.DecodeRegisters: the x86-64 variant; the aarch64 one differs in the bits it names.
- PerfRing.PerfEvent.Drain: positions near 2^64 and the recycling of stack buffers are not modelled.
- FlameLayout.Render: widths are real numbers, and text, colours and escaping are not modelled.
- CpuWindows.CpuWindow.Ingest: unwinding is any function of registers and stack; the sharing of equal stacks in memory is not modelled.
- Import.Run: failures while writing a window and the cutting of thread names at a zero byte are not modelled; late samples include those without addresses, as in the source.
- OutputWriter.Writer.Write: what the files hold, the symbolizer and the export job are not modelled; a failure between two writes is a failure before the second.
- The channels between recorder, writer and exporter: the exporter's check and rewrite is one step beside the writer's.
- File names: a path is its kind and its window's index, so that the formatting of session names and start times is not part of this model.
- Choosing the unwinding mode, container scopes, configuration, the HTML viewer and the HTTP servers: no part of the bookkeeping.
