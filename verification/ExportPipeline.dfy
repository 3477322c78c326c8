/** From aggregated windows to the exported request: what the writers of CPU and off-CPU profiles build
    (src/pprof.rs, lines 150-206 and 250-305) and `encode_profiles` translates (src/otlp/mod.rs, lines
    186-353), read back. */
module ExportPipeline {
  import opened Machine
  import opened ProfileTypes
  import opened PprofProfile
  import opened OtlpDictionary
  import opened OtlpEncoder
  import PprofBuilder

  /** An aggregated window and how it is to be written. */
  datatype Window = Window(
    samples: map<AttributedStack, seq<int>>, resolver: PprofBuilder.Resolver, pairs: seq<(string, string)>,
    header: PprofBuilder.Header)

  /** What an entry of the aggregated window means: its resolved stack, the target's labels and the
      thread's. */
  function EntryMeaning(key: AttributedStack, w: Window): SampleMeaning {
    SampleMeaning(
      PprofBuilder.IntendedStack(w.resolver, key.stack),
      AttributesOf(
        PprofBuilder.IntendedPairs(w.pairs) + PprofBuilder.ThreadMeaning(key.pid, key.tid, key.threadName)))
  }

  function Column(values: seq<int>, index: nat): int {
    if index < |values| then values[index] else 0
  }

  predicate Names(d: Dictionary, t: OValueType, kind: (string, string)) {
    t.kind < |d.strings| && d.strings[t.kind] == kind.0 && t.unit < |d.strings| && d.strings[t.unit] == kind.1
  }

  /** Every entry of the window is one sample, in order, reading as exactly that entry's stack and
      labels, with its value in this column, and there is no other sample. */
  ghost predicate KeepsEntries(d: Dictionary, o: OProfile, w: Window, order: seq<AttributedStack>, index: nat) {
    && |o.samples| == |order|
    && forall i :: 0 <= i < |order| ==>
      && order[i] in w.samples
      && ReadsAs(d, KeyOf(o.samples[i]), EntryMeaning(order[i], w))
      && o.samples[i].values == [Column(w.samples[order[i]], index)]
  }

  ghost predicate KeepsHeader(d: Dictionary, o: OProfile, h: PprofBuilder.Header, index: nat)
    requires index < |h.kinds|
  {
    && Names(d, o.sampleType, h.kinds[index])
    && (o.periodType.Some? <==> h.periodType.Some?)
    && (o.periodType.Some? ==> Names(d, o.periodType.value, h.periodType.value))
    && o.period == h.period
    && o.timeUnixNano == Max(h.timeNanos, 0) && o.durationNano == Max(h.durationNanos, 0)
  }

  /** A window's scope: one profile a column, each with the window's header and its entries, once each. */
  ghost predicate Exports(d: Dictionary, scope: OScope, w: Window, order: seq<AttributedStack>) {
    && PprofBuilder.NoRepeats(order) && (set k | k in order) == w.samples.Keys
    && |scope.profiles| == |w.header.kinds|
    && scope.defaultSampleType == (if w.header.defaultKind == "" then None else Some(w.header.defaultKind))
    && forall index :: 0 <= index < |scope.profiles| ==>
         KeepsHeader(d, scope.profiles[index], w.header, index) && KeepsEntries(d, scope.profiles[index], w, order, index)
  }

  lemma EntriesKept(p: Profile, w: Window, order: seq<AttributedStack>, d: Dictionary, o: OProfile, index: nat)
    requires PprofBuilder.Written(p, w.resolver, w.pairs, order, w.samples)
    requires index < |p.sampleType| && Faithful(d, o, Input(p, None), index)
    ensures KeepsEntries(d, o, w, order, index)
  {
    hide KeyIn, DecodeKey, SameHeader, MeaningOfStack, MeaningOfLabels,
         PprofBuilder.IntendedStack, PprofBuilder.IntendedPairs, PprofBuilder.ThreadMeaning, PprofBuilder.SampleScoped;
    forall i | 0 <= i < |order|
      ensures order[i] in w.samples
      ensures ReadsAs(d, KeyOf(o.samples[i]), EntryMeaning(order[i], w))
      ensures o.samples[i].values == [Column(w.samples[order[i]], index)]
    {
      assert PprofBuilder.SampleIs(p, i, w.resolver, w.pairs, order[i], w.samples[order[i]]);
      assert SameSample(d, o.samples[i], p, index, i);
    }
  }

  lemma HeaderKept(p: Profile, h: PprofBuilder.Header, d: Dictionary, o: OProfile, index: nat)
    requires PprofBuilder.HeaderOk(p, h) && index < |p.sampleType| && Faithful(d, o, Input(p, None), index)
    ensures KeepsHeader(d, o, h, index)
  {
    hide SameSamples;
    assert PprofBuilder.TypeOk(p, p.sampleType[index], h.kinds[index]);
  }

  /** What the builder wrote and the encoder translated faithfully is the window. */
  lemma WindowKept(p: Profile, w: Window, order: seq<AttributedStack>, d: Dictionary, scope: OScope)
    requires PprofBuilder.Written(p, w.resolver, w.pairs, order, w.samples) && PprofBuilder.HeaderOk(p, w.header)
    requires PprofBuilder.NoRepeats(order) && (set k | k in order) == w.samples.Keys
    requires SameScope(d, scope, Input(p, None))
    ensures Exports(d, scope, w, order)
  {
    hide Faithful, KeepsHeader, KeepsEntries, PprofBuilder.Written, PprofBuilder.NoRepeats;
    forall index | 0 <= index < |scope.profiles|
      ensures KeepsHeader(d, scope.profiles[index], w.header, index)
      ensures KeepsEntries(d, scope.profiles[index], w, order, index)
    {
      assert Faithful(d, scope.profiles[index], Input(p, None), index);
      HeaderKept(p, w.header, d, scope.profiles[index], index);
      EntriesKept(p, w, order, d, scope.profiles[index], index);
    }
  }

  /** The entry an exported sample is read as: the addresses of its stack and the thread among its labels. */
  function EntryOf(d: Dictionary, s: OSample): Option<AttributedStack>
    requires KeyIn(d, KeyOf(s))
  {
    var m := DecodeKey(d, KeyOf(s));
    PprofBuilder.DecodeKey(m.stack, LabelsOf(m.attributes))
  }

  /** Reading an exported sample gives back its entry of the window, stack, process, thread and name,
      exactly when the thread's name is not the empty string. */
  lemma ExportRead(d: Dictionary, scope: OScope, w: Window, order: seq<AttributedStack>, index: nat, i: nat)
    requires Exports(d, scope, w, order) && index < |scope.profiles| && i < |order|
    ensures i < |scope.profiles[index].samples| && KeyIn(d, KeyOf(scope.profiles[index].samples[i]))
    ensures EntryOf(d, scope.profiles[index].samples[i]) == Some(order[i]) <==> order[i].threadName != Some("")
  {
    assert KeepsEntries(d, scope.profiles[index], w, order, index);
    hide Exports, KeepsEntries, KeyIn, DecodeKey;
    LabelsRead(PprofBuilder.IntendedPairs(w.pairs)
               + PprofBuilder.ThreadMeaning(order[i].pid, order[i].tid, order[i].threadName));
    PprofBuilder.EntryRead(w.resolver, w.pairs, order[i]);
  }

  /** End to end: every window is built as a profile, and all of them are encoded over one dictionary.
      Each scope reads back as exactly its window. */
  method Export(windows: seq<Window>, hashes: (nat, nat) -> Option<string>)
    returns (request: Request, ghost orders: seq<seq<AttributedStack>>)
    ensures |request.scopes| == |orders| == |windows|
    ensures WellFormed(request.dictionary)
    ensures forall k :: 0 <= k < |windows| ==> Exports(request.dictionary, request.scopes[k], windows[k], orders[k])
  {
    hide OtlpDictionary.WellFormed, PprofBuilder.WellFormed, SameScope, Exports, PprofBuilder.Written, PprofBuilder.HeaderOk,
         PprofBuilder.NoRepeats, PprofBuilder.MappingsOk, PprofBuilder.FlagsOk, PprofBuilder.DistinctStrings;
    var profiles: seq<Profile> := [];
    orders := [];
    for k := 0 to |windows|
      invariant |profiles| == |orders| == k
      invariant forall j :: 0 <= j < k ==>
        && PprofBuilder.Written(profiles[j], windows[j].resolver, windows[j].pairs, orders[j], windows[j].samples)
        && PprofBuilder.HeaderOk(profiles[j], windows[j].header)
        && PprofBuilder.NoRepeats(orders[j]) && (set s | s in orders[j]) == windows[j].samples.Keys
    {
      var profile, order, _ := PprofBuilder.BuildProfile(windows[k].samples, windows[k].resolver, windows[k].pairs, windows[k].header);
      profiles, orders := profiles + [profile], orders + [order];
    }
    var r := EncodeProfiles(profiles, None, hashes);
    request := r.value;
    forall k | 0 <= k < |windows|
      ensures Exports(request.dictionary, request.scopes[k], windows[k], orders[k])
    {
      assert SameScope(request.dictionary, request.scopes[k], Inputs(profiles, None)[k]);
      WindowKept(profiles[k], windows[k], orders[k], request.dictionary, request.scopes[k]);
    }
  }
}
