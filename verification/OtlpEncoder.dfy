/** Translating pprof profiles into one OTLP profiles request: src/otlp/mod.rs, lines 186-353. The
    messages are those of opentelemetry-proto v1.11.0. */
module OtlpEncoder {
  import opened Machine
  import opened PprofProfile
  import opened OtlpDictionary
  import opened OtlpDictionaryBuilder
  import opened Grouping

  datatype OValueType = OValueType(kind: nat, unit: nat)
  datatype OSample = OSample(
    stackIndex: nat, attributeIndices: seq<nat>, linkIndex: nat, values: seq<int>, timestamps: seq<u64>)
  datatype OProfile = OProfile(
    sampleType: OValueType, samples: seq<OSample>, timeUnixNano: nat, durationNano: nat,
    periodType: Option<OValueType>, period: int)
  datatype OScope = OScope(sampleTypeOrder: seq<int>, defaultSampleType: Option<string>, profiles: seq<OProfile>)
  datatype Request = Request(scopes: seq<OScope>, dictionary: Dictionary, profiles: u32)
  datatype Input = Input(source: Profile, timestamps: Option<seq<u64>>)
  datatype Result<T> = Ok(value: T) | TimestampMismatch

  // What a translated profile has to mean.

  datatype SampleKey = SampleKey(stack: nat, attributes: seq<nat>)
  datatype SampleMeaning = SampleMeaning(stack: seq<LocationMeaning>, attributes: seq<AttributeMeaning>)

  function KeyOf(s: OSample): SampleKey {
    SampleKey(s.stackIndex, s.attributeIndices)
  }

  predicate KeyIn(d: Dictionary, k: SampleKey) {
    && 0 < k.stack < |d.stacks| && StackIn(d, d.stacks[k.stack])
    && forall i :: 0 <= i < |k.attributes| ==> 0 < k.attributes[i] < |d.attributes|
  }

  function DecodeKey(d: Dictionary, k: SampleKey): SampleMeaning {
    SampleMeaning(
      if k.stack < |d.stacks| && StackIn(d, d.stacks[k.stack]) then DecodeStack(d, k.stack) else [],
      DecodeAttributes(d, k.attributes))
  }

  /** The stack and labels of a source sample. */
  function SourceMeaning(source: Profile, s: Sample): SampleMeaning {
    SampleMeaning(MeaningOfStack(source, s.locationId), AttributesOf(MeaningOfLabels(source, s.labels)))
  }

  predicate ReadsAs(d: Dictionary, k: SampleKey, m: SampleMeaning) {
    KeyIn(d, k) && DecodeKey(d, k) == m
  }

  /** Without timestamps: sample by sample, one value each. */
  predicate SameSamples(d: Dictionary, samples: seq<OSample>, source: Profile, index: nat) {
    && |samples| == |source.sample|
    && forall i :: 0 <= i < |samples| ==> SameSample(d, samples[i], source, index, i)
  }

  predicate SameSample(d: Dictionary, s: OSample, source: Profile, index: nat, i: nat)
    requires i < |source.sample|
  {
    && ReadsAs(d, KeyOf(s), SourceMeaning(source, source.sample[i]))
    && s == OSample(s.stackIndex, s.attributeIndices, 0, [ValueAt(source.sample[i], index)], [])
  }

  function GroupOf(s: OSample): Group<SampleKey> {
    Group(KeyOf(s), s.values, s.timestamps)
  }

  function Groups(samples: seq<OSample>): (r: seq<Group<SampleKey>>)
    ensures |r| == |samples|
  {
    seq(|samples|, i requires 0 <= i < |samples| => GroupOf(samples[i]))
  }

  function SourceRows(source: Profile, index: nat, times: seq<u64>): (r: seq<Row<SampleMeaning>>)
    requires |times| == |source.sample|
    ensures |r| == |times|
  {
    seq(|times|, i requires 0 <= i < |times| =>
      Row(SourceMeaning(source, source.sample[i]), ValueAt(source.sample[i], index), times[i]))
  }

  /** With timestamps: one sample a distinct stack and labels, its aligned columns holding that
      stack's values and times in source order. */
  predicate SameTimeline(d: Dictionary, samples: seq<OSample>, source: Profile, index: nat, times: seq<u64>)
    requires |times| == |source.sample|
  {
    && (forall j :: 0 <= j < |samples| ==> samples[j].linkIndex == 0 && KeyIn(d, KeyOf(samples[j])))
    && GroupedBy(MapGroups(k => DecodeKey(d, k), Groups(samples)), SourceRows(source, index, times))
  }

  predicate SameType(d: Dictionary, t: OValueType, source: Profile, v: ValueType) {
    && t.kind < |d.strings| && d.strings[t.kind] == StringAt(source.stringTable, v.kind)
    && t.unit < |d.strings| && d.strings[t.unit] == StringAt(source.stringTable, v.unit)
  }

  predicate SameHeader(d: Dictionary, p: OProfile, source: Profile, index: nat)
    requires index < |source.sampleType|
  {
    && SameType(d, p.sampleType, source, source.sampleType[index])
    && (p.periodType.Some? <==> source.periodType.Some?)
    && (p.periodType.Some? ==> SameType(d, p.periodType.value, source, source.periodType.value))
    && p.period == source.period
    && p.timeUnixNano == Max(source.timeNanos, 0) && p.durationNano == Max(source.durationNanos, 0)
  }

  predicate Faithful(d: Dictionary, p: OProfile, input: Input, index: nat)
    requires index < |input.source.sampleType|
    requires input.timestamps.Some? ==> |input.timestamps.value| == |input.source.sample|
  {
    && SameHeader(d, p, input.source, index)
    && match input.timestamps
       case None => SameSamples(d, p.samples, input.source, index)
       case Some(times) => SameTimeline(d, p.samples, input.source, index, times)
  }

  // Meanings survive the growth of the dictionary.

  lemma KeyStable(d: Dictionary, e: Dictionary, k: SampleKey)
    requires WellFormed(d) && Extends(d, e) && KeyIn(d, k)
    ensures KeyIn(e, k) && DecodeKey(e, k) == DecodeKey(d, k)
  {
    hide DecodeStack, DecodeAttributes;
    StackStable(d, e, k.stack);
    AttributesStable(d, e, k.attributes);
  }

  lemma SameSamplesStable(d: Dictionary, e: Dictionary, samples: seq<OSample>, source: Profile, index: nat)
    requires WellFormed(d) && Extends(d, e) && SameSamples(d, samples, source, index)
    ensures SameSamples(e, samples, source, index)
  {
    hide WellFormed, KeyIn, DecodeKey, SourceMeaning;
    forall i | 0 <= i < |samples|
      ensures SameSample(e, samples[i], source, index, i)
    {
      assert SameSample(d, samples[i], source, index, i);
      KeyStable(d, e, KeyOf(samples[i]));
    }
  }

  lemma SameTimelineStable(d: Dictionary, e: Dictionary, samples: seq<OSample>, source: Profile, index: nat,
                           times: seq<u64>)
    requires WellFormed(d) && Extends(d, e)
    requires |times| == |source.sample| && SameTimeline(d, samples, source, index, times)
    ensures SameTimeline(e, samples, source, index, times)
  {
    hide WellFormed, KeyIn, DecodeKey, SourceRows, GroupedBy;
    var f, g := (k: SampleKey) => DecodeKey(d, k), (k: SampleKey) => DecodeKey(e, k);
    var groups := Groups(samples);
    forall j | 0 <= j < |samples|
      ensures KeyIn(e, KeyOf(samples[j])) && MapGroup(g, groups[j]) == MapGroup(f, groups[j])
    {
      KeyStable(d, e, KeyOf(samples[j]));
    }
    assert MapGroups(g, groups) == MapGroups(f, groups);
  }

  /** A faithful profile stays faithful while later sources extend the shared dictionary. */
  lemma FaithfulStable(d: Dictionary, e: Dictionary, p: OProfile, input: Input, index: nat)
    requires WellFormed(d) && Extends(d, e) && index < |input.source.sampleType|
    requires input.timestamps.Some? ==> |input.timestamps.value| == |input.source.sample|
    requires Faithful(d, p, input, index)
    ensures Faithful(e, p, input, index)
  {
    hide WellFormed, SameSamples, SameTimeline;
    match input.timestamps
    case None => SameSamplesStable(d, e, p.samples, input.source, index);
    case Some(times) => SameTimelineStable(d, e, p.samples, input.source, index, times);
  }

  /** Keys that read the same are the same, so grouping by key is grouping by meaning. */
  lemma KeyUnique(d: Dictionary, c: Caches, a: SampleKey, b: SampleKey)
    requires Indexed(d, c) && KeyIn(d, a) && KeyIn(d, b) && DecodeKey(d, a) == DecodeKey(d, b)
    ensures a == b
  {
    hide Indexed, DecodeStack, DecodeAttributes;
    StackUnique(d, c, a.stack, b.stack);
    AttributesUnique(d, c, a.attributes, b.attributes);
  }

  /** A timeline holds exactly the source's samples, each with its own value and time. */
  lemma TimelineConserves(d: Dictionary, samples: seq<OSample>, source: Profile, index: nat, times: seq<u64>)
    requires |times| == |source.sample| && SameTimeline(d, samples, source, index, times)
    ensures multiset(AllRows(MapGroups(k => DecodeKey(d, k), Groups(samples))))
         == multiset(SourceRows(source, index, times))
  {
    hide DecodeKey, SourceRows, AllRows;
    GroupingConserves(MapGroups(k => DecodeKey(d, k), Groups(samples)), SourceRows(source, index, times));
  }

  // The translation.

  function LabelsUpTo(source: Profile, labels: seq<Label>, n: nat): seq<AttributeMeaning>
    requires n <= |labels|
  {
    AttributesOf(MeaningOfLabels(source, labels[..n]))
  }

  lemma LabelsPush(source: Profile, labels: seq<Label>, n: nat)
    requires n < |labels|
    ensures LabelsUpTo(source, labels, n + 1)
         == LabelsUpTo(source, labels, n)
            + (var m := MeaningOfLabel(source, labels[n]); if m.Some? then [AttributeOf(m.value)] else [])
  {
    hide MeaningOfLabel;
    assert labels[..n + 1][..n] == labels[..n];
  }

  method InternLabels(dictionary: DictionaryBuilder, source: Profile, labels: seq<Label>) returns (r: seq<nat>)
    requires dictionary.Valid()
    modifies dictionary
    ensures dictionary.Valid() && Extends(old(dictionary.tables), dictionary.tables)
    ensures forall i :: 0 <= i < |r| ==> 0 < r[i] < |dictionary.tables.attributes|
    ensures DecodeAttributes(dictionary.tables, r) == AttributesOf(MeaningOfLabels(source, labels))
  {
    hide WellFormed, Indexed, LabelsUpTo, MeaningOfLabel, DecodeAttribute;
    r := [];
    assert LabelsUpTo(source, labels, 0) == [] by {
      NoLabels(source, labels);
    }
    for n := 0 to |labels|
      invariant dictionary.Valid() && Extends(old(dictionary.tables), dictionary.tables)
      invariant forall i :: 0 <= i < |r| ==> 0 < r[i] < |dictionary.tables.attributes|
      invariant DecodeAttributes(dictionary.tables, r) == LabelsUpTo(source, labels, n)
    {
      ghost var before := dictionary.tables;
      IndexedFacts(before, dictionary.index);
      var i := dictionary.InternPprofLabel(source, labels[n]);
      AttributesStable(before, dictionary.tables, r);
      LabelsPush(source, labels, n);
      if i.Some? {
        r := r + [i.value];
      }
    }
    AllLabels(source, labels);
  }

  lemma NoLabels(source: Profile, labels: seq<Label>)
    ensures LabelsUpTo(source, labels, 0) == []
  {
  }

  lemma AllLabels(source: Profile, labels: seq<Label>)
    ensures LabelsUpTo(source, labels, |labels|) == AttributesOf(MeaningOfLabels(source, labels))
  {
    assert labels[..|labels|] == labels;
  }

  /** The OTLP stack of every source sample, in order. */
  predicate Stacks(d: Dictionary, source: Profile, indices: seq<nat>) {
    && |indices| == |source.sample|
    && forall i :: 0 <= i < |indices| ==> IsStackOf(d, indices[i], source, source.sample[i].locationId)
  }

  predicate IsStackOf(d: Dictionary, index: nat, source: Profile, ids: seq<nat>) {
    0 < index < |d.stacks| && StackIn(d, d.stacks[index]) && DecodeStack(d, index) == MeaningOfStack(source, ids)
  }

  lemma StackOfStable(d: Dictionary, e: Dictionary, index: nat, source: Profile, ids: seq<nat>)
    requires WellFormed(d) && Extends(d, e) && IsStackOf(d, index, source, ids)
    ensures IsStackOf(e, index, source, ids)
  {
    hide DecodeStack, MeaningOfStack;
    StackStable(d, e, index);
  }

  lemma StacksStable(d: Dictionary, e: Dictionary, source: Profile, indices: seq<nat>)
    requires WellFormed(d) && Extends(d, e) && Stacks(d, source, indices)
    ensures Stacks(e, source, indices)
  {
    hide WellFormed, IsStackOf;
    forall i | 0 <= i < |indices|
      ensures IsStackOf(e, indices[i], source, source.sample[i].locationId)
    {
      StackOfStable(d, e, indices[i], source, source.sample[i].locationId);
    }
  }

  /** The body of the source's loop for one sample: labels interned, the key read. */
  method InternSample(dictionary: DictionaryBuilder, source: Profile, stack: nat, i: nat) returns (key: SampleKey)
    requires dictionary.Valid() && i < |source.sample|
    requires IsStackOf(dictionary.tables, stack, source, source.sample[i].locationId)
    modifies dictionary
    ensures dictionary.Valid() && Extends(old(dictionary.tables), dictionary.tables)
    ensures key.stack == stack && ReadsAs(dictionary.tables, key, SourceMeaning(source, source.sample[i]))
  {
    hide WellFormed, Indexed, DecodeStack, MeaningOfStack, DecodeAttributes;
    IndexedFacts(dictionary.tables, dictionary.index);
    var attributes := InternLabels(dictionary, source, source.sample[i].labels);
    StackOfStable(old(dictionary.tables), dictionary.tables, stack, source, source.sample[i].locationId);
    key := SampleKey(stack, attributes);
  }

  method ConvertSamples(source: Profile, index: nat, stacks: seq<nat>, dictionary: DictionaryBuilder)
    returns (samples: seq<OSample>)
    requires dictionary.Valid() && Stacks(dictionary.tables, source, stacks)
    modifies dictionary
    ensures dictionary.Valid() && Extends(old(dictionary.tables), dictionary.tables)
    ensures SameSamples(dictionary.tables, samples, source, index)
  {
    hide WellFormed, Indexed, KeyIn, DecodeKey, IsStackOf, SourceMeaning;
    samples := [];
    for i := 0 to |source.sample|
      invariant dictionary.Valid() && Extends(old(dictionary.tables), dictionary.tables)
      invariant Stacks(dictionary.tables, source, stacks)
      invariant |samples| == i && forall k :: 0 <= k < i ==> SameSample(dictionary.tables, samples[k], source, index, k)
    {
      ghost var before := dictionary.tables;
      IndexedFacts(before, dictionary.index);
      var key := InternSample(dictionary, source, stacks[i], i);
      StacksStable(before, dictionary.tables, source, stacks);
      forall k | 0 <= k < i
        ensures SameSample(dictionary.tables, samples[k], source, index, k)
      {
        assert SameSample(before, samples[k], source, index, k);
        KeyStable(before, dictionary.tables, KeyOf(samples[k]));
      }
      var sample := OSample(key.stack, key.attributes, 0, [ValueAt(source.sample[i], index)], []);
      assert SameSample(dictionary.tables, sample, source, index, i);
      samples := samples + [sample];
    }
  }

  predicate RowsRead(d: Dictionary, rows: seq<Row<SampleKey>>, source: Profile, index: nat, times: seq<u64>)
    requires |times| == |source.sample|
  {
    && |rows| <= |times|
    && forall i :: 0 <= i < |rows| ==>
      ReadsAs(d, rows[i].key, SourceMeaning(source, source.sample[i]))
      && rows[i].value == ValueAt(source.sample[i], index) && rows[i].time == times[i]
  }

  lemma RowsReadStable(d: Dictionary, e: Dictionary, rows: seq<Row<SampleKey>>, source: Profile, index: nat,
                       times: seq<u64>)
    requires WellFormed(d) && Extends(d, e)
    requires |times| == |source.sample| && RowsRead(d, rows, source, index, times)
    ensures RowsRead(e, rows, source, index, times)
  {
    hide WellFormed, KeyIn, DecodeKey, SourceMeaning;
    forall i | 0 <= i < |rows|
      ensures ReadsAs(e, rows[i].key, SourceMeaning(source, source.sample[i]))
    {
      KeyStable(d, e, rows[i].key);
    }
  }

  /** Grouping the rows by key gives the timeline the source means. */
  lemma TimelineRead(d: Dictionary, c: Caches, samples: seq<OSample>, rows: seq<Row<SampleKey>>, source: Profile,
                     index: nat, times: seq<u64>)
    requires Indexed(d, c) && |rows| == |times| == |source.sample|
    requires RowsRead(d, rows, source, index, times) && GroupedBy(Groups(samples), rows)
    requires forall j :: 0 <= j < |samples| ==> samples[j].linkIndex == 0 && KeyIn(d, KeyOf(samples[j]))
    ensures SameTimeline(d, samples, source, index, times)
  {
    hide Indexed, KeyIn, DecodeKey, SourceMeaning, GroupedBy;
    var f := (k: SampleKey) => DecodeKey(d, k);
    var groups := Groups(samples);
    forall j, k | 0 <= j < |groups| && 0 <= k < |groups| && f(groups[j].key) == f(groups[k].key)
      ensures groups[j].key == groups[k].key
    {
      KeyUnique(d, c, groups[j].key, groups[k].key);
    }
    GroupedMeaning(f, groups, rows);
    assert MapRows(f, rows) == SourceRows(source, index, times);
  }

  method ConvertTimeline(source: Profile, index: nat, stacks: seq<nat>, times: seq<u64>, dictionary: DictionaryBuilder)
    returns (samples: seq<OSample>)
    requires dictionary.Valid() && Stacks(dictionary.tables, source, stacks) && |times| == |source.sample|
    modifies dictionary
    ensures dictionary.Valid() && Extends(old(dictionary.tables), dictionary.tables)
    ensures SameTimeline(dictionary.tables, samples, source, index, times)
  {
    hide WellFormed, Indexed, KeyIn, DecodeKey, IsStackOf, SourceMeaning, GroupedBy;
    samples := [];
    var grouped: map<SampleKey, nat> := map[];
    ghost var rows: seq<Row<SampleKey>> := [];
    NoGroups<SampleKey>();
    assert Groups(samples) == [];
    for i := 0 to |source.sample|
      invariant dictionary.Valid() && Extends(old(dictionary.tables), dictionary.tables)
      invariant Stacks(dictionary.tables, source, stacks)
      invariant |rows| == i && RowsRead(dictionary.tables, rows, source, index, times)
      invariant forall j :: 0 <= j < |samples| ==> samples[j].linkIndex == 0 && KeyIn(dictionary.tables, KeyOf(samples[j]))
      invariant GroupedBy(Groups(samples), rows) && IndexedBy(Groups(samples), grouped)
    {
      ghost var before := dictionary.tables;
      IndexedFacts(before, dictionary.index);
      var key := InternSample(dictionary, source, stacks[i], i);
      StacksStable(before, dictionary.tables, source, stacks);
      RowsReadStable(before, dictionary.tables, rows, source, index, times);
      forall j | 0 <= j < |samples|
        ensures KeyIn(dictionary.tables, KeyOf(samples[j]))
      {
        KeyStable(before, dictionary.tables, KeyOf(samples[j]));
      }
      var value := ValueAt(source.sample[i], index);
      ghost var row := Row(key, value, times[i]);
      samples, grouped := AddRow(samples, grouped, key, value, times[i], rows);
      rows := rows + [row];
    }
    TimelineRead(dictionary.tables, dictionary.index, samples, rows, source, index, times);
  }

  lemma NoGroups<K>()
    ensures GroupedBy<K>([], []) && IndexedBy<K>([], map[])
  {
  }

  /** A value and time join the sample with their key, or open it. */
  method AddRow(samples: seq<OSample>, grouped: map<SampleKey, nat>, key: SampleKey, value: int, time: u64,
                ghost rows: seq<Row<SampleKey>>)
    returns (r: seq<OSample>, g: map<SampleKey, nat>)
    requires GroupedBy(Groups(samples), rows) && IndexedBy(Groups(samples), grouped)
    requires forall j :: 0 <= j < |samples| ==> samples[j].linkIndex == 0
    ensures GroupedBy(Groups(r), rows + [Row(key, value, time)]) && IndexedBy(Groups(r), g)
    ensures forall j :: 0 <= j < |r| ==>
      r[j].linkIndex == 0 && (KeyOf(r[j]) == key || exists k :: 0 <= k < |samples| && KeyOf(r[j]) == KeyOf(samples[k]))
  {
    hide GroupedBy;
    if key in grouped {
      var n := grouped[key];
      var sample := samples[n].(values := samples[n].values + [value], timestamps := samples[n].timestamps + [time]);
      r, g := samples[n := sample], grouped;
      JoinGroup(Groups(samples), rows, Row(key, value, time), n);
      assert Groups(r) == Groups(samples)[n := Group(key, samples[n].values + [value], samples[n].timestamps + [time])];
      assert forall j :: 0 <= j < |r| ==> KeyOf(r[j]) == KeyOf(samples[j]);
    } else {
      g := grouped[key := |samples|];
      r := samples + [OSample(key.stack, key.attributes, 0, [value], [time])];
      OpenGroup(Groups(samples), rows, Row(key, value, time));
      assert Groups(r) == Groups(samples) + [Group(key, [value], [time])];
    }
  }

  method InternType(dictionary: DictionaryBuilder, source: Profile, v: ValueType) returns (t: OValueType)
    requires dictionary.Valid()
    modifies dictionary
    ensures dictionary.Valid() && Extends(old(dictionary.tables), dictionary.tables)
    ensures SameType(dictionary.tables, t, source, v)
    ensures dictionary.tables == old(dictionary.tables).(strings := dictionary.tables.strings)
  {
    hide Indexed;
    var kind := dictionary.InternString(StringAt(source.stringTable, v.kind));
    var unit := dictionary.InternString(StringAt(source.stringTable, v.unit));
    t := OValueType(kind, unit);
  }

  /** `u64::try_from(n).unwrap_or_default()` on an i64. */
  function NonNegative(n: int): (r: nat)
    ensures r == Max(n, 0)
  {
    if n < 0 then 0 else n
  }

  /** `convert_profile`; `None` is its error on an index that names no sample type. */
  method ConvertProfile(input: Input, index: nat, stacks: seq<nat>, dictionary: DictionaryBuilder)
    returns (p: Option<OProfile>)
    requires dictionary.Valid() && Stacks(dictionary.tables, input.source, stacks)
    requires input.timestamps.Some? ==> |input.timestamps.value| == |input.source.sample|
    modifies dictionary
    ensures dictionary.Valid() && Extends(old(dictionary.tables), dictionary.tables)
    ensures p.Some? <==> index < |input.source.sampleType|
    ensures p.Some? ==> Faithful(dictionary.tables, p.value, input, index)
  {
    hide WellFormed, Indexed, Stacks, SameSamples, SameTimeline;
    var source := input.source;
    if index >= |source.sampleType| {
      return None;
    }
    IndexedFacts(dictionary.tables, dictionary.index);
    ghost var start := dictionary.tables;
    var sampleType := InternType(dictionary, source, source.sampleType[index]);
    var periodType: Option<OValueType> := None;
    if source.periodType.Some? {
      var t := InternType(dictionary, source, source.periodType.value);
      periodType := Some(t);
    }
    IndexedFacts(dictionary.tables, dictionary.index);
    StacksStable(start, dictionary.tables, source, stacks);
    var samples: seq<OSample>;
    match input.timestamps {
      case None => samples := ConvertSamples(source, index, stacks, dictionary);
      case Some(times) => samples := ConvertTimeline(source, index, stacks, times, dictionary);
    }
    p := Some(OProfile(sampleType, samples, NonNegative(source.timeNanos), NonNegative(source.durationNanos), periodType, source.period));
  }

  /** The locations of one stack; ids that name no location are skipped. */
  method InternLocations(dictionary: DictionaryBuilder, source: Profile, ids: seq<nat>) returns (r: seq<nat>)
    requires dictionary.Valid()
    modifies dictionary
    ensures dictionary.Valid() && Extends(old(dictionary.tables), dictionary.tables)
    ensures StackIn(dictionary.tables, r) && DecodeLocations(dictionary.tables, r) == MeaningOfStack(source, ids)
  {
    hide WellFormed, Indexed, DecodeLocation, FindLocation, MeaningOfLocation;
    r := [];
    for n := 0 to |ids|
      invariant dictionary.Valid() && Extends(old(dictionary.tables), dictionary.tables)
      invariant StackIn(dictionary.tables, r)
      invariant DecodeLocations(dictionary.tables, r) == MeaningOfStack(source, ids[..n])
    {
      ghost var before := dictionary.tables;
      IndexedFacts(before, dictionary.index);
      assert ids[..n + 1][..n] == ids[..n];
      var l := FindLocation(source.location, ids[n]);
      if l.Some? {
        var i := dictionary.InternLocation(source, l.value);
        LocationsStable(before, dictionary.tables, r);
        assert DecodeLocations(dictionary.tables, r + [i]) == DecodeLocations(dictionary.tables, r) + [DecodeLocation(dictionary.tables, i)];
        r := r + [i];
      }
    }
    assert ids[..|ids|] == ids;
  }

  method InternStacks(dictionary: DictionaryBuilder, source: Profile) returns (r: seq<nat>)
    requires dictionary.Valid()
    modifies dictionary
    ensures dictionary.Valid() && Extends(old(dictionary.tables), dictionary.tables)
    ensures Stacks(dictionary.tables, source, r)
  {
    hide WellFormed, Indexed, DecodeLocations, MeaningOfStack;
    r := [];
    for n := 0 to |source.sample|
      invariant dictionary.Valid() && Extends(old(dictionary.tables), dictionary.tables)
      invariant |r| == n && forall i :: 0 <= i < n ==> IsStackOf(dictionary.tables, r[i], source, source.sample[i].locationId)
    {
      ghost var before := dictionary.tables;
      IndexedFacts(before, dictionary.index);
      var locations := InternLocations(dictionary, source, source.sample[n].locationId);
      ghost var located := dictionary.tables;
      var stack := dictionary.InternStack(locations);
      ExtendsTrans(before, located, dictionary.tables);
      forall i | 0 <= i < n
        ensures IsStackOf(dictionary.tables, r[i], source, source.sample[i].locationId)
      {
        StackOfStable(before, dictionary.tables, r[i], source, source.sample[i].locationId);
      }
      r := r + [stack];
    }
  }

  predicate Matched(input: Input) {
    input.timestamps.Some? ==> |input.timestamps.value| == |input.source.sample|
  }

  /** One profile a sample type, in order. */
  predicate SameScope(d: Dictionary, scope: OScope, input: Input) {
    && Matched(input)
    && scope.sampleTypeOrder == seq(|input.source.sampleType|, i => i)
    && scope.defaultSampleType == (var name := StringAt(input.source.stringTable, input.source.defaultSampleType);
                                   if name == "" then None else Some(name))
    && |scope.profiles| == |input.source.sampleType|
    && forall i :: 0 <= i < |scope.profiles| ==> Faithful(d, scope.profiles[i], input, i)
  }

  lemma SameScopeStable(d: Dictionary, e: Dictionary, scope: OScope, input: Input)
    requires WellFormed(d) && Extends(d, e) && SameScope(d, scope, input)
    ensures SameScope(e, scope, input)
  {
    hide WellFormed, Faithful;
    forall i | 0 <= i < |scope.profiles|
      ensures Faithful(e, scope.profiles[i], input, i)
    {
      FaithfulStable(d, e, scope.profiles[i], input, i);
    }
  }

  /** The profiles of one source, one a sample type. */
  method ConvertSource(input: Input, dictionary: DictionaryBuilder, count: u32) returns (scope: OScope, total: u32)
    requires dictionary.Valid() && Matched(input)
    modifies dictionary
    ensures dictionary.Valid() && Extends(old(dictionary.tables), dictionary.tables)
    ensures SameScope(dictionary.tables, scope, input)
    ensures total == Min(count + |scope.profiles|, U32_MAX)
  {
    hide WellFormed, Indexed, Stacks, Faithful;
    var source := input.source;
    var stacks := InternStacks(dictionary, source);
    var profiles := [];
    total := count;
    for i := 0 to |source.sampleType|
      invariant dictionary.Valid() && Extends(old(dictionary.tables), dictionary.tables)
      invariant Stacks(dictionary.tables, source, stacks)
      invariant |profiles| == i && forall k :: 0 <= k < i ==> Faithful(dictionary.tables, profiles[k], input, k)
      invariant total == Min(count + i, U32_MAX)
    {
      ghost var before := dictionary.tables;
      IndexedFacts(before, dictionary.index);
      var p := ConvertProfile(input, i, stacks, dictionary);
      StacksStable(before, dictionary.tables, source, stacks);
      forall k | 0 <= k < i
        ensures Faithful(dictionary.tables, profiles[k], input, k)
      {
        FaithfulStable(before, dictionary.tables, profiles[k], input, k);
      }
      profiles := profiles + [p.value];
      total := Min(total + 1, U32_MAX);
    }
    var name := StringAt(source.stringTable, source.defaultSampleType);
    scope := OScope(seq(|source.sampleType|, i => i), if name == "" then None else Some(name), profiles);
  }

  function Inputs(sources: seq<Profile>, timeline: Option<(Profile, seq<u64>)>): seq<Input> {
    seq(|sources|, i requires 0 <= i < |sources| => Input(sources[i], None))
    + (if timeline.Some? then [Input(timeline.value.0, Some(timeline.value.1))] else [])
  }

  function Profiles(inputs: seq<Input>): nat {
    if inputs == [] then 0 else Profiles(inputs[..|inputs| - 1]) + |inputs[|inputs| - 1].source.sampleType|
  }

  /** `encode_profiles`: every profile of every source reads back from the one shared dictionary;
      the request fails exactly when the timeline's timestamps do not match its samples. */
  method EncodeProfiles(sources: seq<Profile>, timeline: Option<(Profile, seq<u64>)>, hashes: (nat,
                        nat) -> Option<string>)
    returns (r: Result<Request>)
    ensures r.TimestampMismatch? <==> timeline.Some? && |timeline.value.1| != |timeline.value.0.sample|
    ensures r.Ok? ==>
      && WellFormed(r.value.dictionary)
      && |r.value.scopes| == |Inputs(sources, timeline)|
      && (forall i :: 0 <= i < |r.value.scopes| ==> SameScope(r.value.dictionary, r.value.scopes[i], Inputs(sources, timeline)[i]))
      && r.value.profiles == Min(Profiles(Inputs(sources, timeline)), U32_MAX)
  {
    hide WellFormed, Indexed, SameScope;
    var dictionary := new DictionaryBuilder(hashes);
    var inputs := Inputs(sources, timeline);
    var scopes := [];
    var count: u32 := 0;
    assert inputs[..0] == [];
    for i := 0 to |inputs|
      invariant fresh(dictionary) && dictionary.Valid()
      invariant |scopes| == i && forall k :: 0 <= k < i ==> SameScope(dictionary.tables, scopes[k], inputs[k])
      invariant forall k :: 0 <= k < i ==> Matched(inputs[k])
      invariant count == Min(Profiles(inputs[..i]), U32_MAX)
    {
      if inputs[i].timestamps.Some? && |inputs[i].timestamps.value| != |inputs[i].source.sample| {
        return TimestampMismatch;
      }
      ghost var before := dictionary.tables;
      IndexedFacts(before, dictionary.index);
      var scope: OScope;
      scope, count := ConvertSource(inputs[i], dictionary, count);
      forall k | 0 <= k < i
        ensures SameScope(dictionary.tables, scopes[k], inputs[k])
      {
        SameScopeStable(before, dictionary.tables, scopes[k], inputs[k]);
      }
      ScopeSize(dictionary.tables, scope, inputs[i]);
      assert inputs[..i + 1][..i] == inputs[..i];
      scopes := scopes + [scope];
    }
    IndexedFacts(dictionary.tables, dictionary.index);
    assert inputs[..|inputs|] == inputs;
    assert timeline.Some? ==> Matched(inputs[|sources|]);
    r := Ok(Request(scopes, dictionary.tables, count));
  }

  lemma ScopeSize(d: Dictionary, scope: OScope, input: Input)
    requires SameScope(d, scope, input)
    ensures |scope.profiles| == |input.source.sampleType|
  {
  }
}
