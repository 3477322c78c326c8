/** Building a pprof profile by interning: src/pprof.rs, lines 393-645, and the sample loops of
    its `write_*_profile` functions. */
module PprofBuilder {
  import opened Machine
  import opened PprofProfile
  import opened ProfileTypes
  import opened Subsequences

  // What the symbolizer answers: src/symbol.rs, lines 26-55.

  datatype MappingInfo = MappingInfo(
    start: nat, limit: nat, offset: nat, relativeAddressAtStart: nat, filename: string, buildId: Option<string>)
  datatype SymbolizedLine = SymbolizedLine(function_: string, systemName: string, filename: Option<string>, line: int)
  datatype ResolvedLocation = ResolvedLocation(mapping: Option<MappingInfo>, lines: seq<SymbolizedLine>)

  /** `Symbolizer::resolve`, or no symbolizer at all. */
  type Resolver = Option<u64 -> ResolvedLocation>

  function OrEmpty(s: Option<string>): string {
    if s.Some? then s.value else ""
  }

  type FunctionKey = (string, string, Option<string>)

  function KeyOf(l: SymbolizedLine): FunctionKey {
    (l.function_, l.systemName, l.filename)
  }

  function MeaningOfKey(k: FunctionKey): FunctionMeaning {
    FunctionMeaning(k.0, k.1, OrEmpty(k.2), 0)
  }

  function MeaningOfInfo(m: MappingInfo): MappingMeaning {
    MappingMeaning(m.start, m.limit, m.offset, m.filename, OrEmpty(m.buildId))
  }

  function IntendedLine(l: SymbolizedLine): LineMeaning {
    LineMeaning(Some(MeaningOfKey(KeyOf(l))), l.line, 0)
  }

  function IntendedLines(ls: seq<SymbolizedLine>): (r: seq<LineMeaning>)
    ensures |r| == |ls|
  {
    seq(|ls|, i requires 0 <= i < |ls| => IntendedLine(ls[i]))
  }

  /** What a location interned for an address has to mean. */
  function IntendedLocation(resolver: Resolver, address: u64): LocationMeaning {
    if resolver.None? then LocationMeaning(address, None, [])
    else
      var r := resolver.value(address);
      LocationMeaning(address, if r.mapping.Some? then Some(MeaningOfInfo(r.mapping.value)) else None,
                      IntendedLines(r.lines))
  }

  function IntendedStack(resolver: Resolver, stack: seq<u64>): (r: seq<LocationMeaning>)
    ensures |r| == |stack|
  {
    seq(|stack|, i requires 0 <= i < |stack| => IntendedLocation(resolver, stack[i]))
  }

  function Addresses(stack: seq<u64>): set<u64> {
    set a | a in stack
  }

  // Growing profiles.

  predicate SameMapping(a: Mapping, b: Mapping) {
    && a.id == b.id && a.memoryStart == b.memoryStart && a.memoryLimit == b.memoryLimit
    && a.fileOffset == b.fileOffset && a.filename == b.filename && a.buildId == b.buildId
  }

  /** Tables only grow; entries keep everything but a mapping's flags. */
  predicate Extends(p: Profile, q: Profile) {
    && p.sampleType == q.sampleType && p.periodType == q.periodType && p.period == q.period
    && p.defaultSampleType == q.defaultSampleType
    && p.timeNanos == q.timeNanos && p.durationNanos == q.durationNanos
    && p.stringTable <= q.stringTable
    && p.function_ <= q.function_
    && p.location <= q.location
    && |p.mapping| <= |q.mapping|
    && forall i :: 0 <= i < |p.mapping| ==> SameMapping(p.mapping[i], q.mapping[i])
  }

  /** Ids are dense from 1 in every table. */
  predicate Dense(p: Profile) {
    && (forall i :: 0 <= i < |p.function_| ==> p.function_[i].id == i + 1)
    && (forall i :: 0 <= i < |p.mapping| ==> p.mapping[i].id == i + 1)
    && (forall i :: 0 <= i < |p.location| ==> p.location[i].id == i + 1)
  }

  predicate InTable(p: Profile, index: int) {
    0 <= index < |p.stringTable|
  }

  predicate LineScoped(p: Profile, l: Line) {
    1 <= l.functionId <= |p.function_|
  }

  predicate LocationScoped(p: Profile, l: Location) {
    l.mappingId <= |p.mapping| && forall i :: 0 <= i < |l.line| ==> LineScoped(p, l.line[i])
  }

  /** No index or id points outside its table. */
  predicate Scoped(p: Profile) {
    && (forall i :: 0 <= i < |p.function_| ==>
          && InTable(p, p.function_[i].name) && InTable(p, p.function_[i].systemName)
          && InTable(p, p.function_[i].filename))
    && (forall i :: 0 <= i < |p.mapping| ==> InTable(p, p.mapping[i].filename) && InTable(p, p.mapping[i].buildId))
    && (forall i :: 0 <= i < |p.location| ==> LocationScoped(p, p.location[i]))
  }

  predicate WellFormed(p: Profile) {
    Dense(p) && Scoped(p)
  }

  lemma ExtendsTrans(p: Profile, q: Profile, r: Profile)
    requires Extends(p, q) && Extends(q, r)
    ensures Extends(p, r)
  {
  }

  lemma FunctionStable(p: Profile, q: Profile, i: nat)
    requires WellFormed(p) && Extends(p, q) && i < |p.function_|
    ensures MeaningOfFunction(q, q.function_[i]) == MeaningOfFunction(p, p.function_[i])
  {
  }

  lemma MappingStable(p: Profile, q: Profile, i: nat)
    requires WellFormed(p) && Extends(p, q) && i < |p.mapping|
    ensures MeaningOfMapping(q, q.mapping[i]) == MeaningOfMapping(p, p.mapping[i])
  {
  }

  lemma LinesStable(p: Profile, q: Profile, ls: seq<Line>)
    requires WellFormed(p) && WellFormed(q) && Extends(p, q)
    requires forall i :: 0 <= i < |ls| ==> LineScoped(p, ls[i])
    ensures MeaningOfLines(q, ls) == MeaningOfLines(p, ls)
  {
    forall i | 0 <= i < |ls|
      ensures MeaningOfLine(q, ls[i]) == MeaningOfLine(p, ls[i])
    {
      var id := ls[i].functionId;
      assert LineScoped(p, ls[i]);
      DenseFunctions(p.function_, id);
      DenseFunctions(q.function_, id);
      FunctionStable(p, q, id - 1);
    }
  }

  /** An interned location keeps its meaning for ever. */
  lemma LocationStable(p: Profile, q: Profile, i: nat)
    requires WellFormed(p) && WellFormed(q) && Extends(p, q) && i < |p.location|
    ensures MeaningOfLocation(q, q.location[i]) == MeaningOfLocation(p, p.location[i])
  {
    var l := p.location[i];
    assert q.location[i] == l && LocationScoped(p, l);
    LinesStable(p, q, l.line);
    DenseMappings(p.mapping, l.mappingId);
    DenseMappings(q.mapping, l.mappingId);
    if l.mappingId > 0 {
      MappingStable(p, q, l.mappingId - 1);
    }
    hide WellFormed, MeaningOfLines, MeaningOfMapping, FindMapping;
  }

  // The index maps.

  predicate StringsOk(strings: map<string, int>, table: seq<string>) {
    && table != [] && table[0] == ""
    && (forall i :: 0 <= i < |table| ==> table[i] in strings && strings[table[i]] == i)
    && (forall s :: s in strings ==> 0 <= strings[s] < |table| && table[strings[s]] == s)
  }

  predicate FunctionsOk(functions: map<FunctionKey, nat>, p: Profile) {
    forall k :: k in functions ==>
      1 <= functions[k] <= |p.function_| && MeaningOfFunction(p, p.function_[functions[k] - 1]) == MeaningOfKey(k)
  }

  predicate MappingsOk(mappings: map<MappingInfo, nat>, p: Profile) {
    && (forall m :: m in mappings ==>
          1 <= mappings[m] <= |p.mapping| && MeaningOfMapping(p, p.mapping[mappings[m] - 1]) == MeaningOfInfo(m))
    && (forall m, n :: m in mappings && n in mappings && m != n ==> mappings[m] != mappings[n])
  }

  ghost predicate LocationsOk(locations: map<u64, nat>, p: Profile, resolver: Resolver) {
    forall a :: a in locations ==>
      1 <= locations[a] <= |p.location|
      && MeaningOfLocation(p, p.location[locations[a] - 1]) == IntendedLocation(resolver, a)
  }

  lemma FunctionsGrow(functions: map<FunctionKey, nat>, p: Profile, q: Profile)
    requires FunctionsOk(functions, p) && WellFormed(p) && Extends(p, q)
    ensures FunctionsOk(functions, q)
  {
    forall k | k in functions
      ensures MeaningOfFunction(q, q.function_[functions[k] - 1]) == MeaningOfKey(k)
    {
      FunctionStable(p, q, functions[k] - 1);
    }
  }

  lemma MappingsGrow(mappings: map<MappingInfo, nat>, p: Profile, q: Profile)
    requires MappingsOk(mappings, p) && WellFormed(p) && Extends(p, q)
    ensures MappingsOk(mappings, q)
  {
    forall m | m in mappings
      ensures MeaningOfMapping(q, q.mapping[mappings[m] - 1]) == MeaningOfInfo(m)
    {
      MappingStable(p, q, mappings[m] - 1);
    }
  }

  lemma LocationsGrow(locations: map<u64, nat>, p: Profile, q: Profile, resolver: Resolver)
    requires LocationsOk(locations, p, resolver) && WellFormed(p) && WellFormed(q) && Extends(p, q)
    ensures LocationsOk(locations, q, resolver)
  {
    forall a | a in locations
      ensures MeaningOfLocation(q, q.location[locations[a] - 1]) == IntendedLocation(resolver, a)
    {
      LocationStable(p, q, locations[a] - 1);
    }
  }

  // Mapping flags.

  /** The symbolized location of an interned address that lies in mapping `m`. */
  predicate InMapping(resolver: Resolver, a: u64, m: MappingInfo) {
    resolver.Some? && resolver.value(a).mapping == Some(m)
  }

  predicate HasFilenames(r: ResolvedLocation) {
    exists i :: 0 <= i < |r.lines| && r.lines[i].filename.Some?
  }

  predicate HasLineNumbers(r: ResolvedLocation) {
    exists i :: 0 <= i < |r.lines| && r.lines[i].line != 0
  }

  /** The flags of a mapping are the disjunction over the addresses interned in it. */
  ghost predicate FlagsOf(mapping: Mapping, m: MappingInfo, interned: set<u64>, resolver: Resolver) {
    && (mapping.hasFunctions <==>
          exists a :: a in interned && InMapping(resolver, a, m) && resolver.value(a).lines != [])
    && (mapping.hasFilenames <==>
          exists a :: a in interned && InMapping(resolver, a, m) && HasFilenames(resolver.value(a)))
    && (mapping.hasLineNumbers <==>
          exists a :: a in interned && InMapping(resolver, a, m) && HasLineNumbers(resolver.value(a)))
    && (mapping.hasInlineFrames <==>
          exists a :: a in interned && InMapping(resolver, a, m) && |resolver.value(a).lines| > 1)
  }

  /** A mapping's flags say whether some address interned in it has a call, a call with a file, a call with
      a line, or more than one call. */
  lemma FlagsMean(mapping: Mapping, m: MappingInfo, interned: set<u64>, resolver: Resolver)
    requires FlagsOf(mapping, m, interned, resolver) && resolver.Some?
    ensures var inside := set a | a in interned && resolver.value(a).mapping == Some(m);
            && (mapping.hasFunctions <==> exists a :: a in inside && |resolver.value(a).lines| > 0)
            && (mapping.hasFilenames <==>
                  exists a, i :: a in inside && 0 <= i < |resolver.value(a).lines| && resolver.value(a).lines[i].filename.Some?)
            && (mapping.hasLineNumbers <==>
                  exists a, i :: a in inside && 0 <= i < |resolver.value(a).lines| && resolver.value(a).lines[i].line != 0)
            && (mapping.hasInlineFrames <==> exists a :: a in inside && |resolver.value(a).lines| > 1)
  {
  }

  ghost predicate FlagsOk(mappings: map<MappingInfo, nat>, p: Profile, interned: set<u64>, resolver: Resolver) {
    && (forall m :: m in mappings ==>
          1 <= mappings[m] <= |p.mapping| && FlagsOf(p.mapping[mappings[m] - 1], m, interned, resolver))
    && (forall a :: a in interned && resolver.Some? && resolver.value(a).mapping.Some?
                    ==> resolver.value(a).mapping.value in mappings)
  }

  /** Everything the builder keeps about its tables and index maps. */
  ghost predicate Indexed(p: Profile, strings: map<string, int>, functions: map<FunctionKey, nat>,
                          mappings: map<MappingInfo, nat>, locations: map<u64, nat>, resolver: Resolver)
  {
    && WellFormed(p)
    && StringsOk(strings, p.stringTable)
    && FunctionsOk(functions, p)
    && MappingsOk(mappings, p)
    && LocationsOk(locations, p, resolver)
  }

  lemma IndexedGrow(p: Profile, q: Profile, strings: map<string, int>, strings': map<string, int>,
                    functions: map<FunctionKey, nat>, mappings: map<MappingInfo, nat>,
                    locations: map<u64, nat>, resolver: Resolver)
    requires Indexed(p, strings, functions, mappings, locations, resolver)
    requires WellFormed(q) && Extends(p, q) && StringsOk(strings', q.stringTable)
    ensures Indexed(q, strings', functions, mappings, locations, resolver)
  {
    hide WellFormed, Extends, StringsOk, FunctionsOk, MappingsOk, LocationsOk;
    FunctionsGrow(functions, p, q);
    MappingsGrow(mappings, p, q);
    LocationsGrow(locations, p, q, resolver);
  }

  lemma AddString(p: Profile, value: string)
    requires WellFormed(p)
    ensures var q := p.(stringTable := p.stringTable + [value]); WellFormed(q) && Extends(p, q)
  {
    var q := p.(stringTable := p.stringTable + [value]);
    assert forall i :: 0 <= i < |p.location| ==> LocationScoped(p, p.location[i]);
    assert forall i :: 0 <= i < |q.location| ==> LocationScoped(q, q.location[i]);
  }

  lemma AddFunction(p: Profile, f: Function)
    requires WellFormed(p) && f.id == |p.function_| + 1
    requires InTable(p, f.name) && InTable(p, f.systemName) && InTable(p, f.filename)
    ensures var q := p.(function_ := p.function_ + [f]); WellFormed(q) && Extends(p, q)
  {
    var q := p.(function_ := p.function_ + [f]);
    assert forall i, j :: 0 <= i < |p.location| && 0 <= j < |p.location[i].line| ==>
      LocationScoped(p, p.location[i]) && LineScoped(p, p.location[i].line[j]);
  }

  lemma AddMapping(p: Profile, m: Mapping)
    requires WellFormed(p) && m.id == |p.mapping| + 1
    requires InTable(p, m.filename) && InTable(p, m.buildId)
    ensures var q := p.(mapping := p.mapping + [m]); WellFormed(q) && Extends(p, q)
  {
    var q := p.(mapping := p.mapping + [m]);
    assert forall i :: 0 <= i < |p.location| ==> LocationScoped(p, p.location[i]);
    assert forall i :: 0 <= i < |q.location| ==> LocationScoped(q, q.location[i]);
  }

  lemma SetMapping(p: Profile, i: nat, m: Mapping)
    requires WellFormed(p) && i < |p.mapping| && SameMapping(p.mapping[i], m)
    ensures var q := p.(mapping := p.mapping[i := m]); WellFormed(q) && Extends(p, q)
  {
    var q := p.(mapping := p.mapping[i := m]);
    assert forall j :: 0 <= j < |p.location| ==> LocationScoped(p, p.location[j]);
    assert forall j :: 0 <= j < |q.location| ==> LocationScoped(q, q.location[j]);
  }

  lemma AddLocation(p: Profile, l: Location)
    requires WellFormed(p) && l.id == |p.location| + 1 && LocationScoped(p, l)
    ensures var q := p.(location := p.location + [l]); WellFormed(q) && Extends(p, q)
  {
    var q := p.(location := p.location + [l]);
    assert forall i :: 0 <= i < |q.location| ==> LocationScoped(p, q.location[i]);
    assert forall i :: 0 <= i < |q.location| ==> LocationScoped(q, q.location[i]);
  }

  function EmptyProfile(timeNanos: int, durationNanos: int): Profile {
    Profile([], [], [], [], [], [""], timeNanos, durationNanos, None, 0, 0)
  }

  class ProfileBuilder {
    const resolver: Resolver
    var profile: Profile
    var strings: map<string, int>
    var mappings: map<MappingInfo, nat>
    var functions: map<FunctionKey, nat>
    var locations: map<u64, nat>

    ghost predicate Core()
      reads this
    {
      Indexed(profile, strings, functions, mappings, locations, resolver)
    }

    ghost predicate Valid()
      reads this
    {
      Core() && FlagsOk(mappings, profile, locations.Keys, resolver)
    }

    constructor (resolver: Resolver, timeNanos: int, durationNanos: int)
      ensures Valid() && profile == EmptyProfile(timeNanos, durationNanos) && this.resolver == resolver && locations == map[]
    {
      this.resolver := resolver;
      profile := EmptyProfile(timeNanos, durationNanos);
      strings := map["" := 0];
      mappings, functions, locations := map[], map[], map[];
    }

    method Intern(value: string) returns (index: int)
      requires Core()
      modifies `profile, `strings
      ensures Core() && Extends(old(profile), profile)
      ensures profile == old(profile).(stringTable := profile.stringTable)
      ensures InTable(profile, index) && profile.stringTable[index] == value
    {
      hide WellFormed, Extends, FunctionsOk, MappingsOk, LocationsOk;
      if value in strings {
        ExtendsSelf(profile);
        return strings[value];
      }
      AddString(profile, value);
      ghost var before, old_ := profile, strings;
      index := |profile.stringTable|;
      profile := profile.(stringTable := profile.stringTable + [value]);
      strings := strings[value := index];
      IndexedGrow(before, profile, old_, strings, functions, mappings, locations, resolver);
    }

    /** Interns the three names of a function. */
    method FunctionId(line: SymbolizedLine) returns (id: nat)
      requires Core()
      modifies `profile, `strings, `functions
      ensures Core() && Extends(old(profile), profile)
      ensures profile.sample == old(profile.sample) && profile.mapping == old(profile.mapping)
      ensures 1 <= id <= |profile.function_|
      ensures MeaningOfFunction(profile, profile.function_[id - 1]) == MeaningOfKey(KeyOf(line))
    {
      hide Indexed, Extends, MeaningOfFunction, MeaningOfKey;
      IndexedLookups(profile, strings, functions, mappings, locations, resolver);
      var key := (line.function_, line.systemName, line.filename);
      if key in functions {
        ExtendsSelf(profile);
        return functions[key];
      }
      ghost var p0 := profile;
      var name, systemName, filename := FunctionNames(line);
      ghost var p3 := profile;
      id := |profile.function_| + 1;
      var f := Function(id, name, systemName, filename, 0);
      FunctionMade(profile, f, line);
      IndexedAddFunction(profile, strings, functions, mappings, locations, resolver, key, f);
      profile := profile.(function_ := profile.function_ + [f]);
      ExtendsTrans(p0, p3, profile);
      functions := functions[key := id];
    }

    method FunctionNames(line: SymbolizedLine) returns (name: int, systemName: int, filename: int)
      requires Core()
      modifies `profile, `strings
      ensures Core() && Extends(old(profile), profile)
      ensures profile == old(profile).(stringTable := profile.stringTable)
      ensures InTable(profile, name) && InTable(profile, systemName) && InTable(profile, filename)
      ensures profile.stringTable[name] == line.function_ && profile.stringTable[systemName] == line.systemName
      ensures profile.stringTable[filename] == OrEmpty(line.filename)
    {
      hide Indexed, Extends;
      ghost var p0 := profile;
      name := Intern(line.function_);
      ghost var p1 := profile;
      systemName := Intern(line.systemName);
      ghost var p2 := profile;
      filename := Intern(OrEmpty(line.filename));
      ExtendsTrans(p0, p1, p2);
      ExtendsTrans(p0, p2, profile);
      ExtendsTrans(p1, p2, profile);
      StringsPersist(p1, profile);
      StringsPersist(p2, profile);
    }

    /** What a valid builder promises of its profile. */
    lemma Finished()
      requires Valid()
      ensures WellFormed(profile) && DistinctStrings(profile.stringTable)
      ensures MappingsOk(mappings, profile) && FlagsOk(mappings, profile, locations.Keys, resolver)
    {
      hide Indexed, FlagsOk;
      IndexedWellFormed(profile, strings, functions, mappings, locations, resolver);
      IndexedStrings(profile, strings, functions, mappings, locations, resolver);
      IndexedLookups(profile, strings, functions, mappings, locations, resolver);
    }

    /** A mapping met again: the location's flags are ORed in. */
    method FoldMapping(info: MappingInfo, resolved: ResolvedLocation, ghost address: u64) returns (id: nat)
      requires Valid()
      requires resolver.Some? && resolver.value(address) == resolved && resolved.mapping == Some(info)
      requires info in mappings
      modifies `profile
      ensures Core() && Extends(old(profile), profile)
      ensures profile.sample == old(profile.sample)
      ensures 1 <= id <= |profile.mapping|
      ensures MeaningOfMapping(profile, profile.mapping[id - 1]) == MeaningOfInfo(info)
      ensures FlagsOk(mappings, profile, locations.Keys + {address}, resolver)
    {
      hide Indexed, Extends, FlagsOk, MeaningOfMapping, MeaningOfInfo, HasFilenames, HasLineNumbers;
      IndexedLookups(profile, strings, functions, mappings, locations, resolver);
      id := mappings[info];
      ghost var p0 := profile;
      var m := profile.mapping[id - 1];
      m := m.(hasFunctions := m.hasFunctions || resolved.lines != [],
              hasFilenames := m.hasFilenames || HasFilenames(resolved),
              hasLineNumbers := m.hasLineNumbers || HasLineNumbers(resolved),
              hasInlineFrames := m.hasInlineFrames || |resolved.lines| > 1);
      IndexedSetMapping(profile, strings, functions, mappings, locations, resolver, info, m);
      profile := profile.(mapping := profile.mapping[id - 1 := m]);
      FlagsFold(mappings, p0, profile, locations.Keys, resolver, info, address);
    }

    /** `mapping`: the id of a mapping, with this location's flags in its entry. */
    method MappingId(info: MappingInfo, resolved: ResolvedLocation, ghost address: u64) returns (id: nat)
      requires Valid()
      requires resolver.Some? && resolver.value(address) == resolved && resolved.mapping == Some(info)
      modifies `profile, `strings, `mappings
      ensures Core() && Extends(old(profile), profile)
      ensures profile.sample == old(profile.sample)
      ensures 1 <= id <= |profile.mapping|
      ensures MeaningOfMapping(profile, profile.mapping[id - 1]) == MeaningOfInfo(info)
      ensures FlagsOk(mappings, profile, locations.Keys + {address}, resolver)
    {
      hide Indexed, Extends, FlagsOk, MeaningOfMapping, MeaningOfInfo, HasFilenames, HasLineNumbers;
      if info in mappings {
        id := FoldMapping(info, resolved, address);
        return;
      }
      ghost var p0 := profile;
      id := |profile.mapping| + 1;
      var filename, buildId := MappingNames(info);
      ghost var p2 := profile;
      var m := Mapping(id, info.start, info.limit, info.offset, filename, buildId,
                       resolved.lines != [], HasFilenames(resolved), HasLineNumbers(resolved), |resolved.lines| > 1);
      MappingMade(profile, m, info);
      IndexedAddMapping(profile, strings, functions, mappings, locations, resolver, info, m);
      profile := profile.(mapping := profile.mapping + [m]);
      ExtendsTrans(p0, p2, profile);
      FlagsNew(mappings, p0, profile, locations.Keys, resolver, info, address);
      mappings := mappings[info := id];
    }

    method MappingNames(info: MappingInfo) returns (filename: int, buildId: int)
      requires Core()
      modifies `profile, `strings
      ensures Core() && Extends(old(profile), profile)
      ensures profile == old(profile).(stringTable := profile.stringTable)
      ensures InTable(profile, filename) && InTable(profile, buildId)
      ensures profile.stringTable[filename] == info.filename && profile.stringTable[buildId] == OrEmpty(info.buildId)
    {
      hide Indexed, Extends;
      ghost var p0 := profile;
      filename := Intern(info.filename);
      ghost var p1 := profile;
      buildId := Intern(OrEmpty(info.buildId));
      ExtendsTrans(p0, p1, profile);
      StringsPersist(p1, profile);
    }

    /** `location`: one entry per address. */
    method LocationId(address: u64) returns (id: nat)
      requires Valid()
      modifies this
      ensures Valid() && Extends(old(profile), profile)
      ensures profile.sample == old(profile.sample)
      ensures 1 <= id <= |profile.location|
      ensures MeaningOfLocation(profile, profile.location[id - 1]) == IntendedLocation(resolver, address)
      ensures address in locations && locations.Keys == old(locations.Keys) + {address}
    {
      hide WellFormed, StringsOk, Extends, FunctionsOk, MappingsOk, FlagsOk, MeaningOfLocation, IntendedLocation;
      if address in locations {
        ExtendsSelf(profile);
        assert locations.Keys + {address} == locations.Keys;
        return locations[address];
      }
      ghost var p0 := profile;
      var l := ResolveLocation(address);
      ghost var p1 := profile;
      id := |profile.location| + 1;
      AddLocation(profile, l);
      profile := profile.(location := profile.location + [l]);
      ExtendsTrans(p0, p1, profile);
      NewLocation(p1, profile, l);
      IndexedGrow(p1, profile, strings, strings, functions, mappings, locations, resolver);
      FlagsSame(mappings, p1, profile, locations.Keys + {address}, resolver);
      ghost var keys := locations.Keys;
      locations := locations[address := id];
      assert locations.Keys == keys + {address};
    }

    /** The entry for an address not seen before. */
    method ResolveLocation(address: u64) returns (l: Location)
      requires Valid()
      modifies `profile, `strings, `functions, `mappings
      ensures Core() && Extends(old(profile), profile)
      ensures profile.sample == old(profile.sample)
      ensures l.id == |profile.location| + 1 && LocationScoped(profile, l)
      ensures MeaningOfLocation(profile, l) == IntendedLocation(resolver, address)
      ensures FlagsOk(mappings, profile, locations.Keys + {address}, resolver)
    {
      hide Indexed, Extends, FlagsOk, MeaningOfLocation, IntendedLocation, MeaningOfMapping, LocationScoped;
      IndexedWellFormed(profile, strings, functions, mappings, locations, resolver);
      if resolver.None? {
        l := Location(|profile.location| + 1, 0, address, [], false);
        RawLocation(profile, l, resolver);
        ExtendsSelf(profile);
        FlagsRaw(mappings, profile, locations.Keys, resolver, address);
      } else {
        ghost var p0 := profile;
        var resolved := resolver.value(address);
        var mappingId := 0;
        if resolved.mapping.Some? {
          mappingId := MappingId(resolved.mapping.value, resolved, address);
        } else {
          ExtendsSelf(profile);
          FlagsUnmapped(mappings, profile, locations.Keys, resolver, address);
        }
        ghost var p1 := profile;
        IndexedWellFormed(profile, strings, functions, mappings, locations, resolver);
        var lines := Lines(resolved.lines);
        IndexedWellFormed(profile, strings, functions, mappings, locations, resolver);
        l := Location(|profile.location| + 1, mappingId, address, lines, false);
        SymbolizedLocation(p1, profile, l, resolver);
        ExtendsTrans(p0, p1, profile);
        FlagsSame(mappings, p1, profile, locations.Keys + {address}, resolver);
      }
    }

    /** The inlined frames of one address, outermost order as resolved. */
    method Lines(resolved: seq<SymbolizedLine>) returns (lines: seq<Line>)
      requires Core()
      modifies `profile, `strings, `functions
      ensures Core() && Extends(old(profile), profile)
      ensures profile.sample == old(profile.sample) && profile.mapping == old(profile.mapping)
      ensures forall i :: 0 <= i < |lines| ==> LineScoped(profile, lines[i])
      ensures MeaningOfLines(profile, lines) == IntendedLines(resolved)
    {
      hide Indexed, Extends, MeaningOfLine, IntendedLine;
      lines := [];
      ExtendsSelf(profile);
      for k := 0 to |resolved|
        invariant Core() && Extends(old(profile), profile) && |lines| == k
        invariant profile.sample == old(profile.sample) && profile.mapping == old(profile.mapping)
        invariant forall i :: 0 <= i < k ==> LineScoped(profile, lines[i])
        invariant forall i :: 0 <= i < k ==> MeaningOfLine(profile, lines[i]) == IntendedLine(resolved[i])
      {
        ghost var before, previous := profile, lines;
        IndexedWellFormed(profile, strings, functions, mappings, locations, resolver);
        var functionId := FunctionId(resolved[k]);
        ExtendsTrans(old(profile), before, profile);
        IndexedWellFormed(profile, strings, functions, mappings, locations, resolver);
        lines := lines + [Line(functionId, resolved[k].line, 0)];
        NewLine(before, profile, previous, functionId, resolved[k]);
      }
    }

    /** The target's labels, key and value both interned. */
    method SampleLabels(pairs: seq<(string, string)>) returns (labels: seq<Label>)
      requires Core()
      modifies `profile, `strings
      ensures Core() && Extends(old(profile), profile)
      ensures profile == old(profile).(stringTable := profile.stringTable)
      ensures LabelsScoped(profile, labels)
      ensures MeaningOfLabels(profile, labels) == IntendedPairs(pairs)
    {
      hide Indexed, Extends, MeaningOfLabels, IntendedPairs;
      labels := [];
      ExtendsSelf(profile);
      NoLabels(profile);
      for k := 0 to |pairs|
        invariant Core() && Extends(old(profile), profile)
        invariant profile == old(profile).(stringTable := profile.stringTable)
        invariant LabelsScoped(profile, labels)
        invariant MeaningOfLabels(profile, labels) == IntendedPairs(pairs[..k])
      {
        ghost var p0 := profile;
        var key := Intern(pairs[k].0);
        ghost var p1 := profile;
        IndexedStrings(profile, strings, functions, mappings, locations, resolver);
        var value := Intern(pairs[k].1);
        IndexedStrings(profile, strings, functions, mappings, locations, resolver);
        ExtendsTrans(p0, p1, profile);
        ExtendsTrans(old(profile), p0, profile);
        StringsPersist(p1, profile);
        LabelsStable(p0, profile, labels);
        PairMeaning(profile, key, value, pairs[k]);
        MeaningSnoc(profile, labels, Label(key, value, 0, 0));
        IntendedPairsSnoc(pairs, k);
        labels := labels + [Label(key, value, 0, 0)];
      }
      assert pairs[..|pairs|] == pairs;
    }

    method ThreadLabels(pid: u32, tid: u32, name: Option<string>) returns (labels: seq<Label>)
      requires Core()
      modifies `profile, `strings
      ensures Core() && Extends(old(profile), profile)
      ensures profile == old(profile).(stringTable := profile.stringTable)
      ensures LabelsScoped(profile, labels)
      ensures MeaningOfLabels(profile, labels) == ThreadMeaning(pid, tid, name)
    {
      hide Indexed, Extends, MeaningOfLabels;
      ghost var p0 := profile;
      var pidKey := Intern("process.pid");
      ghost var p1 := profile;
      var tidKey := Intern("thread.id");
      ghost var p2 := profile;
      IndexedStrings(profile, strings, functions, mappings, locations, resolver);
      ExtendsTrans(p0, p1, p2);
      StringsPersist(p1, p2);
      var a, b := Label(pidKey, 0, pid, 0), Label(tidKey, 0, tid, 0);
      labels := [a, b];
      PairOfLabels(profile, a, b, pid, tid);
      if name.Some? {
        var nameKey := Intern("thread.name");
        ghost var p3 := profile;
        var value := Intern(name.value);
        IndexedStrings(profile, strings, functions, mappings, locations, resolver);
        ExtendsTrans(p2, p3, profile);
        ExtendsTrans(p0, p2, profile);
        StringsPersist(p3, profile);
        LabelsStable(p2, profile, labels);
        PairMeaning(profile, nameKey, value, ("thread.name", name.value));
        MeaningSnoc(profile, labels, Label(nameKey, value, 0, 0));
        labels := labels + [Label(nameKey, value, 0, 0)];
      }
    }

    /** `value_type`. */
    method NamedType(kind: (string, string)) returns (r: ValueType)
      requires Valid()
      modifies this
      ensures Valid() && Extends(old(profile), profile) && TypeOk(profile, r, kind)
      ensures profile == old(profile).(stringTable := profile.stringTable) && locations == old(locations)
    {
      hide Indexed, Extends, FlagsOk;
      ghost var p0 := profile;
      var name := Intern(kind.0);
      ghost var p1 := profile;
      var unit := Intern(kind.1);
      ExtendsTrans(p0, p1, profile);
      StringsPersist(p1, profile);
      FlagsSame(mappings, p0, profile, locations.Keys, resolver);
      r := ValueType(name, unit);
    }

    /** The columns, the period and the column shown first. */
    method SetHeader(header: Header)
      requires Valid() && profile.sample == [] && locations == map[]
      requires profile.timeNanos == header.timeNanos && profile.durationNanos == header.durationNanos
      modifies this
      ensures Valid() && HeaderOk(profile, header) && profile.sample == [] && locations == map[]
    {
      hide Indexed, Extends, FlagsOk;
      var types: seq<ValueType> := [];
      ghost var start := profile;
      for k := 0 to |header.kinds|
        invariant Valid() && locations == map[] && |types| == k
        invariant profile == start.(stringTable := profile.stringTable)
        invariant forall i :: 0 <= i < k ==> TypeOk(profile, types[i], header.kinds[i])
      {
        ghost var before := profile;
        var t := NamedType(header.kinds[k]);
        StringsPersist(before, profile);
        types := types + [t];
      }
      ghost var p1 := profile;
      var periodType: Option<ValueType> := None;
      if header.periodType.Some? {
        var t := NamedType(header.periodType.value);
        periodType := Some(t);
        StringsPersist(p1, profile);
      }
      ghost var p2 := profile;
      var shown := Intern(header.defaultKind);
      StringsPersist(p2, profile);
      FlagsSame(mappings, p2, profile, locations.Keys, resolver);
      ghost var p := profile;
      profile := profile.(sampleType := types, periodType := periodType, period := header.period, defaultSampleType := shown);
      HeaderOnly(p, profile, strings, functions, mappings, locations, resolver);
    }

    /** One turn of the sample loop: the labels of target and thread, then the sample. */
    method AddAttributed(key: AttributedStack, values: seq<int>, pairs: seq<(string, string)>)
      requires Valid()
      modifies this
      ensures Valid() && Extends(old(profile), profile)
      ensures |profile.sample| == |old(profile).sample| + 1
      ensures profile.sample[..|old(profile).sample|] == old(profile).sample
      ensures SampleIs(profile, |old(profile).sample|, resolver, pairs, key, values)
      ensures locations.Keys == old(locations.Keys) + Addresses(key.stack)
    {
      hide Indexed, Extends, FlagsOk, MeaningOfStack, MeaningOfLabels, IntendedPairs, ThreadMeaning, Addresses;
      ghost var p0 := profile;
      var labels := SampleLabels(pairs);
      ghost var p1 := profile;
      var thread := ThreadLabels(key.pid, key.tid, key.threadName);
      ghost var p2 := profile;
      ExtendsTrans(p0, p1, p2);
      LabelsStable(p1, p2, labels);
      MeaningConcat(p2, labels, thread);
      FlagsSame(mappings, p0, p2, locations.Keys, resolver);
      AddSample(key.stack, values, labels + thread);
      ExtendsTrans(p0, p2, profile);
      LabelsStable(p2, profile, labels + thread);
    }

    /** Appends one sample whose stack means the intended locations of its addresses. */
    method AddSample(stack: seq<u64>, values: seq<int>, labels: seq<Label>)
      requires Valid() && LabelsScoped(profile, labels)
      modifies this
      ensures Valid() && Extends(old(profile), profile)
      ensures |profile.sample| == |old(profile).sample| + 1
      ensures profile.sample[..|old(profile).sample|] == old(profile).sample
      ensures var s := profile.sample[|old(profile).sample|];
              && SampleScoped(profile, s) && s.value == values && s.labels == labels
              && MeaningOfStack(profile, s.locationId) == IntendedStack(resolver, stack)
      ensures locations.Keys == old(locations.Keys) + Addresses(stack)
    {
      hide Indexed, Extends, FlagsOk, MeaningOfStack, IntendedLocation;
      var locationId: seq<nat> := [];
      ExtendsSelf(profile);
      NoStack(profile);
      ghost var keys := locations.Keys;
      for k := 0 to |stack|
        invariant Valid() && Extends(old(profile), profile) && profile.sample == old(profile).sample
        invariant IdsScoped(profile, locationId)
        invariant MeaningOfStack(profile, locationId) == IntendedStack(resolver, stack[..k])
        invariant locations.Keys == keys + Addresses(stack[..k])
      {
        ghost var before := profile;
        IndexedWellFormed(profile, strings, functions, mappings, locations, resolver);
        var id := LocationId(stack[k]);
        IndexedWellFormed(profile, strings, functions, mappings, locations, resolver);
        ExtendsTrans(old(profile), before, profile);
        StackStable(before, profile, locationId);
        StackSnoc(profile, locationId, id);
        assert IntendedStack(resolver, stack[..k + 1])
            == IntendedStack(resolver, stack[..k]) + [IntendedLocation(resolver, stack[k])];
        assert Addresses(stack[..k + 1]) == Addresses(stack[..k]) + {stack[k]};
        locationId := locationId + [id];
      }
      assert stack[..|stack|] == stack;
      LabelsGrow(old(profile), profile, labels);
      ghost var p := profile;
      profile := profile.(sample := profile.sample + [Sample(locationId, values, labels)]);
      SampleOnly(p, profile, strings, functions, mappings, locations, resolver, locationId);
      ExtendsTrans(old(profile), p, profile);
    }
  }

  lemma ExtendsSelf(p: Profile)
    ensures Extends(p, p)
  {
  }

  lemma StringsPersist(p: Profile, q: Profile)
    requires Extends(p, q)
    ensures forall i :: InTable(p, i) ==> InTable(q, i) && q.stringTable[i] == p.stringTable[i]
  {
  }

  lemma IndexedWellFormed(p: Profile, strings: map<string, int>, functions: map<FunctionKey, nat>,
                          mappings: map<MappingInfo, nat>, locations: map<u64, nat>, resolver: Resolver)
    requires Indexed(p, strings, functions, mappings, locations, resolver)
    ensures WellFormed(p)
  {
  }

  lemma NewLine(p: Profile, q: Profile, lines: seq<Line>, id: nat, line: SymbolizedLine)
    requires WellFormed(p) && WellFormed(q) && Extends(p, q)
    requires forall i :: 0 <= i < |lines| ==> LineScoped(p, lines[i])
    requires 1 <= id <= |q.function_| && MeaningOfFunction(q, q.function_[id - 1]) == MeaningOfKey(KeyOf(line))
    ensures forall i :: 0 <= i < |lines| ==>
      LineScoped(q, lines[i]) && MeaningOfLine(q, lines[i]) == MeaningOfLine(p, lines[i])
    ensures LineScoped(q, Line(id, line.line, 0)) && MeaningOfLine(q, Line(id, line.line, 0)) == IntendedLine(line)
  {
    LinesStable(p, q, lines);
    forall i | 0 <= i < |lines|
      ensures LineScoped(q, lines[i]) && MeaningOfLine(q, lines[i]) == MeaningOfLine(p, lines[i])
    {
      assert LineScoped(p, lines[i]);
      assert MeaningOfLines(q, lines)[i] == MeaningOfLines(p, lines)[i];
    }
    DenseFunctions(q.function_, id);
  }

  lemma RawLocation(p: Profile, l: Location, resolver: Resolver)
    requires WellFormed(p) && resolver.None? && l.mappingId == 0 && l.line == []
    ensures LocationScoped(p, l) && MeaningOfLocation(p, l) == IntendedLocation(resolver, l.address)
  {
    DenseMappings(p.mapping, 0);
  }

  lemma SymbolizedLocation(p: Profile, q: Profile, l: Location, resolver: Resolver)
    requires WellFormed(p) && WellFormed(q) && Extends(p, q) && resolver.Some?
    requires var r := resolver.value(l.address);
             && (if r.mapping.None? then l.mappingId == 0
                 else 1 <= l.mappingId <= |p.mapping|
                      && MeaningOfMapping(p, p.mapping[l.mappingId - 1]) == MeaningOfInfo(r.mapping.value))
             && (forall i :: 0 <= i < |l.line| ==> LineScoped(q, l.line[i]))
             && MeaningOfLines(q, l.line) == IntendedLines(r.lines)
    ensures LocationScoped(q, l) && MeaningOfLocation(q, l) == IntendedLocation(resolver, l.address)
  {
    DenseMappings(q.mapping, l.mappingId);
    if l.mappingId > 0 {
      MappingStable(p, q, l.mappingId - 1);
    }
    hide WellFormed, MeaningOfLines, IntendedLines, MeaningOfMapping, FindMapping;
  }

  lemma NewLocation(p: Profile, q: Profile, l: Location)
    requires q == p.(location := p.location + [l])
    ensures q.location[|p.location|] == l && MeaningOfLocation(q, l) == MeaningOfLocation(p, l)
  {
    assert MeaningOfLines(q, l.line) == MeaningOfLines(p, l.line);
  }

  lemma MappingMade(p: Profile, m: Mapping, info: MappingInfo)
    requires InTable(p, m.filename) && InTable(p, m.buildId)
    requires p.stringTable[m.filename] == info.filename && p.stringTable[m.buildId] == OrEmpty(info.buildId)
    requires m.memoryStart == info.start && m.memoryLimit == info.limit && m.fileOffset == info.offset
    ensures MeaningOfMapping(p, m) == MeaningOfInfo(info)
  {
  }

  lemma NewMapping(mappings: map<MappingInfo, nat>, p: Profile, q: Profile, info: MappingInfo)
    requires MappingsOk(mappings, p) && MappingsOk(mappings, q) && info !in mappings
    requires |q.mapping| == |p.mapping| + 1
    requires MeaningOfMapping(q, q.mapping[|p.mapping|]) == MeaningOfInfo(info)
    ensures MappingsOk(mappings[info := |p.mapping| + 1], q)
  {
    hide MeaningOfMapping, MeaningOfInfo;
  }

  // Flags under each step.

  lemma FlagsSame(mappings: map<MappingInfo, nat>, p: Profile, q: Profile, interned: set<u64>, resolver: Resolver)
    requires FlagsOk(mappings, p, interned, resolver) && q.mapping == p.mapping
    ensures FlagsOk(mappings, q, interned, resolver)
  {
    hide FlagsOf;
  }

  /** An address outside mapping `n` leaves the flags of `n` alone. */
  lemma FlagsElsewhere(mapping: Mapping, n: MappingInfo, interned: set<u64>, resolver: Resolver, address: u64)
    requires FlagsOf(mapping, n, interned, resolver) && !InMapping(resolver, address, n)
    ensures FlagsOf(mapping, n, interned + {address}, resolver)
  {
    hide HasFilenames, HasLineNumbers;
    assert forall a :: a in interned + {address} && InMapping(resolver, a, n) <==> a in interned && InMapping(resolver, a, n);
  }

  lemma FlagsRaw(mappings: map<MappingInfo, nat>, p: Profile, interned: set<u64>, resolver: Resolver, address: u64)
    requires FlagsOk(mappings, p, interned, resolver) && resolver.None?
    ensures FlagsOk(mappings, p, interned + {address}, resolver)
  {
    forall m | m in mappings
      ensures FlagsOf(p.mapping[mappings[m] - 1], m, interned + {address}, resolver)
    {
      FlagsElsewhere(p.mapping[mappings[m] - 1], m, interned, resolver, address);
    }
    hide FlagsOf;
  }

  lemma FlagsUnmapped(mappings: map<MappingInfo, nat>, p: Profile, interned: set<u64>, resolver: Resolver, address: u64)
    requires FlagsOk(mappings, p, interned, resolver) && resolver.Some? && resolver.value(address).mapping.None?
    ensures FlagsOk(mappings, p, interned + {address}, resolver)
  {
    forall m | m in mappings
      ensures FlagsOf(p.mapping[mappings[m] - 1], m, interned + {address}, resolver)
    {
      FlagsElsewhere(p.mapping[mappings[m] - 1], m, interned, resolver, address);
    }
    hide FlagsOf;
  }

  /** The flags one location contributes, joined to flags that hold so far. */
  predicate Joined(after: Mapping, before: Mapping, r: ResolvedLocation) {
    && after.hasFunctions == (before.hasFunctions || r.lines != [])
    && after.hasFilenames == (before.hasFilenames || HasFilenames(r))
    && after.hasLineNumbers == (before.hasLineNumbers || HasLineNumbers(r))
    && after.hasInlineFrames == (before.hasInlineFrames || |r.lines| > 1)
  }

  lemma FlagsJoin(after: Mapping, before: Mapping, m: MappingInfo, interned: set<u64>, resolver: Resolver, address: u64)
    requires FlagsOf(before, m, interned, resolver) && InMapping(resolver, address, m)
    requires Joined(after, before, resolver.value(address))
    ensures FlagsOf(after, m, interned + {address}, resolver)
  {
    hide HasFilenames, HasLineNumbers;
    assert address in interned + {address};
    assert forall a :: a in interned ==> a in interned + {address};
  }

  lemma FlagsFold(mappings: map<MappingInfo, nat>, p: Profile, q: Profile, interned: set<u64>,
                  resolver: Resolver, info: MappingInfo, address: u64)
    requires FlagsOk(mappings, p, interned, resolver) && MappingsOk(mappings, p)
    requires info in mappings && InMapping(resolver, address, info) && |q.mapping| == |p.mapping|
    requires Joined(q.mapping[mappings[info] - 1], p.mapping[mappings[info] - 1], resolver.value(address))
    requires forall i :: 0 <= i < |p.mapping| && i != mappings[info] - 1 ==> q.mapping[i] == p.mapping[i]
    ensures FlagsOk(mappings, q, interned + {address}, resolver)
  {
    forall n | n in mappings
      ensures FlagsOf(q.mapping[mappings[n] - 1], n, interned + {address}, resolver)
    {
      if n == info {
        FlagsJoin(q.mapping[mappings[n] - 1], p.mapping[mappings[n] - 1], n, interned, resolver, address);
      } else {
        FlagsElsewhere(p.mapping[mappings[n] - 1], n, interned, resolver, address);
      }
    }
    hide FlagsOf, Joined;
  }

  lemma FlagsNew(mappings: map<MappingInfo, nat>, p: Profile, q: Profile, interned: set<u64>,
                 resolver: Resolver, info: MappingInfo, address: u64)
    requires FlagsOk(mappings, p, interned, resolver)
    requires info !in mappings && InMapping(resolver, address, info)
    requires |q.mapping| == |p.mapping| + 1 && q.mapping[..|p.mapping|] == p.mapping
    requires var m := q.mapping[|p.mapping|];
             Joined(m, m.(hasFunctions := false, hasFilenames := false, hasLineNumbers := false, hasInlineFrames := false),
                    resolver.value(address))
    ensures FlagsOk(mappings[info := |p.mapping| + 1], q, interned + {address}, resolver)
  {
    var m := q.mapping[|p.mapping|];
    var none := m.(hasFunctions := false, hasFilenames := false, hasLineNumbers := false, hasInlineFrames := false);
    assert FlagsOf(none, info, interned, resolver);
    FlagsJoin(m, none, info, interned, resolver, address);
    forall n | n in mappings
      ensures FlagsOf(q.mapping[mappings[n] - 1], n, interned + {address}, resolver)
    {
      assert q.mapping[mappings[n] - 1] == p.mapping[mappings[n] - 1];
      FlagsElsewhere(p.mapping[mappings[n] - 1], n, interned, resolver, address);
    }
    hide FlagsOf, Joined;
  }

  // The index maps step by step.

  lemma IndexedLookups(p: Profile, strings: map<string, int>, functions: map<FunctionKey, nat>,
                       mappings: map<MappingInfo, nat>, locations: map<u64, nat>, resolver: Resolver)
    requires Indexed(p, strings, functions, mappings, locations, resolver)
    ensures FunctionsOk(functions, p) && MappingsOk(mappings, p)
  {
  }

  lemma FunctionMade(p: Profile, f: Function, line: SymbolizedLine)
    requires InTable(p, f.name) && InTable(p, f.systemName) && InTable(p, f.filename) && f.startLine == 0
    requires p.stringTable[f.name] == line.function_ && p.stringTable[f.systemName] == line.systemName
    requires p.stringTable[f.filename] == OrEmpty(line.filename)
    ensures MeaningOfFunction(p, f) == MeaningOfKey(KeyOf(line))
  {
  }

  lemma IndexedAddFunction(p: Profile, strings: map<string, int>, functions: map<FunctionKey, nat>,
                           mappings: map<MappingInfo, nat>, locations: map<u64, nat>, resolver: Resolver,
                           key: FunctionKey, f: Function)
    requires Indexed(p, strings, functions, mappings, locations, resolver)
    requires f.id == |p.function_| + 1
    requires InTable(p, f.name) && InTable(p, f.systemName) && InTable(p, f.filename)
    requires MeaningOfFunction(p, f) == MeaningOfKey(key)
    ensures var q := p.(function_ := p.function_ + [f]);
            && Indexed(q, strings, functions[key := f.id], mappings, locations, resolver) && Extends(p, q)
            && q.function_[f.id - 1] == f && MeaningOfFunction(q, f) == MeaningOfKey(key)
  {
    var q := p.(function_ := p.function_ + [f]);
    AddFunction(p, f);
    IndexedGrow(p, q, strings, strings, functions, mappings, locations, resolver);
    hide WellFormed, Extends, MappingsOk, LocationsOk, MeaningOfKey;
  }

  lemma IndexedSetMapping(p: Profile, strings: map<string, int>, functions: map<FunctionKey, nat>,
                          mappings: map<MappingInfo, nat>, locations: map<u64, nat>, resolver: Resolver,
                          info: MappingInfo, m: Mapping)
    requires Indexed(p, strings, functions, mappings, locations, resolver)
    requires info in mappings && SameMapping(p.mapping[mappings[info] - 1], m)
    ensures var q := p.(mapping := p.mapping[mappings[info] - 1 := m]);
            && Indexed(q, strings, functions, mappings, locations, resolver) && Extends(p, q)
            && MeaningOfMapping(q, m) == MeaningOfInfo(info)
  {
    var q := p.(mapping := p.mapping[mappings[info] - 1 := m]);
    SetMapping(p, mappings[info] - 1, m);
    IndexedGrow(p, q, strings, strings, functions, mappings, locations, resolver);
    hide WellFormed, Extends, FunctionsOk, LocationsOk, MeaningOfInfo, MeaningOfMapping;
  }

  lemma IndexedAddMapping(p: Profile, strings: map<string, int>, functions: map<FunctionKey, nat>,
                          mappings: map<MappingInfo, nat>, locations: map<u64, nat>, resolver: Resolver,
                          info: MappingInfo, m: Mapping)
    requires Indexed(p, strings, functions, mappings, locations, resolver)
    requires info !in mappings && m.id == |p.mapping| + 1
    requires InTable(p, m.filename) && InTable(p, m.buildId)
    requires MeaningOfMapping(p, m) == MeaningOfInfo(info)
    ensures var q := p.(mapping := p.mapping + [m]);
            && Indexed(q, strings, functions, mappings[info := m.id], locations, resolver) && Extends(p, q)
            && q.mapping[m.id - 1] == m && MeaningOfMapping(q, m) == MeaningOfInfo(info)
  {
    var q := p.(mapping := p.mapping + [m]);
    AddMapping(p, m);
    assert MeaningOfMapping(q, m) == MeaningOfMapping(p, m);
    IndexedGrow(p, q, strings, strings, functions, mappings, locations, resolver);
    NewMapping(mappings, p, q, info);
    hide WellFormed, Extends, FunctionsOk, LocationsOk, MappingsOk, MeaningOfInfo, MeaningOfMapping;
  }

  // Samples.

  predicate LabelScoped(p: Profile, l: Label) {
    InTable(p, l.key) && InTable(p, l.str) && InTable(p, l.numUnit)
  }

  predicate LabelsScoped(p: Profile, ls: seq<Label>) {
    forall i :: 0 <= i < |ls| ==> LabelScoped(p, ls[i])
  }

  predicate IdsScoped(p: Profile, ids: seq<nat>) {
    forall i :: 0 <= i < |ids| ==> 1 <= ids[i] <= |p.location|
  }

  predicate SampleScoped(p: Profile, s: Sample) {
    IdsScoped(p, s.locationId) && LabelsScoped(p, s.labels)
  }

  /** A pair of strings reads back as a string label, except that the empty string, which is
      index zero, makes it a number. */
  function IntendedPair(pair: (string, string)): Option<LabelMeaning> {
    if pair.0 == "" then None
    else if pair.1 != "" then Some(StringLabel(pair.0, pair.1))
    else Some(NumberLabel(pair.0, 0, ""))
  }

  function IntendedPairs(pairs: seq<(string, string)>): seq<LabelMeaning> {
    if pairs == [] then []
    else
      var n := |pairs| - 1;
      var m := IntendedPair(pairs[n]);
      IntendedPairs(pairs[..n]) + (if m.Some? then [m.value] else [])
  }

  function ThreadMeaning(pid: u32, tid: u32, name: Option<string>): seq<LabelMeaning> {
    [NumberLabel("process.pid", pid, ""), NumberLabel("thread.id", tid, "")]
    + (if name.None? then [] else [IntendedPair(("thread.name", name.value)).value])
  }

  lemma IndexedStrings(p: Profile, strings: map<string, int>, functions: map<FunctionKey, nat>,
                       mappings: map<MappingInfo, nat>, locations: map<u64, nat>, resolver: Resolver)
    requires Indexed(p, strings, functions, mappings, locations, resolver)
    ensures StringsOk(strings, p.stringTable)
    ensures DistinctStrings(p.stringTable)
  {
  }

  predicate DistinctStrings(table: seq<string>) {
    && table != [] && table[0] == ""
    && forall i, j :: 0 <= i < j < |table| ==> table[i] != table[j]
  }

  lemma NoLabels(p: Profile)
    ensures MeaningOfLabels(p, []) == [] && IntendedPairs([]) == []
  {
  }

  lemma NoStack(p: Profile)
    ensures MeaningOfStack(p, []) == []
  {
  }

  lemma MeaningSnoc(p: Profile, ls: seq<Label>, l: Label)
    ensures var m := MeaningOfLabel(p, l);
            MeaningOfLabels(p, ls + [l]) == MeaningOfLabels(p, ls) + (if m.Some? then [m.value] else [])
  {
    assert (ls + [l])[..|ls|] == ls;
  }

  lemma IntendedPairsSnoc(pairs: seq<(string, string)>, k: nat)
    requires k < |pairs|
    ensures var m := IntendedPair(pairs[k]);
            IntendedPairs(pairs[..k + 1]) == IntendedPairs(pairs[..k]) + (if m.Some? then [m.value] else [])
  {
    assert pairs[..k + 1][..k] == pairs[..k];
  }

  lemma PairMeaning(p: Profile, key: int, value: int, pair: (string, string))
    requires DistinctStrings(p.stringTable) && InTable(p, key) && InTable(p, value)
    requires p.stringTable[key] == pair.0 && p.stringTable[value] == pair.1
    ensures MeaningOfLabel(p, Label(key, value, 0, 0)) == IntendedPair(pair)
    ensures LabelScoped(p, Label(key, value, 0, 0))
  {
    assert value == 0 <==> pair.1 == "";
  }

  lemma PairOfLabels(p: Profile, a: Label, b: Label, pid: u32, tid: u32)
    requires DistinctStrings(p.stringTable) && InTable(p, a.key) && InTable(p, b.key)
    requires p.stringTable[a.key] == "process.pid" && p.stringTable[b.key] == "thread.id"
    requires a == Label(a.key, 0, pid, 0) && b == Label(b.key, 0, tid, 0)
    ensures MeaningOfLabels(p, [a, b]) == ThreadMeaning(pid, tid, None) && LabelsScoped(p, [a, b])
  {
    assert [a] + [b] == [a, b] && [] + [a] == [a];
    MeaningSnoc(p, [], a);
    MeaningSnoc(p, [a], b);
  }

  lemma {:induction false} LabelsStable(p: Profile, q: Profile, ls: seq<Label>)
    requires Extends(p, q) && LabelsScoped(p, ls)
    ensures LabelsScoped(q, ls) && MeaningOfLabels(q, ls) == MeaningOfLabels(p, ls)
  {
    if ls != [] {
      var n := |ls| - 1;
      assert LabelScoped(p, ls[n]);
      LabelsStable(p, q, ls[..n]);
      assert MeaningOfLabel(q, ls[n]) == MeaningOfLabel(p, ls[n]);
      forall i | 0 <= i < |ls|
        ensures LabelScoped(q, ls[i])
      {
        assert LabelScoped(p, ls[i]);
      }
    }
  }

  lemma LabelsGrow(p: Profile, q: Profile, ls: seq<Label>)
    requires Extends(p, q) && LabelsScoped(p, ls)
    ensures LabelsScoped(q, ls)
  {
    LabelsStable(p, q, ls);
  }

  lemma {:induction false} StackStable(p: Profile, q: Profile, ids: seq<nat>)
    requires WellFormed(p) && WellFormed(q) && Extends(p, q) && IdsScoped(p, ids)
    ensures IdsScoped(q, ids) && MeaningOfStack(q, ids) == MeaningOfStack(p, ids)
  {
    if ids != [] {
      var n := |ids| - 1;
      StackStable(p, q, ids[..n]);
      DenseLocations(p.location, ids[n]);
      DenseLocations(q.location, ids[n]);
      LocationStable(p, q, ids[n] - 1);
    }
  }

  lemma StackSnoc(p: Profile, ids: seq<nat>, id: nat)
    requires WellFormed(p) && 1 <= id <= |p.location|
    ensures MeaningOfStack(p, ids + [id]) == MeaningOfStack(p, ids) + [MeaningOfLocation(p, p.location[id - 1])]
  {
    assert (ids + [id])[..|ids|] == ids;
    DenseLocations(p.location, id);
  }

  /** The sample list plays no part in any meaning. */
  lemma SampleOnly(p: Profile, q: Profile, strings: map<string, int>, functions: map<FunctionKey, nat>,
                   mappings: map<MappingInfo, nat>, locations: map<u64, nat>, resolver: Resolver, ids: seq<nat>)
    requires Indexed(p, strings, functions, mappings, locations, resolver)
    requires FlagsOk(mappings, p, locations.Keys, resolver)
    requires q == p.(sample := q.sample) && IdsScoped(p, ids)
    ensures Indexed(q, strings, functions, mappings, locations, resolver)
    ensures FlagsOk(mappings, q, locations.Keys, resolver)
    ensures Extends(p, q) && IdsScoped(q, ids) && MeaningOfStack(q, ids) == MeaningOfStack(p, ids)
  {
    SameWellFormed(p, q);
    IndexedGrow(p, q, strings, strings, functions, mappings, locations, resolver);
    FlagsSame(mappings, p, q, locations.Keys, resolver);
    StackStable(p, q, ids);
    hide Indexed, FlagsOk;
  }

  lemma SameWellFormed(p: Profile, q: Profile)
    requires WellFormed(p) && q == p.(sample := q.sample)
    ensures WellFormed(q)
  {
    forall i | 0 <= i < |q.location|
      ensures LocationScoped(q, q.location[i])
    {
      assert LocationScoped(p, p.location[i]);
      assert forall j :: 0 <= j < |q.location[i].line| ==> LineScoped(p, p.location[i].line[j]);
    }
  }

  // Whole profiles.

  /** Sample `i` carries this key and these values. */
  ghost predicate SampleIs(p: Profile, i: nat, resolver: Resolver, pairs: seq<(string, string)>,
                           key: AttributedStack, values: seq<int>)
    requires i < |p.sample|
  {
    var s := p.sample[i];
    && SampleScoped(p, s)
    && s.value == values
    && MeaningOfStack(p, s.locationId) == IntendedStack(resolver, key.stack)
    && MeaningOfLabels(p, s.labels) == IntendedPairs(pairs) + ThreadMeaning(key.pid, key.tid, key.threadName)
  }

  lemma SampleStable(p: Profile, q: Profile, i: nat, resolver: Resolver, pairs: seq<(string, string)>,
                     key: AttributedStack, values: seq<int>)
    requires WellFormed(p) && WellFormed(q) && Extends(p, q)
    requires i < |p.sample| && i < |q.sample| && p.sample[i] == q.sample[i]
    requires SampleIs(p, i, resolver, pairs, key, values)
    ensures SampleIs(q, i, resolver, pairs, key, values)
  {
    StackStable(p, q, p.sample[i].locationId);
    LabelsStable(p, q, p.sample[i].labels);
    hide WellFormed, Extends, IdsScoped, LabelsScoped;
  }

  /** The samples written so far are those of `order`, one each. */
  ghost predicate Written(p: Profile, resolver: Resolver, pairs: seq<(string, string)>,
                          order: seq<AttributedStack>, samples: map<AttributedStack, seq<int>>)
  {
    && |p.sample| == |order|
    && forall i :: 0 <= i < |order| ==> order[i] in samples && SampleIs(p, i, resolver, pairs, order[i], samples[order[i]])
  }

  lemma WrittenSnoc(p: Profile, q: Profile, resolver: Resolver, pairs: seq<(string, string)>,
                    order: seq<AttributedStack>, samples: map<AttributedStack, seq<int>>, key: AttributedStack)
    requires WellFormed(p) && WellFormed(q) && Extends(p, q)
    requires |q.sample| == |p.sample| + 1 && q.sample[..|p.sample|] == p.sample
    requires Written(p, resolver, pairs, order, samples)
    requires key in samples && SampleIs(q, |p.sample|, resolver, pairs, key, samples[key])
    ensures Written(q, resolver, pairs, order + [key], samples)
  {
    hide WellFormed, Extends, SampleIs;
    forall i | 0 <= i < |order|
      ensures SampleIs(q, i, resolver, pairs, order[i], samples[order[i]])
    {
      assert q.sample[i] == q.sample[..|p.sample|][i];
      SampleStable(p, q, i, resolver, pairs, order[i], samples[order[i]]);
    }
  }

  function AllAddresses(keys: set<AttributedStack>): set<u64> {
    set k, a | k in keys && a in Addresses(k.stack) :: a
  }

  lemma NothingWritten(resolver: Resolver, pairs: seq<(string, string)>, samples: map<AttributedStack, seq<int>>)
    ensures forall q: Profile :: q.sample == [] ==> Written(q, resolver, pairs, [], samples)
  {
  }

  lemma WrittenSize(p: Profile, resolver: Resolver, pairs: seq<(string, string)>, order: seq<AttributedStack>,
                    samples: map<AttributedStack, seq<int>>)
    requires Written(p, resolver, pairs, order, samples)
    ensures |p.sample| == |order|
  {
  }

  /** One turn of the sample loop. */
  method AddNext(builder: ProfileBuilder, ghost resolver: Resolver, pairs: seq<(string, string)>,
                 ghost order: seq<AttributedStack>,
                 samples: map<AttributedStack, seq<int>>, key: AttributedStack, ghost header: Header)
    requires builder.Valid() && builder.resolver == resolver && key in samples
    requires Written(builder.profile, resolver, pairs, order, samples) && HeaderOk(builder.profile, header)
    modifies builder
    ensures builder.Valid() && builder.locations.Keys == old(builder.locations.Keys) + Addresses(key.stack)
    ensures Written(builder.profile, resolver, pairs, order + [key], samples) && HeaderOk(builder.profile, header)
  {
    hide WellFormed, Extends, Indexed, FlagsOk, SampleIs, IntendedPairs, ThreadMeaning, SampleScoped, AllAddresses, HeaderOk;
    IndexedWellFormed(builder.profile, builder.strings, builder.functions, builder.mappings, builder.locations, resolver);
    ghost var before := builder.profile;
    builder.AddAttributed(key, samples[key], pairs);
    IndexedWellFormed(builder.profile, builder.strings, builder.functions, builder.mappings, builder.locations, resolver);
    WrittenSnoc(before, builder.profile, resolver, pairs, order, samples, key);
    HeaderStable(before, builder.profile, header);
  }

  lemma NoOrder()
    ensures NoRepeats([])
  {
  }

  lemma OrderSnoc(order: seq<AttributedStack>, key: AttributedStack)
    requires NoRepeats(order) && key !in (set k | k in order)
    ensures NoRepeats(order + [key]) && (set k | k in order + [key]) == (set k | k in order) + {key}
  {
  }

  lemma NoAddresses()
    ensures AllAddresses({}) == {}
  {
  }

  /** `write_cpu_profile`, `write_raw_cpu_profile` and their off-CPU twins, up to `finish`: the
      aggregated map is walked in any order. A raw profile has no resolver and no target labels. */
  method BuildProfile(samples: map<AttributedStack, seq<int>>, resolver: Resolver, pairs: seq<(string, string)>,
                      header: Header)
    returns (profile: Profile, ghost order: seq<AttributedStack>, ghost mappings: map<MappingInfo, nat>)
    ensures WellFormed(profile) && DistinctStrings(profile.stringTable)
    ensures |profile.sample| == |samples|
    ensures Written(profile, resolver, pairs, order, samples)
    ensures NoRepeats(order) && (set k | k in order) == samples.Keys
    ensures MappingsOk(mappings, profile) && FlagsOk(mappings, profile, AllAddresses(samples.Keys), resolver)
    ensures HeaderOk(profile, header)
  {
    hide WellFormed, Extends, Indexed, FlagsOk, SampleIs, IntendedPairs, ThreadMeaning, SampleScoped, AllAddresses, HeaderOk,
         MappingsOk, DistinctStrings, Written, Addresses, NoRepeats, ProfileBuilder.Valid, ProfileBuilder.Core;
    NothingWritten(resolver, pairs, samples);
    var builder := new ProfileBuilder(resolver, header.timeNanos, header.durationNanos);
    builder.SetHeader(header);
    var remaining := samples.Keys;
    order := [];
    assert samples.Keys - remaining == {};
    NoAddresses();
    NoOrder();
    while remaining != {}
      invariant builder.Valid() && fresh(builder) && builder.resolver == resolver
      invariant remaining <= samples.Keys && |order| + |remaining| == |samples|
      invariant NoRepeats(order) && (set k | k in order) == samples.Keys - remaining
      invariant Written(builder.profile, resolver, pairs, order, samples)
      invariant builder.locations.Keys == AllAddresses(samples.Keys - remaining)
      invariant HeaderOk(builder.profile, header)
      decreases |remaining|
    {
      var key :| key in remaining;
      AddNext(builder, resolver, pairs, order, samples, key, header);
      ghost var done := samples.Keys - remaining;
      assert samples.Keys - (remaining - {key}) == done + {key};
      AddressesSnoc(done, key);
      OrderSnoc(order, key);
      remaining := remaining - {key};
      order := order + [key];
    }
    profile, mappings := builder.profile, builder.mappings;
    builder.Finished();
    WrittenSize(profile, resolver, pairs, order, samples);
    assert samples.Keys - remaining == samples.Keys;
  }

  predicate TypeOk(p: Profile, t: ValueType, kind: (string, string)) {
    && InTable(p, t.kind) && p.stringTable[t.kind] == kind.0
    && InTable(p, t.unit) && p.stringTable[t.unit] == kind.1
  }

  /** What the writers set beside the samples. */
  datatype Header = Header(
    kinds: seq<(string, string)>, periodType: Option<(string, string)>, period: int, defaultKind: string,
    timeNanos: int, durationNanos: int)

  /** The columns, the period, the column shown first and the times are as asked. */
  predicate HeaderOk(p: Profile, h: Header) {
    && |p.sampleType| == |h.kinds| && (forall i :: 0 <= i < |h.kinds| ==> TypeOk(p, p.sampleType[i], h.kinds[i]))
    && (p.periodType.Some? <==> h.periodType.Some?)
    && (p.periodType.Some? ==> TypeOk(p, p.periodType.value, h.periodType.value))
    && p.period == h.period
    && InTable(p, p.defaultSampleType) && p.stringTable[p.defaultSampleType] == h.defaultKind
    && p.timeNanos == h.timeNanos && p.durationNanos == h.durationNanos
  }

  lemma HeaderStable(p: Profile, q: Profile, h: Header)
    requires Extends(p, q) && HeaderOk(p, h)
    ensures HeaderOk(q, h)
  {
    forall i | 0 <= i < |h.kinds|
      ensures TypeOk(q, q.sampleType[i], h.kinds[i])
    {
      assert TypeOk(p, p.sampleType[i], h.kinds[i]);
    }
  }

  lemma HeaderOnly(p: Profile, q: Profile, strings: map<string, int>, functions: map<FunctionKey, nat>,
                  mappings: map<MappingInfo, nat>, locations: map<u64, nat>, resolver: Resolver)
    requires Indexed(p, strings, functions, mappings, locations, resolver)
    requires FlagsOk(mappings, p, locations.Keys, resolver)
    requires locations == map[]
    requires q == p.(sampleType := q.sampleType, periodType := q.periodType, period := q.period,
                     defaultSampleType := q.defaultSampleType)
    ensures Indexed(q, strings, functions, mappings, locations, resolver)
    ensures FlagsOk(mappings, q, locations.Keys, resolver)
  {
    forall i | 0 <= i < |q.location|
      ensures LocationScoped(q, q.location[i])
    {
      assert LocationScoped(p, p.location[i]);
      assert forall j :: 0 <= j < |q.location[i].line| ==> LineScoped(p, p.location[i].line[j]);
    }
    FlagsSame(mappings, p, q, locations.Keys, resolver);
    assert forall m :: m in mappings ==> MeaningOfMapping(q, q.mapping[mappings[m] - 1]) == MeaningOfMapping(p, p.mapping[mappings[m] - 1]);
    assert forall k :: k in functions ==>
      MeaningOfFunction(q, q.function_[functions[k] - 1]) == MeaningOfFunction(p, p.function_[functions[k] - 1]);
    hide FlagsOk;
  }

  lemma {:induction false} MeaningConcat(p: Profile, a: seq<Label>, b: seq<Label>)
    ensures MeaningOfLabels(p, a + b) == MeaningOfLabels(p, a) + MeaningOfLabels(p, b)
    decreases |b|
  {
    if b == [] {
      assert a + b == a;
    } else {
      var n := |b| - 1;
      assert a + b == (a + b[..n]) + [b[n]];
      MeaningSnoc(p, a + b[..n], b[n]);
      MeaningConcat(p, a, b[..n]);
    }
  }

  lemma AddressesSnoc(done: set<AttributedStack>, key: AttributedStack)
    ensures AllAddresses(done + {key}) == AllAddresses(done) + Addresses(key.stack)
  {
  }

  // Reading a profile back.

  function AddressesOf(stack: seq<LocationMeaning>): (r: seq<u64>)
    ensures |r| == |stack|
  {
    seq(|stack|, i requires 0 <= i < |stack| => stack[i].address)
  }

  /** Reads the key of a sample: the addresses of its locations, and the thread from the last
      labels, where a thread name is only there as a string. */
  function DecodeKey(stack: seq<LocationMeaning>, labels: seq<LabelMeaning>): Option<AttributedStack> {
    var n := |labels|;
    if n >= 3 && labels[n - 1].key == "thread.name" && labels[n - 2].NumberLabel? && labels[n - 3].NumberLabel?
       && IsU32(labels[n - 2].num) && IsU32(labels[n - 3].num) then
      Some(AttributedStack(AddressesOf(stack), labels[n - 3].num, labels[n - 2].num,
                           if labels[n - 1].StringLabel? then Some(labels[n - 1].value) else None))
    else if n >= 2 && labels[n - 1].key == "thread.id" && labels[n - 1].NumberLabel? && labels[n - 2].NumberLabel?
            && IsU32(labels[n - 1].num) && IsU32(labels[n - 2].num) then
      Some(AttributedStack(AddressesOf(stack), labels[n - 2].num, labels[n - 1].num, None))
    else None
  }

  predicate IsU32(n: int) {
    0 <= n <= U32_MAX
  }

  /** What an entry is written as reads back as the entry exactly when the thread name is not the empty
      string. */
  lemma EntryRead(resolver: Resolver, pairs: seq<(string, string)>, key: AttributedStack)
    ensures DecodeKey(IntendedStack(resolver, key.stack),
                      IntendedPairs(pairs) + ThreadMeaning(key.pid, key.tid, key.threadName)) == Some(key)
      <==> key.threadName != Some("")
  {
    var thread := ThreadMeaning(key.pid, key.tid, key.threadName);
    var labels := IntendedPairs(pairs) + thread;
    assert AddressesOf(IntendedStack(resolver, key.stack)) == key.stack;
    hide IntendedPairs;
    var m := |IntendedPairs(pairs)|;
    assert labels[m] == thread[0] && labels[m + 1] == thread[1];
    if key.threadName.Some? {
      assert labels[m + 2] == thread[2];
    }
  }

  /** Reading a written sample gives back its key exactly when the thread name is not the empty
      string, which the string table cannot tell from no name. */
  lemma DecodedKey(p: Profile, i: nat, resolver: Resolver, pairs: seq<(string, string)>,
                   key: AttributedStack, values: seq<int>)
    requires i < |p.sample| && SampleIs(p, i, resolver, pairs, key, values)
    ensures DecodeKey(MeaningOfStack(p, p.sample[i].locationId), MeaningOfLabels(p, p.sample[i].labels)) == Some(key)
      <==> key.threadName != Some("")
  {
    EntryRead(resolver, pairs, key);
    hide DecodeKey, MeaningOfLabels, MeaningOfStack, IntendedPairs, SampleScoped;
  }

  // What a reader gets of the resolver's answer.

  function NonEmpty(s: string): Option<string> {
    if s == "" then None else Some(s)
  }

  function ReadLine(m: LineMeaning): SymbolizedLine {
    if m.function_.None? then SymbolizedLine("", "", None, m.line)
    else SymbolizedLine(m.function_.value.name, m.function_.value.systemName, NonEmpty(m.function_.value.filename), m.line)
  }

  function ReadInfo(m: MappingMeaning): MappingInfo {
    MappingInfo(m.start, m.limit, m.offset, 0, m.filename, NonEmpty(m.buildId))
  }

  /** The resolver's answer as a location tells it. */
  function ReadLocation(m: LocationMeaning): ResolvedLocation {
    ResolvedLocation(if m.mapping.Some? then Some(ReadInfo(m.mapping.value)) else None,
                     seq(|m.lines|, i requires 0 <= i < |m.lines| => ReadLine(m.lines[i])))
  }

  /** No text is there and empty, and the part of a mapping that is not written is not asked for. */
  predicate Readable(r: ResolvedLocation) {
    && (r.mapping.Some? ==> r.mapping.value.buildId != Some("") && r.mapping.value.relativeAddressAtStart == 0)
    && forall i :: 0 <= i < |r.lines| ==> r.lines[i].filename != Some("")
  }

  /** Reading a written location gives back the address and the resolver's answer, its functions, files,
      lines and mapping, exactly when none of its optional texts is empty. */
  lemma LocationRead(f: u64 -> ResolvedLocation, address: u64)
    ensures var m := IntendedLocation(Some(f), address);
            m.address == address && (ReadLocation(m) == f(address) <==> Readable(f(address)))
  {
    var m, r := IntendedLocation(Some(f), address), f(address);
    assert forall i :: 0 <= i < |r.lines| ==>
      ReadLocation(m).lines[i] == r.lines[i].(filename := NonEmpty(OrEmpty(r.lines[i].filename)));
    if Readable(r) {
      assert ReadLocation(m).lines == r.lines;
    }
  }

  predicate HasKey(pair: (string, string)) {
    pair.0 != ""
  }

  /** Each label stands for one pair; a text that is empty reads as zero. */
  predicate AreLabelsOf(labels: seq<LabelMeaning>, named: seq<(string, string)>) {
    && |labels| == |named|
    && forall i :: 0 <= i < |named| ==>
         labels[i] == if named[i].1 != "" then StringLabel(named[i].0, named[i].1) else NumberLabel(named[i].0, 0, "")
  }

  lemma OneMoreLabel(labels: seq<LabelMeaning>, named: seq<(string, string)>, pair: (string, string))
    requires AreLabelsOf(labels, named) && HasKey(pair)
    ensures IntendedPair(pair).Some? && AreLabelsOf(labels + [IntendedPair(pair).value], named + [pair])
  {
  }

  lemma NoPairs()
    ensures Selects<(string, string)>([], HasKey, []) && Inside([], 0)
    ensures AreLabelsOf(IntendedPairs([]), Pick<(string, string)>([], []))
  {
  }

  /** The target's labels are those of the pairs with a key, in order. */
  lemma {:induction false} PairsRead(pairs: seq<(string, string)>) returns (picks: seq<nat>)
    ensures Selects(pairs, HasKey, picks) && Inside(picks, |pairs|)
    ensures AreLabelsOf(IntendedPairs(pairs), Pick(pairs, picks))
  {
    hide Selects, Inside, Pick, AreLabelsOf;
    if pairs == [] {
      picks := [];
      NoPairs();
    } else {
      var n := |pairs| - 1;
      var before := PairsRead(pairs[..n]);
      SelectsPush(pairs[..n], pairs[n], HasKey, before);
      PickPush(pairs[..n], pairs[n], before);
      assert pairs == pairs[..n] + [pairs[n]];
      picks := if HasKey(pairs[n]) then before + [n] else before;
      SelectsInside(pairs, HasKey, picks);
      if HasKey(pairs[n]) {
        OneMoreLabel(IntendedPairs(pairs[..n]), Pick(pairs[..n], before), pairs[n]);
      }
      assert IntendedPairs(pairs[..n]) + [] == IntendedPairs(pairs[..n]);
    }
  }

  function DecodeSample(p: Profile, i: nat): Option<(AttributedStack, seq<int>)>
    requires i < |p.sample|
  {
    var key := DecodeKey(MeaningOfStack(p, p.sample[i].locationId), MeaningOfLabels(p, p.sample[i].labels));
    if key.Some? then Some((key.value, p.sample[i].value)) else None
  }

  /** Some sample of the profile reads as this entry. */
  ghost predicate Reads(p: Profile, key: AttributedStack, values: seq<int>) {
    exists i :: 0 <= i < |p.sample| && DecodeSample(p, i) == Some((key, values))
  }

  /** The round trip: when no thread name is empty, the entries read from a written profile are
      those of the aggregated map, each read from exactly one sample. */
  lemma RoundTrip(p: Profile, resolver: Resolver, pairs: seq<(string, string)>,
                  order: seq<AttributedStack>, samples: map<AttributedStack, seq<int>>)
    requires Written(p, resolver, pairs, order, samples)
    requires NoRepeats(order) && (set k | k in order) == samples.Keys
    requires forall k :: k in samples ==> k.threadName != Some("")
    ensures forall k, v :: (k in samples && samples[k] == v) <==> Reads(p, k, v)
    ensures forall i, j :: 0 <= i < j < |p.sample| ==> DecodeSample(p, i) != DecodeSample(p, j)
  {
    forall i | 0 <= i < |order|
      ensures DecodeSample(p, i) == Some((order[i], samples[order[i]]))
    {
      DecodedKey(p, i, resolver, pairs, order[i], samples[order[i]]);
    }
    forall k, v | k in samples && samples[k] == v
      ensures Reads(p, k, v)
    {
      assert k in (set x | x in order);
      var i :| 0 <= i < |order| && order[i] == k;
      assert DecodeSample(p, i) == Some((k, v));
      assert Reads(p, k, v);
    }
    hide DecodeSample, SampleIs;
    forall k, v, i | 0 <= i < |p.sample| && DecodeSample(p, i) == Some((k, v))
      ensures k in samples && samples[k] == v
    {
      assert order[i] in (set x | x in order);
    }
  }

  predicate NoRepeats(order: seq<AttributedStack>) {
    forall i, j :: 0 <= i < j < |order| ==> order[i] != order[j]
  }
}
