/** `DictionaryBuilder` and the lookups it interns through: src/otlp/mod.rs, lines 355-637. */
module OtlpDictionaryBuilder {
  import opened Machine
  import opened PprofProfile
  import opened OtlpDictionary

  const HTL_HASH := "process.executable.build_id.htlhash"

  function FlagAttribute(key: string, flag: bool): AttributeMeaning {
    AttributeMeaning(key, BoolValue(flag), "")
  }

  function IdentityAttributes(buildId: string, hash: Option<string>): seq<AttributeMeaning> {
    (if buildId == "" then [] else [AttributeMeaning(GNU_BUILD_ID, StringValue(buildId), "")])
    + (if hash.None? then [] else [AttributeMeaning(HTL_HASH, StringValue(hash.value), "")])
  }

  /** The attributes of a mapping that is seen for the first time. */
  function MappingAttributes(m: Mapping, buildId: string, hash: Option<string>): seq<AttributeMeaning> {
    IdentityAttributes(buildId, hash)
    + [FlagAttribute("pprof.mapping.has_functions", m.hasFunctions),
       FlagAttribute("pprof.mapping.has_filenames", m.hasFilenames),
       FlagAttribute("pprof.mapping.has_line_numbers", m.hasLineNumbers),
       FlagAttribute("pprof.mapping.has_inline_frames", m.hasInlineFrames)]
  }

  lemma {:induction false} NoBuildId(attributes: seq<AttributeMeaning>)
    requires forall k :: 0 <= k < |attributes| ==> attributes[k].key != GNU_BUILD_ID || !attributes[k].value.StringValue?
    ensures BuildIdOf(attributes) == ""
  {
    if attributes != [] {
      NoBuildId(attributes[1..]);
    }
  }

  lemma MappingAttributesBuildId(m: Mapping, buildId: string, hash: Option<string>)
    ensures BuildIdOf(MappingAttributes(m, buildId, hash)) == buildId
  {
    var rest := MappingAttributes(m, "", hash);
    assert |HTL_HASH| != |GNU_BUILD_ID|;
    NoBuildId(rest);
    if buildId != "" {
      assert MappingAttributes(m, buildId, hash)[1..] == rest;
    }
  }

  /** The index fields of the source's builder are the maps of `index`; its tables are those of
      `tables`. `Indexed` ties each map to its table. */
  class DictionaryBuilder {
    var tables: Dictionary
    var index: Caches

    /** The hash of the mapped file over an address range, when it can be computed. */
    const hashes: (nat, nat) -> Option<string>

    ghost predicate Valid()
      reads this
    {
      Indexed(tables, index)
    }

    constructor (hashes: (nat, nat) -> Option<string>)
      ensures Valid() && tables == EMPTY_DICTIONARY && this.hashes == hashes
    {
      this.hashes := hashes;
      tables, index := EMPTY_DICTIONARY, EMPTY_CACHES;
    }

    method InternString(value: string) returns (r: nat)
      requires Valid()
      modifies this
      ensures Valid() && Extends(old(tables), tables)
      ensures r < |tables.strings| && tables.strings[r] == value
      ensures value == "" ==> r == 0
      ensures tables == old(tables).(strings := tables.strings) && index == old(index).(strings := index.strings)
    {
      if value in index.strings {
        return index.strings[value];
      }
      PushString(tables, index, value);
      r := |tables.strings|;
      tables := tables.(strings := tables.strings + [value]);
      index := index.(strings := index.strings[value := r]);
    }

    /** `intern_attribute_string`, `intern_attribute_bool` and `intern_attribute_i64`: they differ in
        the kind of value, which the cache key records. Only the last interns a unit. */
    method InternAttribute(a: AttributeMeaning) returns (r: nat)
      requires Valid() && IsAttribute(a)
      modifies this
      ensures Valid() && Extends(old(tables), tables)
      ensures 0 < r < |tables.attributes| && DecodeAttribute(tables, r) == a
      ensures tables == old(tables).(strings := tables.strings, attributes := tables.attributes)
      ensures index == old(index).(strings := index.strings, attributes := index.attributes)
    {
      hide CacheText, WellFormed, Indexed;
      var cacheKey := (a.key, CacheText(a.value, a.unit));
      if cacheKey in index.attributes {
        AttributeHit(tables, index, a);
        return index.attributes[cacheKey];
      }
      var key := InternString(a.key);
      var unit := 0;
      if a.value.IntValue? {
        unit := InternString(a.unit);
      }
      IndexedFacts(tables, index);
      var entry := OAttribute(key, a.value, unit);
      assert ReadAttribute(tables, entry) == a;
      PushAttribute(tables, index, entry);
      r := |tables.attributes|;
      tables := tables.(attributes := tables.attributes + [entry]);
      index := index.(attributes := index.attributes[cacheKey := r]);
    }

    /** A label without a key is dropped; a string index of zero makes it numeric. */
    method InternPprofLabel(source: Profile, label_: Label) returns (r: Option<nat>)
      requires Valid()
      modifies this
      ensures Valid() && Extends(old(tables), tables)
      ensures r.Some? <==> MeaningOfLabel(source, label_).Some?
      ensures r.Some? ==> 0 < r.value < |tables.attributes|
                          && DecodeAttribute(tables, r.value) == AttributeOf(MeaningOfLabel(source, label_).value)
    {
      var key := StringAt(source.stringTable, label_.key);
      if key == "" {
        return None;
      }
      var i: nat;
      if label_.str != 0 {
        i := InternAttribute(AttributeMeaning(key, StringValue(StringAt(source.stringTable, label_.str)), ""));
      } else {
        i := InternAttribute(AttributeMeaning(key, IntValue(label_.num), StringAt(source.stringTable, label_.numUnit)));
      }
      return Some(i);
    }

    /** Interns one more attribute of a mapping. */
    method AppendAttribute(attributes: seq<nat>, a: AttributeMeaning) returns (r: seq<nat>)
      requires Valid() && IsAttribute(a)
      requires forall k :: 0 <= k < |attributes| ==> attributes[k] < |tables.attributes|
      modifies this
      ensures Valid() && Extends(old(tables), tables)
      ensures forall k :: 0 <= k < |r| ==> r[k] < |tables.attributes|
      ensures DecodeAttributes(tables, r) == DecodeAttributes(old(tables), attributes) + [a]
      ensures tables == old(tables).(strings := tables.strings, attributes := tables.attributes)
      ensures index == old(index).(strings := index.strings, attributes := index.attributes)
    {
      var i := InternAttribute(a);
      r := attributes + [i];
      AttributesStable(old(tables), tables, attributes);
    }

    method InternIdentity(mapping: Mapping, buildId: string) returns (r: seq<nat>)
      requires Valid()
      modifies this
      ensures Valid() && Extends(old(tables), tables)
      ensures DecodeAttributes(tables, r)
           == IdentityAttributes(buildId, hashes(mapping.memoryStart, mapping.memoryLimit))
      ensures forall k :: 0 <= k < |r| ==> r[k] < |tables.attributes|
      ensures tables == old(tables).(strings := tables.strings, attributes := tables.attributes)
      ensures index == old(index).(strings := index.strings, attributes := index.attributes)
    {
      hide Indexed, DecodeAttributes;
      r := [];
      if buildId != "" {
        r := AppendAttribute(r, AttributeMeaning(GNU_BUILD_ID, StringValue(buildId), ""));
      }
      var hash := hashes(mapping.memoryStart, mapping.memoryLimit);
      if hash.Some? {
        r := AppendAttribute(r, AttributeMeaning(HTL_HASH, StringValue(hash.value), ""));
      }
    }

    /** The attributes of a mapping seen for the first time. */
    method InternMappingAttributes(mapping: Mapping, buildId: string) returns (r: seq<nat>)
      requires Valid()
      modifies this
      ensures Valid() && Extends(old(tables), tables)
      ensures DecodeAttributes(tables, r)
           == MappingAttributes(mapping, buildId, hashes(mapping.memoryStart, mapping.memoryLimit))
      ensures forall k :: 0 <= k < |r| ==> r[k] < |tables.attributes|
      ensures tables == old(tables).(strings := tables.strings, attributes := tables.attributes)
      ensures index == old(index).(strings := index.strings, attributes := index.attributes)
    {
      hide Indexed, WellFormed, DecodeAttributes, IdentityAttributes;
      r := InternIdentity(mapping, buildId);
      r := AppendAttribute(r, FlagAttribute("pprof.mapping.has_functions", mapping.hasFunctions));
      r := AppendAttribute(r, FlagAttribute("pprof.mapping.has_filenames", mapping.hasFilenames));
      r := AppendAttribute(r, FlagAttribute("pprof.mapping.has_line_numbers", mapping.hasLineNumbers));
      r := AppendAttribute(r, FlagAttribute("pprof.mapping.has_inline_frames", mapping.hasInlineFrames));
    }

    method InternMapping(source: Profile, mapping: Mapping) returns (r: nat)
      requires Valid()
      modifies this
      ensures Valid() && Extends(old(tables), tables)
      ensures 0 < r < |tables.mappings| && DecodeMapping(tables, r) == Some(MeaningOfMapping(source, mapping))
      ensures |old(tables).mappings| < |tables.mappings| ==>
        DecodeAttributes(tables, tables.mappings[r].attributes)
          == MappingAttributes(mapping, StringAt(source.stringTable, mapping.buildId),
                               hashes(mapping.memoryStart, mapping.memoryLimit))
      ensures tables == old(tables).(strings := tables.strings, attributes := tables.attributes, mappings := tables.mappings)
      ensures index == old(index).(strings := index.strings, attributes := index.attributes, mappings := index.mappings)
    {
      hide WellFormed, Indexed, BuildIdOf, DecodeAttributes, MappingAttributes;
      var key := MeaningOfMapping(source, mapping);
      if key in index.mappings {
        MappingHit(tables, index, key);
        return index.mappings[key];
      }
      var attributes := InternMappingAttributes(mapping, key.buildId);
      ghost var named := tables;
      IndexedFacts(tables, index);
      var filename := InternString(key.filename);
      AttributesStable(named, tables, attributes);
      IndexedFacts(tables, index);
      var entry := OMapping(mapping.memoryStart, mapping.memoryLimit, mapping.fileOffset, filename, attributes);
      MappingAttributesBuildId(mapping, key.buildId, hashes(mapping.memoryStart, mapping.memoryLimit));
      assert ReadMapping(tables, entry) == key;
      PushMapping(tables, index, entry);
      NewMapping(tables, entry);
      r := |tables.mappings|;
      tables := tables.(mappings := tables.mappings + [entry]);
      index := index.(mappings := index.mappings[key := r]);
    }

    method InternFunction(source: Profile, function_: Function) returns (r: nat)
      requires Valid()
      modifies this
      ensures Valid() && Extends(old(tables), tables)
      ensures 0 < r < |tables.functions| && DecodeFunction(tables, r) == Some(MeaningOfFunction(source, function_))
      ensures tables == old(tables).(strings := tables.strings, functions := tables.functions)
      ensures index == old(index).(strings := index.strings, functions := index.functions)
    {
      hide WellFormed, Indexed;
      var key := MeaningOfFunction(source, function_);
      if key in index.functions {
        FunctionHit(tables, index, key);
        return index.functions[key];
      }
      var name := InternString(key.name);
      var systemName := InternString(key.systemName);
      var filename := InternString(key.filename);
      IndexedFacts(tables, index);
      var entry := OFunction(name, systemName, filename, key.startLine);
      PushFunction(tables, index, entry);
      r := |tables.functions|;
      tables := tables.(functions := tables.functions + [entry]);
      index := index.(functions := index.functions[key := r]);
    }

    /** Lines naming an unknown function keep the index zero. */
    method InternLines(source: Profile, lines: seq<Line>) returns (r: seq<OLine>)
      requires Valid()
      modifies this
      ensures Valid() && Extends(old(tables), tables)
      ensures LinesIn(tables, r) && DecodeLines(tables, r) == MeaningOfLines(source, lines)
      ensures tables == old(tables).(strings := tables.strings, functions := tables.functions)
      ensures index == old(index).(strings := index.strings, functions := index.functions)
    {
      r := [];
      for i := 0 to |lines|
        invariant Valid() && Extends(old(tables), tables)
        invariant |r| == i && LinesIn(tables, r)
        invariant forall k :: 0 <= k < i ==> DecodeLine(tables, r[k]) == MeaningOfLine(source, lines[k])
        invariant tables == old(tables).(strings := tables.strings, functions := tables.functions)
        invariant index == old(index).(strings := index.strings, functions := index.functions)
      {
        ghost var before := tables;
        var f := FindFunction(source.function_, lines[i].functionId);
        var functionIndex := 0;
        if f.Some? {
          functionIndex := InternFunction(source, f.value);
        }
        LinesStable(before, tables, r);
        forall k | 0 <= k < i
          ensures DecodeLine(tables, r[k]) == MeaningOfLine(source, lines[k])
        {
          assert DecodeLines(tables, r)[k] == DecodeLines(before, r)[k];
        }
        r := r + [OLine(functionIndex, lines[i].line, lines[i].column)];
      }
    }

    /** The mapping and lines of a location, interned. */
    method InternLocationKey(source: Profile, location: Location) returns (key: LocationKey)
      requires Valid()
      modifies this
      ensures Valid() && Extends(old(tables), tables)
      ensures key.mapping < |tables.mappings| && LinesIn(tables, key.lines)
      ensures LocationMeaning(key.address, DecodeMapping(tables, key.mapping), DecodeLines(tables, key.lines))
           == MeaningOfLocation(source, location)
      ensures tables.locations == old(tables).locations && tables.stacks == old(tables).stacks
      ensures index.locations == old(index).locations && index.stacks == old(index).stacks
    {
      hide WellFormed, Indexed, FindMapping, DecodeMapping, MeaningOfMapping, MeaningOfLines, DecodeLines;
      IndexedFacts(tables, index);
      var m := FindMapping(source.mapping, location.mappingId);
      var mapping := 0;
      if m.Some? {
        mapping := InternMapping(source, m.value);
      }
      ghost var mapped := tables;
      IndexedFacts(tables, index);
      var lines := InternLines(source, location.line);
      MappingStable(mapped, tables, mapping);
      key := LocationKey(location.address, mapping, lines);
    }

    method InternLocation(source: Profile, location: Location) returns (r: nat)
      requires Valid()
      modifies this
      ensures Valid() && Extends(old(tables), tables)
      ensures 0 < r < |tables.locations| && DecodeLocation(tables, r) == MeaningOfLocation(source, location)
      ensures tables.stacks == old(tables).stacks && index.stacks == old(index).stacks
    {
      hide WellFormed, Indexed, DecodeMapping, MeaningOfLocation, DecodeLines, DecodeLocation;
      var key := InternLocationKey(source, location);
      if key in index.locations {
        LocationHit(tables, index, key);
        return index.locations[key];
      }
      ghost var lined := tables;
      IndexedFacts(tables, index);
      var attributes := [];
      if location.isFolded {
        var a := InternAttribute(FlagAttribute("pprof.location.is_folded", true));
        attributes := [a];
      }
      IndexedFacts(tables, index);
      MappingStable(lined, tables, key.mapping);
      LinesStable(lined, tables, key.lines);
      var entry := OLocation(key.mapping, key.address, key.lines, attributes);
      PushLocation(tables, index, entry);
      NewLocation(tables, entry);
      r := |tables.locations|;
      tables := tables.(locations := tables.locations + [entry]);
      index := index.(locations := index.locations[key := r]);
    }

    method InternStack(locations: seq<nat>) returns (r: nat)
      requires Valid() && StackIn(tables, locations)
      modifies this
      ensures Valid() && Extends(old(tables), tables)
      ensures 0 < r < |tables.stacks| && tables.stacks[r] == locations && tables.locations == old(tables).locations
      ensures DecodeStack(tables, r) == DecodeLocations(old(tables), locations)
    {
      if locations in index.stacks {
        return index.stacks[locations];
      }
      PushStack(tables, index, locations);
      ghost var full := tables.(stacks := tables.stacks + [locations]);
      LocationsStable(tables, full, locations);
      r := |tables.stacks|;
      tables := tables.(stacks := tables.stacks + [locations]);
      index := index.(stacks := index.stacks[locations := r]);
    }
  }
}
