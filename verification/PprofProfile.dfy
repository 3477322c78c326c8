/** The pprof message types of src/pprof.rs, lines 18-142, and what a reader makes of them by ids
    and string table (message `Profile` of pprof's `profile.proto`). */
module PprofProfile {
  import opened Machine

  datatype ValueType = ValueType(kind: int, unit: int)
  datatype Label = Label(key: int, str: int, num: int, numUnit: int)
  datatype Sample = Sample(locationId: seq<nat>, value: seq<int>, labels: seq<Label>)
  datatype Mapping = Mapping(
    id: nat, memoryStart: nat, memoryLimit: nat, fileOffset: nat, filename: int, buildId: int,
    hasFunctions: bool, hasFilenames: bool, hasLineNumbers: bool, hasInlineFrames: bool)
  datatype Line = Line(functionId: nat, line: int, column: int)
  datatype Location = Location(id: nat, mappingId: nat, address: u64, line: seq<Line>, isFolded: bool)
  datatype Function = Function(id: nat, name: int, systemName: int, filename: int, startLine: int)

  datatype Profile = Profile(
    sampleType: seq<ValueType>, sample: seq<Sample>, mapping: seq<Mapping>, location: seq<Location>,
    function_: seq<Function>, stringTable: seq<string>,
    timeNanos: int, durationNanos: int, periodType: Option<ValueType>, period: int, defaultSampleType: int)

  // What the messages mean to a reader.

  datatype FunctionMeaning = FunctionMeaning(name: string, systemName: string, filename: string, startLine: int)
  datatype LineMeaning = LineMeaning(function_: Option<FunctionMeaning>, line: int, column: int)
  datatype MappingMeaning = MappingMeaning(start: nat, limit: nat, offset: nat, filename: string, buildId: string)
  datatype LocationMeaning = LocationMeaning(address: u64, mapping: Option<MappingMeaning>, lines: seq<LineMeaning>)
  datatype LabelMeaning = StringLabel(key: string, value: string) | NumberLabel(key: string, num: int, unit: string)

  /** `pprof_string`: an index outside the table reads as the empty string. */
  function StringAt(table: seq<string>, index: int): string {
    if 0 <= index < |table| then table[index] else ""
  }

  function MeaningOfFunction(p: Profile, f: Function): FunctionMeaning {
    FunctionMeaning(StringAt(p.stringTable, f.name), StringAt(p.stringTable, f.systemName),
                    StringAt(p.stringTable, f.filename), f.startLine)
  }

  function MeaningOfMapping(p: Profile, m: Mapping): MappingMeaning {
    MappingMeaning(m.memoryStart, m.memoryLimit, m.fileOffset,
                   StringAt(p.stringTable, m.filename), StringAt(p.stringTable, m.buildId))
  }

  /** The last entry with an id, as collecting into a hash map keeps it. */
  function FindFunction(fs: seq<Function>, id: nat): Option<Function> {
    if fs == [] then None
    else if fs[|fs| - 1].id == id then Some(fs[|fs| - 1]) else FindFunction(fs[..|fs| - 1], id)
  }

  function FindMapping(ms: seq<Mapping>, id: nat): Option<Mapping> {
    if ms == [] then None
    else if ms[|ms| - 1].id == id then Some(ms[|ms| - 1]) else FindMapping(ms[..|ms| - 1], id)
  }

  function FindLocation(ls: seq<Location>, id: nat): Option<Location> {
    if ls == [] then None
    else if ls[|ls| - 1].id == id then Some(ls[|ls| - 1]) else FindLocation(ls[..|ls| - 1], id)
  }

  function MeaningOfLine(p: Profile, l: Line): LineMeaning {
    var f := FindFunction(p.function_, l.functionId);
    LineMeaning(if f.Some? then Some(MeaningOfFunction(p, f.value)) else None, l.line, l.column)
  }

  function MeaningOfLines(p: Profile, ls: seq<Line>): (r: seq<LineMeaning>)
    ensures |r| == |ls|
  {
    seq(|ls|, i requires 0 <= i < |ls| => MeaningOfLine(p, ls[i]))
  }

  function MeaningOfLocation(p: Profile, l: Location): LocationMeaning {
    var m := FindMapping(p.mapping, l.mappingId);
    LocationMeaning(l.address, if m.Some? then Some(MeaningOfMapping(p, m.value)) else None, MeaningOfLines(p, l.line))
  }

  /** The stack of a sample; ids that name no location are skipped. */
  function MeaningOfStack(p: Profile, ids: seq<nat>): seq<LocationMeaning> {
    if ids == [] then []
    else
      var n := |ids| - 1;
      var l := FindLocation(p.location, ids[n]);
      MeaningOfStack(p, ids[..n]) + (if l.Some? then [MeaningOfLocation(p, l.value)] else [])
  }

  /** A label without a key means nothing; a string index of zero makes it numeric. */
  function MeaningOfLabel(p: Profile, l: Label): Option<LabelMeaning> {
    var key := StringAt(p.stringTable, l.key);
    if key == "" then None
    else if l.str != 0 then Some(StringLabel(key, StringAt(p.stringTable, l.str)))
    else Some(NumberLabel(key, l.num, StringAt(p.stringTable, l.numUnit)))
  }

  function MeaningOfLabels(p: Profile, ls: seq<Label>): seq<LabelMeaning> {
    if ls == [] then []
    else
      var n := |ls| - 1;
      var m := MeaningOfLabel(p, ls[n]);
      MeaningOfLabels(p, ls[..n]) + (if m.Some? then [m.value] else [])
  }

  function ValueAt(s: Sample, index: nat): int {
    if index < |s.value| then s.value[index] else 0
  }

  /** With ids dense from 1, an id finds the entry at that position. */
  lemma {:induction false} DenseFunctions(fs: seq<Function>, id: nat)
    requires forall i :: 0 <= i < |fs| ==> fs[i].id == i + 1
    ensures FindFunction(fs, id) == if 1 <= id <= |fs| then Some(fs[id - 1]) else None
  {
    if fs != [] {
      DenseFunctions(fs[..|fs| - 1], id);
    }
  }

  lemma {:induction false} DenseMappings(ms: seq<Mapping>, id: nat)
    requires forall i :: 0 <= i < |ms| ==> ms[i].id == i + 1
    ensures FindMapping(ms, id) == if 1 <= id <= |ms| then Some(ms[id - 1]) else None
  {
    if ms != [] {
      DenseMappings(ms[..|ms| - 1], id);
    }
  }

  lemma {:induction false} DenseLocations(ls: seq<Location>, id: nat)
    requires forall i :: 0 <= i < |ls| ==> ls[i].id == i + 1
    ensures FindLocation(ls, id) == if 1 <= id <= |ls| then Some(ls[id - 1]) else None
  {
    if ls != [] {
      DenseLocations(ls[..|ls| - 1], id);
    }
  }
}
