/** A window's outputs and the worker that writes them: src/platform/linux/record.rs, lines 366-409,
    704-1021, 1275-1280 and 2111-2128. */
module OutputWriter {
  import opened Machine
  import opened Publication

  datatype ProfileOutput = ProfileOutput(path: Path, svg: Option<Path>)
  datatype OtlpStatus = Disabled | Pending | Dropped
  datatype Backpressure = NoBackpressure | Shed(pendingWindows: nat, filesSkipped: nat, otlpSkipped: bool)

  predicate IsPrimary(p: Path) {
    p.kind.CpuProfile? || p.kind.HeapProfile? || p.kind.OffCpuProfile? || p.kind.Diagnostics?
  }

  function Primary(paths: seq<Path>): seq<Path> {
    if paths == [] then [] else (if IsPrimary(paths[0]) then [paths[0]] else []) + Primary(paths[1..])
  }

  lemma {:induction false} PrimaryConcat(a: seq<Path>, b: seq<Path>)
    ensures Primary(a + b) == Primary(a) + Primary(b)
  {
    hide IsPrimary;
    if a == [] {
      assert a + b == b;
    } else {
      var head := if IsPrimary(a[0]) then [a[0]] else [];
      PrimaryConcat(a[1..], b);
      assert (a + b)[0] == a[0] && (a + b)[1..] == a[1..] + b;
      calc {
        Primary(a + b);
        head + Primary(a[1..] + b);
        head + (Primary(a[1..]) + Primary(b));
        (head + Primary(a[1..])) + Primary(b);
      }
    }
  }

  function PathOf(o: Option<Path>): seq<Path> {
    if o.Some? then [o.value] else []
  }

  lemma PathIs(o: Option<Path>)
    ensures PathOf(o) == if o.Some? then [o.value] else []
  {
  }

  function PathsOf(o: Option<ProfileOutput>): seq<Path> {
    if o.Some? then [o.value.path] + PathOf(o.value.svg) else []
  }

  /** A profile output of these kinds, named after its window. */
  predicate NamedAs(o: Option<ProfileOutput>, profile: Kind, svg: Kind, index: nat) {
    o.Some? ==> o.value.path == Path(profile, index) && (o.value.svg.Some? ==> o.value.svg.value == Path(svg, index))
  }

  function WithoutSvg(o: Option<ProfileOutput>): Option<ProfileOutput> {
    if o.Some? then Some(o.value.(svg := None)) else None
  }

  lemma PrimaryOfProfile(o: Option<ProfileOutput>, profile: Kind, svg: Kind, index: nat)
    requires NamedAs(o, profile, svg, index)
    requires IsPrimary(Path(profile, index)) && !IsPrimary(Path(svg, index))
    ensures Primary(PathsOf(o)) == PathsOf(WithoutSvg(o))
  {
    if o.Some? {
      PrimaryConcat([o.value.path], PathOf(o.value.svg));
    }
  }

  /** A profile's output, announced in the window's list. */
  method Announce(outputs: seq<Path>, wanted: bool, profile: Kind, svg: Option<Kind>, index: nat)
    returns (o: Option<ProfileOutput>, r: seq<Path>)
    ensures o.Some? <==> wanted
    ensures wanted ==> o.value.path == Path(profile, index)
    ensures wanted ==> o.value.svg == if svg.Some? then Some(Path(svg.value, index)) else None
    ensures r == outputs + PathsOf(o)
  {
    o, r := None, outputs;
    if wanted {
      o := Some(ProfileOutput(Path(profile, index), None));
      r := r + [Path(profile, index)];
      if svg.Some? {
        o := Some(o.value.(svg := Some(Path(svg.value, index))));
        r := r + [Path(svg.value, index)];
      }
    }
  }

  /** `retain(|path| !removed.contains(path))`. */
  method Retain(paths: seq<Path>, removed: set<Path>) returns (r: seq<Path>)
    requires forall p :: p in paths ==> (p in removed <==> !IsPrimary(p))
    ensures r == Primary(paths)
  {
    r := [];
    assert paths[..0] == [];
    for i := 0 to |paths|
      invariant r == Primary(paths[..i])
    {
      assert paths[..i + 1] == paths[..i] + [paths[i]];
      PrimaryConcat(paths[..i], [paths[i]]);
      if paths[i] !in removed {
        r := r + [paths[i]];
      }
    }
    assert paths[..|paths|] == paths;
  }

  /** `svg.take()` on a profile's output. */
  method TakeSvg(o: Option<ProfileOutput>, removed: set<Path>) returns (r: Option<ProfileOutput>, more: set<Path>)
    ensures r == WithoutSvg(o) && more == removed + SvgOf(o)
  {
    r, more := o, removed;
    if o.Some? && o.value.svg.Some? {
      more := removed + {o.value.svg.value};
      r := Some(o.value.(svg := None));
    }
  }

  function PlanOf(cpu: Option<ProfileOutput>, heap: Option<ProfileOutput>, offCpu: Option<ProfileOutput>,
                  firefox: Option<Path>, diagnostics: Path): seq<Path>
  {
    PathsOf(cpu) + PathsOf(heap) + PathsOf(offCpu) + PathOf(firefox) + [diagnostics]
  }

  predicate AllNamed(cpu: Option<ProfileOutput>, heap: Option<ProfileOutput>, offCpu: Option<ProfileOutput>,
                     firefox: Option<Path>, diagnostics: Path, index: nat)
  {
    && NamedAs(cpu, CpuProfile, CpuSvg, index) && NamedAs(heap, HeapProfile, HeapSvg, index)
    && NamedAs(offCpu, OffCpuProfile, OffCpuSvg, index)
    && (firefox.Some? ==> firefox.value == Path(Firefox, index)) && diagnostics == Path(Diagnostics, index)
  }

  function SvgOf(o: Option<ProfileOutput>): set<Path> {
    if o.Some? && o.value.svg.Some? then {o.value.svg.value} else {}
  }

  /** The outputs that can be made again from the profiles. */
  function Derived(cpu: Option<ProfileOutput>, heap: Option<ProfileOutput>, offCpu: Option<ProfileOutput>,
                   firefox: Option<Path>): set<Path>
  {
    SvgOf(cpu) + SvgOf(heap) + SvgOf(offCpu) + (if firefox.Some? then {firefox.value} else {})
  }

  lemma PrimaryPlan(cpu: Option<ProfileOutput>, heap: Option<ProfileOutput>, offCpu: Option<ProfileOutput>,
                    firefox: Option<Path>, diagnostics: Path, index: nat)
    requires AllNamed(cpu, heap, offCpu, firefox, diagnostics, index)
    ensures Primary(PlanOf(cpu, heap, offCpu, firefox, diagnostics))
         == PlanOf(WithoutSvg(cpu), WithoutSvg(heap), WithoutSvg(offCpu), None, diagnostics)
  {
    var a, b, c := PathsOf(cpu), PathsOf(heap), PathsOf(offCpu);
    var d, e := PathOf(firefox), [diagnostics];
    PrimaryOfProfile(cpu, CpuProfile, CpuSvg, index);
    PrimaryOfProfile(heap, HeapProfile, HeapSvg, index);
    PrimaryOfProfile(offCpu, OffCpuProfile, OffCpuSvg, index);
    PrimaryOfFirefox(firefox, diagnostics, index);
    hide Primary, PathsOf, PathOf;
    PrimaryConcat(a, b);
    PrimaryConcat(a + b, c);
    PrimaryConcat(a + b + c, d);
    PrimaryConcat(a + b + c + d, e);
  }

  lemma PrimaryOfFirefox(firefox: Option<Path>, diagnostics: Path, index: nat)
    requires (firefox.Some? ==> firefox.value == Path(Firefox, index)) && diagnostics == Path(Diagnostics, index)
    ensures Primary(PathOf(firefox)) == [] && Primary([diagnostics]) == [diagnostics]
  {
    assert [diagnostics] + Primary([]) == [diagnostics];
  }

  lemma ProfileKinds(o: Option<ProfileOutput>, profile: Kind, svg: Kind, index: nat)
    requires NamedAs(o, profile, svg, index) && profile != svg
    ensures forall p :: p in PathsOf(o) ==> p.kind == profile || p in SvgOf(o)
    ensures forall p :: p in SvgOf(o) ==> p.kind == svg
    ensures |SvgOf(o)| == |PathsOf(o)| - |PathsOf(WithoutSvg(o))|
  {
  }

  lemma Cardinality(a: set<Path>, b: set<Path>)
    requires a !! b
    ensures |a + b| == |a| + |b|
  {
  }

  lemma DerivedKinds(cpu: Option<ProfileOutput>, heap: Option<ProfileOutput>, offCpu: Option<ProfileOutput>,
                     firefox: Option<Path>, diagnostics: Path, index: nat)
    requires AllNamed(cpu, heap, offCpu, firefox, diagnostics, index)
    ensures forall p :: p in PlanOf(cpu, heap, offCpu, firefox, diagnostics) ==>
      (p in Derived(cpu, heap, offCpu, firefox) <==> !IsPrimary(p))
  {
    hide PlanOf, SvgOf, PathsOf, Derived, IsPrimary, NamedAs;
    forall p | p in PlanOf(cpu, heap, offCpu, firefox, diagnostics)
      ensures p in Derived(cpu, heap, offCpu, firefox) <==> !IsPrimary(p)
    {
      PlanMember(cpu, heap, offCpu, firefox, diagnostics, p);
      PathKind(cpu, CpuProfile, CpuSvg, index, p);
      PathKind(heap, HeapProfile, HeapSvg, index, p);
      PathKind(offCpu, OffCpuProfile, OffCpuSvg, index, p);
      DerivedByKind(cpu, heap, offCpu, firefox, diagnostics, index, p);
    }
  }

  lemma PathKind(o: Option<ProfileOutput>, profile: Kind, svg: Kind, index: nat, p: Path)
    requires NamedAs(o, profile, svg, index) && profile != svg
    ensures p in PathsOf(o) ==> (p.kind == svg && p in SvgOf(o)) || (p.kind == profile && p !in SvgOf(o))
    ensures p in SvgOf(o) ==> p.kind == svg
  {
  }

  lemma DerivedByKind(cpu: Option<ProfileOutput>, heap: Option<ProfileOutput>, offCpu: Option<ProfileOutput>,
                      firefox: Option<Path>, diagnostics: Path, index: nat, p: Path)
    requires firefox.Some? ==> firefox.value == Path(Firefox, index)
    requires diagnostics == Path(Diagnostics, index)
    requires p in SvgOf(cpu) ==> p.kind == CpuSvg
    requires p in SvgOf(heap) ==> p.kind == HeapSvg
    requires p in SvgOf(offCpu) ==> p.kind == OffCpuSvg
    requires p in PathsOf(cpu) ==> (p.kind == CpuSvg && p in SvgOf(cpu)) || (p.kind == CpuProfile && p !in SvgOf(cpu))
    requires p in PathsOf(heap) ==> (p.kind == HeapSvg && p in SvgOf(heap)) || (p.kind == HeapProfile && p !in SvgOf(heap))
    requires p in PathsOf(offCpu) ==>
      (p.kind == OffCpuSvg && p in SvgOf(offCpu)) || (p.kind == OffCpuProfile && p !in SvgOf(offCpu))
    requires p in PathsOf(cpu) || p in PathsOf(heap) || p in PathsOf(offCpu) || firefox == Some(p) || p == diagnostics
    ensures p in Derived(cpu, heap, offCpu, firefox) <==> !IsPrimary(p)
  {
    hide SvgOf, PathsOf;
  }

  lemma PlanMember(cpu: Option<ProfileOutput>, heap: Option<ProfileOutput>, offCpu: Option<ProfileOutput>,
                   firefox: Option<Path>, diagnostics: Path, p: Path)
    ensures p in PlanOf(cpu, heap, offCpu, firefox, diagnostics) <==>
      p in PathsOf(cpu) || p in PathsOf(heap) || p in PathsOf(offCpu) || firefox == Some(p) || p == diagnostics
  {
    hide PathsOf;
    var plan := PathsOf(cpu) + PathsOf(heap) + PathsOf(offCpu) + PathOf(firefox) + [diagnostics];
    assert firefox.Some? ==> firefox.value in PathOf(firefox);
    assert p == diagnostics ==> plan[|plan| - 1] == p;
  }

  lemma DerivedSize(cpu: Option<ProfileOutput>, heap: Option<ProfileOutput>, offCpu: Option<ProfileOutput>,
                    firefox: Option<Path>, diagnostics: Path, index: nat)
    requires AllNamed(cpu, heap, offCpu, firefox, diagnostics, index)
    ensures |Derived(cpu, heap, offCpu, firefox)|
         == |SvgOf(cpu)| + |SvgOf(heap)| + |SvgOf(offCpu)| + |PathOf(firefox)|
  {
    ProfileKinds(cpu, CpuProfile, CpuSvg, index);
    ProfileKinds(heap, HeapProfile, HeapSvg, index);
    ProfileKinds(offCpu, OffCpuProfile, OffCpuSvg, index);
    hide PathsOf, SvgOf, NamedAs, WithoutSvg;
    var a, b, c := SvgOf(cpu), SvgOf(heap), SvgOf(offCpu);
    var d := if firefox.Some? then {firefox.value} else {};
    Cardinality(a, b);
    Cardinality(a + b, c);
    Cardinality(a + b + c, d);
    assert |d| == |PathOf(firefox)|;
  }

  lemma DerivedCount(cpu: Option<ProfileOutput>, heap: Option<ProfileOutput>, offCpu: Option<ProfileOutput>,
                     firefox: Option<Path>, diagnostics: Path, index: nat)
    requires AllNamed(cpu, heap, offCpu, firefox, diagnostics, index)
    ensures |Derived(cpu, heap, offCpu, firefox)|
         == |PlanOf(cpu, heap, offCpu, firefox, diagnostics)|
            - |PlanOf(WithoutSvg(cpu), WithoutSvg(heap), WithoutSvg(offCpu), None, diagnostics)|
  {
    ProfileKinds(cpu, CpuProfile, CpuSvg, index);
    ProfileKinds(heap, HeapProfile, HeapSvg, index);
    ProfileKinds(offCpu, OffCpuProfile, OffCpuSvg, index);
    DerivedSize(cpu, heap, offCpu, firefox, diagnostics, index);
    hide PathsOf, SvgOf, NamedAs, WithoutSvg, Derived;
  }

  class WindowOutput {
    const index: nat
    const diagnosticsPath: Path
    var cpu: Option<ProfileOutput>
    var heap: Option<ProfileOutput>
    var offCpu: Option<ProfileOutput>
    var firefox: Option<Path>
    var timelineSamples: nat
    var exportOtlp: bool
    /** Of the diagnostics: */
    var outputs: seq<Path>
    var otlpStatus: OtlpStatus
    var firefoxDroppedSamples: nat
    var backpressure: Backpressure

    /** The paths `write_inner` writes, in its order. */
    ghost function Plan(): seq<Path>
      reads this
    {
      PlanOf(cpu, heap, offCpu, firefox, diagnosticsPath)
    }

    ghost predicate Valid()
      reads this
    {
      && AllNamed(cpu, heap, offCpu, firefox, diagnosticsPath, index)
      && outputs == Plan()
    }

    constructor (index: nat, wantsCpu: bool, hasHeap: bool, hasOffCpu: bool, svg: bool, firefoxProfile: bool,
                 timelineSamples: nat, otlpEnabled: bool)
      ensures Valid() && this.index == index && exportOtlp && backpressure == NoBackpressure
      ensures (cpu.Some? <==> wantsCpu) && (heap.Some? <==> hasHeap) && (offCpu.Some? <==> hasOffCpu)
      ensures (cpu.Some? ==> (cpu.value.svg.Some? <==> svg)) && (heap.Some? ==> (heap.value.svg.Some? <==> svg))
      ensures offCpu.Some? ==> (offCpu.value.svg.Some? <==> svg)
      ensures (firefox.Some? <==> firefoxProfile) && this.timelineSamples == timelineSamples
      ensures firefoxDroppedSamples == 0 && (otlpStatus.Pending? <==> otlpEnabled) && !otlpStatus.Dropped?
    {
      hide PathsOf, PathOf;
      this.index, diagnosticsPath := index, Path(Diagnostics, index);
      this.timelineSamples, exportOtlp, backpressure, firefoxDroppedSamples := timelineSamples, true, NoBackpressure, 0;
      otlpStatus := if otlpEnabled then Pending else Disabled;
      var cpuOutput, cpuPaths := Announce([], wantsCpu, CpuProfile, if svg then Some(CpuSvg) else None, index);
      assert cpuPaths == PathsOf(cpuOutput);
      var heapOutput, heapPaths := Announce(cpuPaths, hasHeap, HeapProfile, if svg then Some(HeapSvg) else None, index);
      var offCpuOutput, paths := Announce(heapPaths, hasOffCpu, OffCpuProfile, if svg then Some(OffCpuSvg) else None, index);
      var timelinePath := if firefoxProfile then Some(Path(Firefox, index)) else None;
      assert PathOf(timelinePath) == if firefoxProfile then [Path(Firefox, index)] else [] by {
        PathIs(timelinePath);
      }
      if firefoxProfile {
        paths := paths + [Path(Firefox, index)];
      }
      paths := paths + [Path(Diagnostics, index)];
      assert paths == PlanOf(cpuOutput, heapOutput, offCpuOutput, timelinePath, Path(Diagnostics, index));
      cpu, heap, offCpu, firefox, outputs := cpuOutput, heapOutput, offCpuOutput, timelinePath, paths;
    }

    /** `shed_derived_outputs`: the pictures and the timeline file are given up, and the list of
        outputs says so. */
    method ShedDerivedOutputs(pendingWindows: nat)
      requires Valid()
      modifies this
      ensures Valid() && outputs == Primary(old(outputs))
      ensures cpu == WithoutSvg(old(cpu)) && heap == WithoutSvg(old(heap)) && offCpu == WithoutSvg(old(offCpu))
      ensures firefox == None
      ensures firefoxDroppedSamples == old(firefoxDroppedSamples) + (if old(firefox).Some? then old(timelineSamples) else 0)
      ensures exportOtlp == (old(exportOtlp) && old(otlpStatus).Disabled?)
      ensures otlpStatus == if old(exportOtlp) && !old(otlpStatus).Disabled? then Dropped else old(otlpStatus)
      ensures timelineSamples == 0
      ensures backpressure
           == if outputs == old(outputs) && exportOtlp == old(exportOtlp) then old(backpressure)
              else Shed(pendingWindows, |old(outputs)| - |outputs|, !exportOtlp)
    {
      hide *;
      ghost var was := outputs;
      IsValid();
      ShedFacts(cpu, heap, offCpu, firefox, diagnosticsPath, index);
      var removed: set<Path>;
      cpu, heap, offCpu, removed := Strip(cpu, heap, offCpu, firefox);
      if firefox.Some? {
        firefoxDroppedSamples := firefoxDroppedSamples + timelineSamples;
        firefox := None;
      }
      var otlpShed := exportOtlp && !otlpStatus.Disabled?;
      if otlpShed {
        exportOtlp := false;
        otlpStatus := Dropped;
      }
      if firefox.None? && (!exportOtlp || otlpStatus.Disabled?) {
        timelineSamples := 0;
      }
      if removed != {} || otlpShed {
        backpressure := Shed(pendingWindows, |removed|, !exportOtlp);
        outputs := Retain(outputs, removed);
      }
      assert outputs == Primary(was);
      BecomesValid();
    }

    lemma IsValid()
      requires Valid()
      ensures AllNamed(cpu, heap, offCpu, firefox, diagnosticsPath, index)
      ensures outputs == PlanOf(cpu, heap, offCpu, firefox, diagnosticsPath)
    {
    }

    lemma BecomesValid()
      requires AllNamed(cpu, heap, offCpu, firefox, diagnosticsPath, index)
      requires outputs == PlanOf(cpu, heap, offCpu, firefox, diagnosticsPath)
      ensures Valid()
    {
    }
  }

  /** The pictures and the timeline file, taken away. */
  method Strip(cpu: Option<ProfileOutput>, heap: Option<ProfileOutput>, offCpu: Option<ProfileOutput>,
               firefox: Option<Path>)
    returns (c: Option<ProfileOutput>, h: Option<ProfileOutput>, o: Option<ProfileOutput>, removed: set<Path>)
    ensures c == WithoutSvg(cpu) && h == WithoutSvg(heap) && o == WithoutSvg(offCpu)
    ensures removed == Derived(cpu, heap, offCpu, firefox)
  {
    removed := {};
    c, removed := TakeSvg(cpu, removed);
    h, removed := TakeSvg(heap, removed);
    o, removed := TakeSvg(offCpu, removed);
    if firefox.Some? {
      removed := removed + {firefox.value};
    }
  }

  lemma ShedFacts(cpu: Option<ProfileOutput>, heap: Option<ProfileOutput>, offCpu: Option<ProfileOutput>,
                  firefox: Option<Path>, diagnostics: Path, index: nat)
    requires AllNamed(cpu, heap, offCpu, firefox, diagnostics, index)
    ensures var plan := PlanOf(cpu, heap, offCpu, firefox, diagnostics); var removed := Derived(cpu, heap, offCpu, firefox);
            && (forall p :: p in plan ==> (p in removed <==> !IsPrimary(p)))
            && |removed| == |plan| - |Primary(plan)|
            && Primary(plan) == PlanOf(WithoutSvg(cpu), WithoutSvg(heap), WithoutSvg(offCpu), None, diagnostics)
            && (removed == {} ==> Primary(plan) == plan)
            && (removed != {} ==> Primary(plan) != plan)
    ensures AllNamed(WithoutSvg(cpu), WithoutSvg(heap), WithoutSvg(offCpu), None, diagnostics, index)
  {
    hide *;
    PrimaryPlan(cpu, heap, offCpu, firefox, diagnostics, index);
    DerivedKinds(cpu, heap, offCpu, firefox, diagnostics, index);
    DerivedCount(cpu, heap, offCpu, firefox, diagnostics, index);
    StillNamed(cpu, heap, offCpu, firefox, diagnostics, index);
  }

  lemma StillNamed(cpu: Option<ProfileOutput>, heap: Option<ProfileOutput>, offCpu: Option<ProfileOutput>,
                   firefox: Option<Path>, diagnostics: Path, index: nat)
    requires AllNamed(cpu, heap, offCpu, firefox, diagnostics, index)
    ensures AllNamed(WithoutSvg(cpu), WithoutSvg(heap), WithoutSvg(offCpu), None, diagnostics, index)
    ensures Derived(cpu, heap, offCpu, firefox) == {} ==>
      cpu == WithoutSvg(cpu) && heap == WithoutSvg(heap) && offCpu == WithoutSvg(offCpu) && firefox == None
  {
  }

  /** The state of the output worker: the session's directory and the windows it keeps. */
  class Writer {
    const keepWindows: nat
    var files: set<Path>
    var retained: seq<seq<Path>>

    constructor (keepWindows: nat)
      ensures this.keepWindows == keepWindows && files == {} && retained == []
    {
      this.keepWindows := keepWindows;
      files, retained := {}, [];
    }

    ghost function OnDisk(): Disk
      reads this
    {
      Disk(files, retained)
    }

    /** One atomic write. */
    method Put(path: Path, faults: Path -> Fault, ghost rest: seq<Path>) returns (ok: bool)
      requires rest != [] && rest[0] == path
      modifies this`files
      ensures ok ==> PutAll(old(files), rest, faults) == PutAll(files, rest[1..], faults)
      ensures !ok ==> PutAll(old(files), rest, faults) == (files, false)
    {
      match faults(path) {
        case Works =>
          files := files + {path};
          return true;
        case FailsBefore => return false;
        case FailsAfter =>
          files := files + {path};
          return false;
      }
    }

    /** A profile and, when one is wanted, its picture. */
    method PutProfile(o: Option<ProfileOutput>, faults: Path -> Fault, ghost rest: seq<Path>)
      returns (ok: bool, ghost left: seq<Path>)
      requires PathsOf(o) <= rest
      modifies this`files
      ensures left == rest[|PathsOf(o)|..]
      ensures ok ==> PutAll(old(files), rest, faults) == PutAll(files, left, faults)
      ensures !ok ==> PutAll(old(files), rest, faults) == (files, false)
    {
      hide PutAll;
      left := rest[|PathsOf(o)|..];
      if o.None? {
        assert left == rest;
        return true, left;
      }
      ok := Put(o.value.path, faults, rest);
      if !ok || o.value.svg.None? {
        return;
      }
      assert rest[1..][1..] == left;
      ok := Put(o.value.svg.value, faults, rest[1..]);
    }

    /** The writes of `write_inner`: every path of the diagnostics' list, in its order, and no other. */
    method WriteOutputs(w: WindowOutput, faults: Path -> Fault) returns (ok: bool)
      requires w.Valid()
      modifies this`files
      ensures (files, ok) == PutAll(old(files), w.outputs, faults)
    {
      hide PutAll;
      ghost var rest := w.outputs;
      ghost var goal := PutAll(files, rest, faults);
      PlanParts(w);
      ok, rest := PutProfile(w.cpu, faults, rest);
      if !ok {
        return;
      }
      ok, rest := PutProfile(w.heap, faults, rest);
      if !ok {
        return;
      }
      ok, rest := PutProfile(w.offCpu, faults, rest);
      if !ok {
        return;
      }
      if w.firefox.Some? {
        ok := Put(w.firefox.value, faults, rest);
        if !ok {
          return;
        }
        rest := rest[1..];
      }
      assert rest == [w.diagnosticsPath];
      ok := Put(w.diagnosticsPath, faults, rest);
      if ok {
        assert rest[1..] == [];
        NothingToPut(files, faults);
      }
    }

    /** `rollback_incomplete_window`. */
    method RollBack(outputs: seq<Path>, stuck: set<Path>)
      modifies this`files
      ensures files == Rollback(old(files), outputs, stuck)
    {
      assert Elements(outputs[..0]) == {};
      for i := 0 to |outputs|
        invariant files == Rollback(old(files), outputs[..i], stuck)
      {
        assert Elements(outputs[..i + 1]) == Elements(outputs[..i]) + {outputs[i]};
        if outputs[i] in files && outputs[i] !in stuck {
          files := files - {outputs[i]};
        }
      }
      assert outputs[..|outputs|] == outputs;
    }

    /** Removing an expired window's files; the first one that cannot be removed is an error. */
    method Remove(outputs: seq<Path>, stuck: set<Path>) returns (ok: bool)
      modifies this`files
      ensures (files, ok) == RemoveAll(old(files), outputs, stuck)
    {
      assert outputs[0..] == outputs;
      for i := 0 to |outputs|
        invariant RemoveAll(files, outputs[i..], stuck) == RemoveAll(old(files), outputs, stuck)
      {
        assert outputs[i..][0] == outputs[i] && outputs[i..][1..] == outputs[i + 1..];
        if outputs[i] in files {
          if outputs[i] in stuck {
            return false;
          }
          files := files - {outputs[i]};
        } else {
          assert files - {outputs[i]} == files;
        }
      }
      return true;
    }

    /** `prune_session_windows`. */
    method PruneWindows(stuck: set<Path>) returns (ok: bool)
      modifies this`files, this`retained
      ensures (OnDisk(), ok) == Prune(old(OnDisk()), keepWindows, stuck)
    {
      hide RemoveAll;
      while |retained| > keepWindows
        invariant Prune(OnDisk(), keepWindows, stuck) == Prune(old(OnDisk()), keepWindows, stuck)
        decreases |retained|
      {
        var outputs := retained[0];
        retained := retained[1..];
        var removed := Remove(outputs, stuck);
        if !removed {
          return false;
        }
      }
      return true;
    }

    /** `write`: the window is published, or rolled back and the queue as pruning left it. */
    method Write(w: WindowOutput, faults: Path -> Fault, stuck: set<Path>) returns (ok: bool)
      requires w.Valid()
      modifies this`files, this`retained
      ensures (OnDisk(), ok) == Publish(old(OnDisk()), w.outputs, faults, stuck, keepWindows)
    {
      hide PutAll, Rollback;
      var outputs := w.outputs;
      ok := WriteOutputs(w, faults);
      if ok {
        retained := retained + [outputs];
        ok := PruneWindows(stuck);
      }
      if !ok {
        RollBack(outputs, stuck);
      }
    }

    /** `update_export_diagnostics`, the check and the rewrite taken as one step. */
    method UpdateExportDiagnostics(path: Path, fault: Fault)
      modifies this`files
      ensures files == Update(old(files), path, fault)
    {
      UpdateAddsNothing(files, path, fault);
      if path in files {
        ghost var rest := [path];
        var ok := Put(path, _ => fault, rest);
        if ok {
          NothingToPut(files, _ => fault);
        }
      }
    }
  }

  lemma NothingToPut(files: set<Path>, faults: Path -> Fault)
    ensures PutAll(files, [], faults) == (files, true)
  {
  }

  lemma PlanParts(w: WindowOutput)
    requires w.Valid()
    ensures var a, b, c := PathsOf(w.cpu), PathsOf(w.heap), PathsOf(w.offCpu);
            && a <= w.outputs && b <= w.outputs[|a|..] && c <= w.outputs[|a|..][|b|..]
            && w.outputs[|a|..][|b|..][|c|..] == PathOf(w.firefox) + [w.diagnosticsPath]
  {
    hide PathsOf, PathOf;
    var a, b, c := PathsOf(w.cpu), PathsOf(w.heap), PathsOf(w.offCpu);
    var tail := PathOf(w.firefox) + [w.diagnosticsPath];
    assert w.outputs == a + (b + (c + tail));
    assert w.outputs[|a|..] == b + (c + tail);
    assert w.outputs[|a|..][|b|..] == c + tail;
  }

  /** Windows of different indices have no file in common. */
  lemma WindowsApart(v: WindowOutput, w: WindowOutput)
    requires v.Valid() && w.Valid() && v.index != w.index
    ensures Elements(v.outputs) !! Elements(w.outputs)
  {
    OwnFiles(v);
    OwnFiles(w);
  }

  lemma OwnFiles(w: WindowOutput)
    requires w.Valid()
    ensures forall p :: p in w.outputs ==> p.window == w.index
  {
    forall p | p in w.outputs
      ensures p.window == w.index
    {
      PlanMember(w.cpu, w.heap, w.offCpu, w.firefox, w.diagnosticsPath, p);
    }
  }
}
