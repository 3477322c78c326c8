/** What publishing windows does to a session's files: src/platform/linux/record.rs, lines 766-1021,
    1275-1280 and 2111-2128. A directory is a set of paths; every write may fail, leaving
    the file or not, and every removal may fail. */
module Publication {
  import opened Machine

  datatype Kind = CpuProfile | CpuSvg | HeapProfile | HeapSvg | OffCpuProfile | OffCpuSvg | Firefox | Diagnostics

  /** The file of a kind in the window of an index; the session's name is the same in all of them. */
  datatype Path = Path(kind: Kind, window: nat)

  /** How an atomic write of a path goes: it may fail before the file is in place or after. */
  datatype Fault = Works | FailsBefore | FailsAfter

  datatype Disk = Disk(files: set<Path>, retained: seq<seq<Path>>)

  function Elements(paths: seq<Path>): set<Path> {
    set p | p in paths
  }

  function Union(windows: seq<seq<Path>>): set<Path> {
    if windows == [] then {} else Elements(windows[0]) + Union(windows[1..])
  }

  /** Writing paths in order up to the first failure. */
  function PutAll(files: set<Path>, paths: seq<Path>, faults: Path -> Fault): (set<Path>, bool)
    decreases |paths|
  {
    if paths == [] then (files, true)
    else
      match faults(paths[0])
      case Works => PutAll(files + {paths[0]}, paths[1..], faults)
      case FailsBefore => (files, false)
      case FailsAfter => (files + {paths[0]}, false)
  }

  /** Removing paths in order up to the first that is there and cannot be removed. */
  function RemoveAll(files: set<Path>, paths: seq<Path>, stuck: set<Path>): (set<Path>, bool)
    decreases |paths|
  {
    if paths == [] then (files, true)
    else if paths[0] in files && paths[0] in stuck then (files, false)
    else RemoveAll(files - {paths[0]}, paths[1..], stuck)
  }

  /** `rollback_incomplete_window`: every output is removed that can be. */
  function Rollback(files: set<Path>, paths: seq<Path>, stuck: set<Path>): set<Path> {
    files - (Elements(paths) - stuck)
  }

  /** `prune_session_windows`: a window leaves the queue before its files are removed. */
  function Prune(d: Disk, keep: nat, stuck: set<Path>): (Disk, bool)
    decreases |d.retained|
  {
    if |d.retained| <= keep then (d, true)
    else
      var (files, ok) := RemoveAll(d.files, d.retained[0], stuck);
      if ok then Prune(Disk(files, d.retained[1..]), keep, stuck) else (Disk(files, d.retained[1..]), false)
  }

  /** Publishing one window. */
  function Publish(d: Disk, outputs: seq<Path>, faults: Path -> Fault, stuck: set<Path>, keep: nat): (Disk, bool) {
    var (files, done) := PutAll(d.files, outputs, faults);
    if !done then (d.(files := Rollback(files, outputs, stuck)), false)
    else
      var (pruned, ok) := Prune(Disk(files, d.retained + [outputs]), keep, stuck);
      if ok then (pruned, true) else (pruned.(files := Rollback(pruned.files, outputs, stuck)), false)
  }

  /** The files of the session are those of the windows kept. */
  predicate Consistent(d: Disk) {
    d.files == Union(d.retained)
  }

  predicate Apart(windows: seq<seq<Path>>) {
    forall i, j :: 0 <= i < j < |windows| ==> Elements(windows[i]) !! Elements(windows[j])
  }

  predicate WorksFor(paths: seq<Path>, faults: Path -> Fault) {
    forall p :: p in paths ==> faults(p) == Works
  }

  lemma {:induction false} UnionConcat(a: seq<seq<Path>>, b: seq<seq<Path>>)
    ensures Union(a + b) == Union(a) + Union(b)
  {
    if a == [] {
      assert a + b == b;
    } else {
      UnionConcat(a[1..], b);
      assert (a + b)[1..] == a[1..] + b;
    }
  }

  lemma {:induction false} UnionMember(windows: seq<seq<Path>>, p: Path)
    ensures p in Union(windows) <==> exists i :: 0 <= i < |windows| && p in Elements(windows[i])
  {
    if windows != [] {
      UnionMember(windows[1..], p);
      if i :| 0 <= i < |windows| && p in Elements(windows[i]) {
        if i > 0 {
          assert windows[1..][i - 1] == windows[i];
        }
      }
      if i :| 0 <= i < |windows| - 1 && p in Elements(windows[1..][i]) {
        assert windows[i + 1] == windows[1..][i];
      }
    }
  }

  /** Windows with different files: one is not in the union of the others. */
  lemma FirstApart(windows: seq<seq<Path>>)
    requires windows != [] && Apart(windows)
    ensures Elements(windows[0]) !! Union(windows[1..]) && Apart(windows[1..])
  {
    forall p | p in Elements(windows[0])
      ensures p !in Union(windows[1..])
    {
      UnionMember(windows[1..], p);
      assert forall i :: 0 <= i < |windows| - 1 ==> Elements(windows[0]) !! Elements(windows[1..][i]);
    }
  }

  lemma {:induction false} PutAllMeans(files: set<Path>, paths: seq<Path>, faults: Path -> Fault)
    ensures var (after, done) := PutAll(files, paths, faults);
            && files <= after <= files + Elements(paths)
            && (done <==> WorksFor(paths, faults))
            && (done ==> after == files + Elements(paths))
    decreases |paths|
  {
    if paths != [] {
      PutAllMeans(files + {paths[0]}, paths[1..], faults);
      assert Elements(paths) == {paths[0]} + Elements(paths[1..]);
      assert forall p :: p in paths <==> p == paths[0] || p in paths[1..];
    }
  }

  lemma {:induction false} RemoveAllMeans(files: set<Path>, paths: seq<Path>, stuck: set<Path>)
    ensures var (after, ok) := RemoveAll(files, paths, stuck);
            && files - Elements(paths) <= after <= files
            && (ok <==> Elements(paths) * files * stuck == {})
            && (ok ==> after == files - Elements(paths))
            && (!ok ==> after * Elements(paths) * stuck != {})
    decreases |paths|
  {
    if paths != [] {
      RemoveAllMeans(files - {paths[0]}, paths[1..], stuck);
      assert Elements(paths) == {paths[0]} + Elements(paths[1..]);
      if paths[0] in files && paths[0] in stuck {
        assert paths[0] in Elements(paths) * files * stuck;
      }
    }
  }

  /** A window that cannot be written leaves nothing behind, when its files can be removed. */
  lemma FailureLeavesNothing(files: set<Path>, outputs: seq<Path>, faults: Path -> Fault, stuck: set<Path>)
    requires Elements(outputs) !! files
    ensures var after := Rollback(PutAll(files, outputs, faults).0, outputs, stuck);
            after == files <==> PutAll(files, outputs, faults).0 * Elements(outputs) * stuck == {}
  {
    hide PutAll, Elements;
    PutAllMeans(files, outputs, faults);
    var written, left := PutAll(files, outputs, faults).0, PutAll(files, outputs, faults).0 * Elements(outputs) * stuck;
    assert Rollback(written, outputs, stuck) == files + left;
    if p :| p in left {
      assert p !in files;
    }
  }

  /** The last `keep` of a sequence. */
  function Newest<T>(xs: seq<T>, keep: nat): (r: seq<T>)
    ensures |r| == Min(|xs|, keep)
  {
    if |xs| <= keep then xs else xs[|xs| - keep..]
  }

  lemma {:induction false} PruneMeans(d: Disk, keep: nat, stuck: set<Path>)
    requires Consistent(d) && Apart(d.retained) && |d.retained| <= keep + 1
    ensures var (after, ok) := Prune(d, keep, stuck);
            && after.retained == Newest(d.retained, keep)
            && (ok <==> |d.retained| <= keep || Elements(d.retained[0]) * stuck == {})
            && (ok ==> Consistent(after))
            && (!ok ==> after.files * Elements(d.retained[0]) * stuck != {} && after.files <= d.files)
            && Union(after.retained) <= after.files
  {
    if |d.retained| > keep {
      var first := Elements(d.retained[0]);
      RemoveAllMeans(d.files, d.retained[0], stuck);
      FirstApart(d.retained);
      assert first * d.files == first;
      assert Union(d.retained) == first + Union(d.retained[1..]);
      assert d.files - first == Union(d.retained[1..]);
    }
  }

  lemma PushApart(retained: seq<seq<Path>>, outputs: seq<Path>)
    requires Apart(retained) && Elements(outputs) !! Union(retained)
    ensures Apart(retained + [outputs]) && Union(retained + [outputs]) == Union(retained) + Elements(outputs)
  {
    UnionConcat(retained, [outputs]);
    assert Union([outputs]) == Elements(outputs) + Union([]);
    forall i | 0 <= i < |retained|
      ensures Elements(retained[i]) !! Elements(outputs)
    {
      forall p | p in Elements(retained[i])
        ensures p in Union(retained)
      {
        UnionMember(retained, p);
      }
    }
  }

  /** What can go wrong with a publication: a written file that cannot be rolled back, or an expired
      one that cannot be removed. */
  predicate Obstructed(d: Disk, outputs: seq<Path>, faults: Path -> Fault, stuck: set<Path>, keep: nat) {
    if !PutAll(d.files, outputs, faults).1 then PutAll(d.files, outputs, faults).0 * Elements(outputs) * stuck != {}
    else
      var queue := d.retained + [outputs];
      |queue| > keep && Elements(queue[0]) * stuck != {}
  }

  /** The session's files are exactly those of the windows kept, after a publication as before,
      if and only if no removal that was needed failed. */
  lemma PublishKeepsConsistent(d: Disk, outputs: seq<Path>, faults: Path -> Fault, stuck: set<Path>, keep: nat)
    requires Consistent(d) && Apart(d.retained) && |d.retained| <= keep && Elements(outputs) !! d.files
    ensures var (after, ok) := Publish(d, outputs, faults, stuck, keep);
            && (Consistent(after) <==> !Obstructed(d, outputs, faults, stuck, keep))
            && (!Obstructed(d, outputs, faults, stuck, keep) ==>
              && (ok <==> WorksFor(outputs, faults))
              && after.retained == (if ok then Newest(d.retained + [outputs], keep) else d.retained)
              && Apart(after.retained) && |after.retained| <= keep)
  {
    hide PutAll, Prune, Union, Apart;
    PutAllMeans(d.files, outputs, faults);
    var (files, done) := PutAll(d.files, outputs, faults);
    if !done {
      FailureLeavesNothing(d.files, outputs, faults, stuck);
    } else {
      PublishWritten(d, outputs, faults, stuck, keep, files);
    }
  }

  lemma PublishWritten(d: Disk, outputs: seq<Path>, faults: Path -> Fault, stuck: set<Path>, keep: nat,
                       files: set<Path>)
    requires Consistent(d) && Apart(d.retained) && |d.retained| <= keep && Elements(outputs) !! d.files
    requires PutAll(d.files, outputs, faults) == (files, true) && files == d.files + Elements(outputs)
    ensures var (after, ok) := Publish(d, outputs, faults, stuck, keep);
            && (Consistent(after) <==> !Obstructed(d, outputs, faults, stuck, keep))
            && (!Obstructed(d, outputs, faults, stuck, keep) ==>
              && ok && after.retained == Newest(d.retained + [outputs], keep)
              && Apart(after.retained) && |after.retained| <= keep)
  {
    hide PutAll, Prune, Union, Apart;
    PushApart(d.retained, outputs);
    var queue := d.retained + [outputs];
    PruneMeans(Disk(files, queue), keep, stuck);
    NewestApart(queue, keep);
    var (pruned, ok) := Prune(Disk(files, queue), keep, stuck);
    if !ok {
      var p :| p in pruned.files * Elements(queue[0]) * stuck;
      ExpiredIsGone(queue, keep, p);
    }
  }

  lemma NewestApart(windows: seq<seq<Path>>, keep: nat)
    requires Apart(windows)
    ensures Apart(Newest(windows, keep))
  {
  }

  lemma ExpiredIsGone(queue: seq<seq<Path>>, keep: nat, p: Path)
    requires Apart(queue) && |queue| == keep + 1 && p in Elements(queue[0])
    ensures p !in Union(Newest(queue, keep))
  {
    FirstApart(queue);
    assert Newest(queue, keep) == queue[1..];
  }

  // Whole sessions.

  /** What happens to a session's directory: the writer publishes a window, or the exporter, at any
      later time, checks for a diagnostics file and rewrites it. */
  datatype Action = Window(outputs: seq<Path>, faults: Path -> Fault) | Export(path: Path, fault: Fault)

  /** `update_export_diagnostics` as one step: nothing is written unless the file is there. */
  function Update(files: set<Path>, path: Path, fault: Fault): set<Path> {
    if path !in files then files
    else PutAll(files, [path], _ => fault).0
  }

  function Run(actions: seq<Action>, keep: nat): Disk {
    if actions == [] then Disk({}, [])
    else
      var before := Run(actions[..|actions| - 1], keep);
      match actions[|actions| - 1]
      case Window(outputs, faults) => Publish(before, outputs, faults, {}, keep).0
      case Export(path, fault) => before.(files := Update(before.files, path, fault))
  }

  /** The outputs of the windows that could be written, in order. */
  ghost function Succeeded(actions: seq<Action>): seq<seq<Path>> {
    if actions == [] then []
    else
      var last := actions[|actions| - 1];
      Succeeded(actions[..|actions| - 1])
      + (if last.Window? && WorksFor(last.outputs, last.faults) then [last.outputs] else [])
  }

  /** Different windows have different files. */
  predicate Distinguished(actions: seq<Action>) {
    forall i, j :: 0 <= i < j < |actions| && actions[i].Window? && actions[j].Window? ==>
      Elements(actions[i].outputs) !! Elements(actions[j].outputs)
  }

  /** A late exporter never adds or removes a file. */
  lemma UpdateAddsNothing(files: set<Path>, path: Path, fault: Fault)
    ensures Update(files, path, fault) == files
  {
    PutAllMeans(files, [path], _ => fault);
    assert Elements([path]) == {path};
  }

  lemma {:induction false} SucceededFrom(actions: seq<Action>, p: Path)
    requires p in Union(Succeeded(actions))
    ensures exists i :: 0 <= i < |actions| && actions[i].Window? && p in Elements(actions[i].outputs)
  {
    if actions != [] {
      var n := |actions| - 1;
      var last := actions[n];
      var more: seq<seq<Path>> := if last.Window? && WorksFor(last.outputs, last.faults) then [last.outputs] else [];
      UnionConcat(Succeeded(actions[..n]), more);
      if p in Union(Succeeded(actions[..n])) {
        SucceededFrom(actions[..n], p);
        var i :| 0 <= i < n && actions[..n][i].Window? && p in Elements(actions[..n][i].outputs);
        assert actions[i] == actions[..n][i];
      } else {
        assert more != [] && Union(more) == Elements(last.outputs) + Union([]);
        assert p in Elements(actions[n].outputs);
      }
    }
  }

  lemma NewestPush<T>(xs: seq<T>, x: T, keep: nat)
    ensures Newest(Newest(xs, keep) + [x], keep) == Newest(xs + [x], keep)
  {
  }

  lemma NewestUnion(windows: seq<seq<Path>>, keep: nat)
    ensures Union(Newest(windows, keep)) <= Union(windows)
  {
    if |windows| > keep {
      UnionConcat(windows[..|windows| - keep], windows[|windows| - keep..]);
      assert windows[..|windows| - keep] + windows[|windows| - keep..] == windows;
    }
  }

  /** When removals work, the session's files after any actions are exactly those of the newest
      windows that could be written, as many as are to be kept: each window is there whole or not at
      all, whichever of its writes failed. */
  lemma {:induction false} SessionKeepsNewest(actions: seq<Action>, keep: nat)
    requires Distinguished(actions)
    ensures Run(actions, keep).retained == Newest(Succeeded(actions), keep)
    ensures Consistent(Run(actions, keep)) && Apart(Run(actions, keep).retained)
  {
    if actions != [] {
      var n := |actions| - 1;
      var earlier := actions[..n];
      SessionKeepsNewest(earlier, keep);
      var before := Run(earlier, keep);
      match actions[n] {
        case Window(outputs, faults) =>
          FreshOutputs(actions, keep, before);
          PublishKeepsConsistent(before, outputs, faults, {}, keep);
          NewestPush(Succeeded(earlier), outputs, keep);
        case Export(path, fault) =>
          UpdateAddsNothing(before.files, path, fault);
      }
    }
  }

  lemma FreshOutputs(actions: seq<Action>, keep: nat, before: Disk)
    requires actions != [] && Distinguished(actions) && actions[|actions| - 1].Window? && Consistent(before)
    requires before.retained == Newest(Succeeded(actions[..|actions| - 1]), keep)
    ensures Elements(actions[|actions| - 1].outputs) !! before.files
  {
    hide Union;
    var n := |actions| - 1;
    NewestUnion(Succeeded(actions[..n]), keep);
    forall p | p in before.files
      ensures p !in Elements(actions[n].outputs)
    {
      SucceededFrom(actions[..n], p);
      var i :| 0 <= i < n && actions[..n][i].Window? && p in Elements(actions[..n][i].outputs);
      assert Elements(actions[i].outputs) !! Elements(actions[n].outputs);
    }
  }

  /** An expired file that cannot be removed stays behind for good, and takes the new window with it. */
  lemma StuckFileLeaks()
    ensures var old_, new_ := Path(Diagnostics, 0), Path(Diagnostics, 1);
            var (after, ok) := Publish(Disk({old_}, [[old_]]), [new_], _ => Works, {old_}, 1);
            !ok && after == Disk({old_}, [[new_]])
  {
    var old_, new_ := Path(Diagnostics, 0), Path(Diagnostics, 1);
    PutAllMeans({old_}, [new_], _ => Works);
    assert Elements([new_]) == {new_};
    var d := Disk({old_, new_}, [[old_], [new_]]);
    assert [[old_]] + [[new_]] == d.retained && {old_} + {new_} == d.files;
    assert RemoveAll(d.files, [old_], {old_}) == (d.files, false);
    assert d.retained[1..] == [[new_]];
    assert Prune(d, 1, {old_}) == (Disk(d.files, [[new_]]), false);
  }
}
