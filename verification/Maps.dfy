/** Executable address ranges of a process: src/maps.rs. */
module Maps {
  datatype MapEntry = MapEntry(start: nat, end: nat, permissions: string) {
    predicate IsExecutable() {
      |permissions| > 2 && permissions[2] == 'x'
    }

    predicate Holds(address: nat) {
      start <= address < end
    }
  }

  datatype Range = Range(start: nat, end: nat) {
    predicate Holds(address: nat) {
      start <= address < end
    }
  }

  predicate Covers(ranges: seq<Range>, address: nat) {
    exists i :: 0 <= i < |ranges| && ranges[i].Holds(address)
  }

  predicate Separated(ranges: seq<Range>) {
    forall i, j :: 0 <= i < j < |ranges| ==> ranges[i].end < ranges[j].start
  }

  predicate SortedByStart(ranges: seq<Range>) {
    forall i, j :: 0 <= i < j < |ranges| ==> ranges[i].start <= ranges[j].start
  }

  predicate ExecutableAt(maps: seq<MapEntry>, address: nat) {
    exists i :: 0 <= i < |maps| && maps[i].IsExecutable() && maps[i].Holds(address)
  }

  lemma CoversConcat(a: seq<Range>, b: seq<Range>, address: nat)
    ensures Covers(a + b, address) <==> Covers(a, address) || Covers(b, address)
  {
    if Covers(a, address) {
      var i :| 0 <= i < |a| && a[i].Holds(address);
      assert (a + b)[i] == a[i];
    }
    if Covers(b, address) {
      var i :| 0 <= i < |b| && b[i].Holds(address);
      assert (a + b)[|a| + i] == b[i];
    }
  }

  lemma CoversOne(r: Range, address: nat)
    ensures Covers([r], address) <==> r.Holds(address)
  {
    assert [r][0] == r;
  }

  lemma CoversSplit(ranges: seq<Range>, k: nat, address: nat)
    requires k < |ranges|
    ensures Covers(ranges, address)
      <==> Covers(ranges[..k], address) || ranges[k].Holds(address) || Covers(ranges[k + 1..], address)
  {
    assert ranges == ranges[..k] + ([ranges[k]] + ranges[k + 1..]);
    CoversConcat(ranges[..k], [ranges[k]] + ranges[k + 1..], address);
    CoversConcat([ranges[k]], ranges[k + 1..], address);
    CoversOne(ranges[k], address);
  }

  /** The standard library's sort, as far as its caller can tell: a permutation with
      ascending starts. */
  function Sort(ranges: seq<Range>): (sorted: seq<Range>)
    ensures multiset(sorted) == multiset(ranges)
    ensures SortedByStart(sorted)
  {
    if ranges == [] then []
    else
      assert ranges == [ranges[0]] + ranges[1..];
      Insert(ranges[0], Sort(ranges[1..]))
  }

  function Insert(r: Range, sorted: seq<Range>): (s: seq<Range>)
    requires SortedByStart(sorted)
    ensures multiset(s) == multiset(sorted) + multiset{r}
    ensures s != [] && (s[0] == r || (sorted != [] && s[0] == sorted[0]))
    ensures SortedByStart(s)
    decreases |sorted|
  {
    if sorted == [] || r.start <= sorted[0].start then [r] + sorted
    else
      var head, tail := sorted[0], sorted[1..];
      assert sorted == [head] + tail;
      var rest := Insert(r, tail);
      assert rest[0] == r || rest[0] == sorted[1];
      [head] + rest
  }

  lemma SameElementsCover(a: seq<Range>, b: seq<Range>, address: nat)
    requires multiset(a) == multiset(b)
    ensures Covers(a, address) <==> Covers(b, address)
  {
    forall r: Range
      ensures r in a <==> r in b
    {
      assert r in multiset(a) <==> r in multiset(b);
    }
    if Covers(a, address) {
      var i :| 0 <= i < |a| && a[i].Holds(address);
      assert a[i] in b;
    }
    if Covers(b, address) {
      var i :| 0 <= i < |b| && b[i].Holds(address);
      assert b[i] in a;
    }
  }

  /** `filter(is_executable).map(start..end)`. */
  function ExecutableRangesOf(maps: seq<MapEntry>): seq<Range> {
    if maps == [] then []
    else
      (if maps[0].IsExecutable() then [Range(maps[0].start, maps[0].end)] else [])
      + ExecutableRangesOf(maps[1..])
  }

  lemma {:induction false} ExecutableRangesCover(maps: seq<MapEntry>, address: nat)
    ensures Covers(ExecutableRangesOf(maps), address) <==> ExecutableAt(maps, address)
  {
    if maps != [] {
      var head := if maps[0].IsExecutable() then [Range(maps[0].start, maps[0].end)] else [];
      ExecutableRangesCover(maps[1..], address);
      CoversConcat(head, ExecutableRangesOf(maps[1..]), address);
      if maps[0].IsExecutable() {
        CoversOne(Range(maps[0].start, maps[0].end), address);
      }
      if ExecutableAt(maps[1..], address) {
        var i :| 0 <= i < |maps[1..]| && maps[1..][i].IsExecutable() && maps[1..][i].Holds(address);
        assert maps[i + 1] == maps[1..][i];
      }
      if ExecutableAt(maps, address) {
        var i :| 0 <= i < |maps| && maps[i].IsExecutable() && maps[i].Holds(address);
        if i > 0 {
          assert maps[1..][i - 1] == maps[i];
        }
      }
    }
  }

  /** One round of the merge loop on a range that starts no earlier than all before it. */
  function Absorb(merged: seq<Range>, range: Range): seq<Range> {
    var last := |merged| - 1;
    if merged != [] && range.start <= merged[last].end then
      merged[last := Range(merged[last].start, if range.end > merged[last].end then range.end else merged[last].end)]
    else merged + [range]
  }

  lemma AbsorbCovers(merged: seq<Range>, range: Range, address: nat)
    requires merged != [] ==> merged[|merged| - 1].start <= range.start
    ensures Covers(Absorb(merged, range), address) <==> Covers(merged, address) || range.Holds(address)
  {
    var last := |merged| - 1;
    if merged != [] && range.start <= merged[last].end {
      var after := Absorb(merged, range);
      CoversSplit(merged, last, address);
      CoversSplit(after, last, address);
      assert merged[..last] == after[..last] && merged[last + 1..] == after[last + 1..];
    } else {
      CoversConcat(merged, [range], address);
      CoversOne(range, address);
    }
  }

  predicate NonEmpty(ranges: seq<Range>) {
    forall i :: 0 <= i < |ranges| ==> ranges[i].start < ranges[i].end
  }

  ghost predicate SameCover(a: seq<Range>, b: seq<Range>) {
    forall address: nat :: Covers(a, address) <==> Covers(b, address)
  }

  /** What the merge loop maintains after its first `k` ranges. */
  ghost predicate MergedPrefix(merged: seq<Range>, ranges: seq<Range>, k: nat)
    requires k <= |ranges|
  {
    && Separated(merged) && SortedByStart(merged)
    && (merged != [] ==> k > 0 && merged[|merged| - 1].start <= ranges[k - 1].start)
    && SameCover(merged, ranges[..k])
    && (NonEmpty(ranges) ==> NonEmpty(merged))
  }

  lemma AbsorbExtends(merged: seq<Range>, ranges: seq<Range>, k: nat)
    requires k < |ranges| && SortedByStart(ranges) && MergedPrefix(merged, ranges, k)
    ensures MergedPrefix(Absorb(merged, ranges[k]), ranges, k + 1)
  {
    var after := Absorb(merged, ranges[k]);
    AbsorbShape(merged, ranges[k]);
    forall address: nat
      ensures Covers(after, address) <==> Covers(ranges[..k + 1], address)
    {
      AbsorbCovers(merged, ranges[k], address);
      assert Covers(merged, address) <==> Covers(ranges[..k], address);
      assert ranges[..k + 1] == ranges[..k] + [ranges[k]];
      CoversConcat(ranges[..k], [ranges[k]], address);
      CoversOne(ranges[k], address);
    }
  }

  lemma AbsorbShape(merged: seq<Range>, range: Range)
    requires Separated(merged) && SortedByStart(merged)
    requires merged != [] ==> merged[|merged| - 1].start <= range.start
    ensures Separated(Absorb(merged, range)) && SortedByStart(Absorb(merged, range))
    ensures Absorb(merged, range) != [] && Absorb(merged, range)[|Absorb(merged, range)| - 1].start <= range.start
    ensures NonEmpty(merged) && range.start < range.end ==> NonEmpty(Absorb(merged, range))
  {
  }

  /** `ExecutableRanges::from_maps`: sort, then merge overlapping and touching neighbours. */
  method FromMaps(maps: seq<MapEntry>) returns (merged: seq<Range>)
    ensures Separated(merged)
    ensures SortedByStart(merged)
    ensures forall address: nat :: Covers(merged, address) <==> ExecutableAt(maps, address)
    ensures (forall i :: 0 <= i < |maps| ==> maps[i].start < maps[i].end) ==> NonEmpty(merged)
  {
    var ranges := Sort(ExecutableRangesOf(maps));
    merged := [];
    for k := 0 to |ranges|
      invariant MergedPrefix(merged, ranges, k)
    {
      var range := ranges[k];
      AbsorbExtends(merged, ranges, k);
      var last := |merged| - 1;
      if merged != [] && range.start <= merged[last].end {
        var end := if range.end > merged[last].end then range.end else merged[last].end;
        merged := merged[last := Range(merged[last].start, end)];
      } else {
        merged := merged + [range];
      }
    }
    MergedAnswers(maps, merged);
  }

  lemma MergedAnswers(maps: seq<MapEntry>, merged: seq<Range>)
    requires var ranges := Sort(ExecutableRangesOf(maps)); MergedPrefix(merged, ranges, |ranges|)
    ensures forall address: nat :: Covers(merged, address) <==> ExecutableAt(maps, address)
    ensures (forall i :: 0 <= i < |maps| ==> maps[i].start < maps[i].end) ==> NonEmpty(merged)
  {
    var ranges := Sort(ExecutableRangesOf(maps));
    assert ranges[..|ranges|] == ranges;
    forall address: nat
      ensures Covers(merged, address) <==> ExecutableAt(maps, address)
    {
      SameElementsCover(ranges, ExecutableRangesOf(maps), address);
      ExecutableRangesCover(maps, address);
    }
    if forall i :: 0 <= i < |maps| ==> maps[i].start < maps[i].end {
      ExecutableRangesNonEmpty(maps);
      assert forall r :: r in ranges ==> r in multiset(ranges);
    }
  }

  lemma {:induction false} ExecutableRangesNonEmpty(maps: seq<MapEntry>)
    requires forall i :: 0 <= i < |maps| ==> maps[i].start < maps[i].end
    ensures forall r :: r in multiset(ExecutableRangesOf(maps)) ==> r.start < r.end
  {
    if maps != [] {
      ExecutableRangesNonEmpty(maps[1..]);
    }
  }

  /** `contains`: binary search for the last range that starts at or before the address. */
  method Contains(ranges: seq<Range>, address: nat) returns (found: bool)
    requires Separated(ranges) && SortedByStart(ranges)
    ensures found <==> Covers(ranges, address)
  {
    var low, high := 0, |ranges|;
    while low < high
      invariant 0 <= low <= high <= |ranges|
      invariant forall i :: 0 <= i < low ==> ranges[i].start <= address
      invariant forall i :: high <= i < |ranges| ==> address < ranges[i].start
    {
      var middle := (low + high) / 2;
      if ranges[middle].start <= address {
        low := middle + 1;
      } else {
        high := middle;
      }
    }
    found := low != 0 && address < ranges[low - 1].end;
  }

  /** `contains` after `from_maps` answers exactly whether some executable mapping holds the
      address, for any list of mappings, sorted or not, overlapping or not. */
  method ContainsAfterMerge(maps: seq<MapEntry>, address: nat) returns (found: bool)
    ensures found <==> ExecutableAt(maps, address)
  {
    var merged := FromMaps(maps);
    found := Contains(merged, address);
  }
}
