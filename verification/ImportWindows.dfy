/** What an import has to produce: one window an index, holding the samples of that index
    (src/platform/linux/import.rs, lines 19-42 and 132-251). */
module ImportWindows {
  import opened Machine
  import opened Sums
  import opened CappedGroupBy
  import opened ProfileTypes
  import opened Subsequences

  const FALLBACK_PERIOD_NANOS: u64 := 1_000_000
  const PERF_CONTEXT_MAX: u64 := 0xFFFF_FFFF_FFFF_F000
  const MAX_PENDING_WINDOWS: nat := 4
  const MAX_TRACKED_THREADS: nat := 65_536

  /** The numbers a user chooses. */
  datatype Limits = Limits(maxStacks: nat, timeline: bool, maxTimelineSamples: nat)

  /** A sample that was taken into a window. */
  datatype Accepted = Accepted(index: nat, key: AttributedStack, delta: u64, timestamp: u64)

  datatype ImportWindow = ImportWindow(
    samples: map<AttributedStack, Pair>, timeline: seq<TimedSample>,
    totalSamples: nat, aggregationDroppedSamples: nat, timelineDroppedSamples: nat)

  const EMPTY_WINDOW := ImportWindow(map[], [], 0, 0, 0)

  function RecordOf(a: Accepted): Record<AttributedStack> {
    Record(a.key, 1, a.delta)
  }

  function RecordsOf(xs: seq<Accepted>): (r: seq<Record<AttributedStack>>)
    ensures |r| == |xs|
  {
    seq(|xs|, i requires 0 <= i < |xs| => RecordOf(xs[i]))
  }

  function TimelineOf(xs: seq<Accepted>): (r: seq<TimedSample>)
    ensures |r| == |xs|
  {
    seq(|xs|, i requires 0 <= i < |xs| => TimedSample(xs[i].key, xs[i].timestamp, xs[i].delta))
  }

  /** The window these samples make, in this order. */
  function WindowOf(xs: seq<Accepted>, limits: Limits): ImportWindow {
    var kept := if limits.timeline then Min(|xs|, limits.maxTimelineSamples) else 0;
    ImportWindow(
      Capped(RecordsOf(xs), limits.maxStacks), TimelineOf(xs[..kept]), |xs|,
      |Dropped(RecordsOf(xs), limits.maxStacks)|, if limits.timeline then |xs| - kept else 0)
  }

  /** The samples of one index, in order. */
  function OfIndex(xs: seq<Accepted>, index: nat): seq<Accepted> {
    if xs == [] then []
    else
      var n := |xs| - 1;
      OfIndex(xs[..n], index) + (if xs[n].index == index then [xs[n]] else [])
  }

  lemma OfIndexPush(xs: seq<Accepted>, a: Accepted, index: nat)
    ensures OfIndex(xs + [a], index) == OfIndex(xs, index) + (if a.index == index then [a] else [])
  {
    assert (xs + [a])[..|xs|] == xs;
  }

  lemma {:induction false} OfIndexNone(xs: seq<Accepted>, index: nat)
    requires forall i :: 0 <= i < |xs| ==> xs[i].index != index
    ensures OfIndex(xs, index) == []
  {
    if xs != [] {
      OfIndexNone(xs[..|xs| - 1], index);
    }
  }

  lemma NoSamples(limits: Limits)
    ensures WindowOf([], limits) == EMPTY_WINDOW
  {
    Empty<AttributedStack>(limits.maxStacks);
  }

  // A window's counts.

  /** A window's total is what its table shows plus what it dropped, and its timeline shows the first
      samples and counts the rest. */
  lemma WindowCounts(xs: seq<Accepted>, limits: Limits)
    requires |xs| <= I64_MAX
    ensures var w := WindowOf(xs, limits);
            && w.totalSamples == Total(Firsts(w.samples)) + w.aggregationDroppedSamples
            && |w.samples| <= limits.maxStacks
            && (limits.timeline ==> |w.timeline| + w.timelineDroppedSamples == w.totalSamples)
            && |w.timeline| <= |xs|
            && forall i :: 0 <= i < |w.timeline| ==>
                 w.timeline[i].key == xs[i].key && w.timeline[i].timestamp == xs[i].timestamp
                 && w.timeline[i].cpuDelta == xs[i].delta
  {
    hide Capped, Distinct, Dropped;
    var rs := RecordsOf(xs);
    Conservation(rs, limits.maxStacks);
    CappedSize(rs, limits.maxStacks);
    UnitSum(rs);
    UnitDropped(rs, limits.maxStacks);
  }

  /** How many samples have this key, and the time they stand for. */
  function Count(xs: seq<Accepted>, key: AttributedStack): nat {
    if xs == [] then 0 else Count(xs[..|xs| - 1], key) + (if xs[|xs| - 1].key == key then 1 else 0)
  }

  function Time(xs: seq<Accepted>, key: AttributedStack): nat {
    if xs == [] then 0 else Time(xs[..|xs| - 1], key) + (if xs[|xs| - 1].key == key then xs[|xs| - 1].delta else 0)
  }

  lemma {:induction false} SumIsCount(xs: seq<Accepted>, key: AttributedStack)
    ensures SumOf(RecordsOf(xs), key) == Pair(Count(xs, key), Time(xs, key))
  {
    if xs != [] {
      var n := |xs| - 1;
      SumIsCount(xs[..n], key);
      assert RecordsOf(xs)[..n] == RecordsOf(xs[..n]);
    }
  }

  /** A stack and thread that a window shows stands there with the number of its samples and their time. */
  lemma WindowValues(xs: seq<Accepted>, limits: Limits, key: AttributedStack)
    ensures var samples := WindowOf(xs, limits).samples;
            key in samples ==> samples[key] == Pair(SatI64(Count(xs, key)), SatI64(Time(xs, key)))
  {
    SumIsCount(xs, key);
    hide SumOf, RecordsOf, Kept;
  }

  // The addresses of a sample.

  predicate IsAddress(a: u64) {
    a != 0 && a < PERF_CONTEXT_MAX
  }

  /** The instruction pointer, then the callchain without markers and without repeating the address
      before. */
  function AddressesOf(ip: Option<u64>, callchain: seq<u64>): seq<u64> {
    if callchain == [] then if ip.Some? && IsAddress(ip.value) then [ip.value] else []
    else
      var n := |callchain| - 1;
      var before := AddressesOf(ip, callchain[..n]);
      if IsAddress(callchain[n]) && (before == [] || before[|before| - 1] != callchain[n]) then before + [callchain[n]]
      else before
  }

  /** All words of a sample, the instruction pointer first. */
  function WordsOf(ip: Option<u64>, callchain: seq<u64>): seq<u64> {
    (if ip.Some? then [ip.value] else []) + callchain
  }

  /** The closest address before position `n`. */
  predicate Closest(words: seq<u64>, n: nat, m: nat)
    requires n <= |words|
  {
    m < n && IsAddress(words[m]) && forall k :: m < k < n ==> !IsAddress(words[k])
  }

  /** `n` holds an address that does not repeat the closest one before it. */
  ghost predicate IsKept(words: seq<u64>, n: nat) {
    n < |words| && IsAddress(words[n]) && forall m: nat :: Closest(words, n, m) ==> words[m] != words[n]
  }

  /** `picks` are the positions kept, in order. */
  ghost predicate AreKept(words: seq<u64>, picks: seq<nat>) {
    && (forall i, j :: 0 <= i < j < |picks| ==> picks[i] < picks[j])
    && (forall n: nat :: n in picks <==> IsKept(words, n))
  }

  /** The last of these addresses is the last address of the words. */
  ghost predicate LastIs(words: seq<u64>, r: seq<u64>) {
    if r == [] then forall m: nat :: !Closest(words, |words|, m)
    else forall m: nat :: Closest(words, |words|, m) ==> words[m] == r[|r| - 1]
  }

  lemma {:induction false} SomeClosest(words: seq<u64>, n: nat, i: nat) returns (m: nat)
    requires i < n <= |words| && IsAddress(words[i])
    ensures Closest(words, n, m)
    decreases n
  {
    if IsAddress(words[n - 1]) {
      m := n - 1;
    } else {
      m := SomeClosest(words, n - 1, i);
    }
  }

  lemma ClosestPrefix(words: seq<u64>, x: u64, n: nat, m: nat)
    requires n <= |words|
    ensures Closest(words + [x], n, m) <==> Closest(words, n, m)
  {
    var more := words + [x];
    if m < n {
      assert more[m] == words[m];
      assert forall k :: m < k < n ==> IsAddress(more[k]) == IsAddress(words[k]);
    }
  }

  lemma KeptPush(words: seq<u64>, x: u64, r: seq<u64>, picks: seq<nat>)
    requires AreKept(words, picks) && LastIs(words, r)
    requires r == [] ==> forall i :: 0 <= i < |words| ==> !IsAddress(words[i])
    requires r != [] ==> exists i :: 0 <= i < |words| && IsAddress(words[i])
    ensures AreKept(words + [x], if IsAddress(x) && (r == [] || r[|r| - 1] != x) then picks + [|words|] else picks)
  {
    var more, all := words + [x], picks + [|words|];
    forall n: nat
      ensures n < |words| ==> (IsKept(more, n) <==> IsKept(words, n))
    {
      if n < |words| {
        forall m: nat ensures Closest(more, n, m) <==> Closest(words, n, m) {
          ClosestPrefix(words, x, n, m);
        }
      }
    }
    forall m: nat ensures Closest(more, |words|, m) <==> Closest(words, |words|, m) {
      ClosestPrefix(words, x, |words|, m);
    }
    if r != [] {
      var i :| 0 <= i < |words| && IsAddress(words[i]);
      var m := SomeClosest(words, |words|, i);
    }
    assert IsKept(more, |words|) <==> IsAddress(x) && (r == [] || r[|r| - 1] != x);
    forall i | 0 <= i < |picks| ensures picks[i] < |words| {
      assert picks[i] in picks;
    }
    MorePicks(picks, |words|);
  }

  lemma LastPush(words: seq<u64>, x: u64, r: seq<u64>)
    requires LastIs(words, r)
    ensures LastIs(words + [x], if IsAddress(x) && (r == [] || r[|r| - 1] != x) then r + [x] else r)
  {
    var more := words + [x];
    forall m: nat | Closest(more, |more|, m)
      ensures if IsAddress(x) then m == |words| else Closest(words, |words|, m)
    {
      assert more[|words|] == x;
      if m < |words| {
        ClosestPrefix(words, x, |words|, m);
        assert !IsAddress(more[|words|]);
      }
    }
  }

  lemma FirstPick(ip: Option<u64>) returns (picks: seq<nat>)
    ensures var words := WordsOf(ip, []);
            && AreKept(words, picks) && Inside(picks, |words|)
            && AddressesOf(ip, []) == Pick(words, picks) && LastIs(words, AddressesOf(ip, []))
  {
    picks := if ip.Some? && IsAddress(ip.value) then [0] else [];
  }

  /** The addresses of a sample are those of its words, the instruction pointer first, in their order,
      each once however often it is repeated in a row. */
  lemma {:induction false} AddressesPick(ip: Option<u64>, callchain: seq<u64>) returns (picks: seq<nat>)
    ensures var words := WordsOf(ip, callchain);
            && AreKept(words, picks) && Inside(picks, |words|)
            && AddressesOf(ip, callchain) == Pick(words, picks)
            && LastIs(words, AddressesOf(ip, callchain))
  {
    hide AreKept, LastIs, Pick;
    if callchain == [] {
      picks := FirstPick(ip);
    } else {
      var n := |callchain| - 1;
      var before := AddressesPick(ip, callchain[..n]);
      var w, x, r := WordsOf(ip, callchain[..n]), callchain[n], AddressesOf(ip, callchain[..n]);
      assert WordsOf(ip, callchain) == w + [x] by {
        assert callchain == callchain[..n] + [x];
      }
      AddressesAreClean(ip, callchain[..n]);
      WordsHold(ip, callchain[..n]);
      KeptPush(w, x, r, before);
      LastPush(w, x, r);
      PickPush(w, x, before);
      picks := if IsAddress(x) && (r == [] || r[|r| - 1] != x) then before + [|w|] else before;
    }
  }

  lemma WordsHold(ip: Option<u64>, callchain: seq<u64>)
    ensures (exists i :: 0 <= i < |WordsOf(ip, callchain)| && IsAddress(WordsOf(ip, callchain)[i]))
      <==> (ip.Some? && IsAddress(ip.value)) || exists i :: 0 <= i < |callchain| && IsAddress(callchain[i])
  {
    var words := WordsOf(ip, callchain);
    if ip.Some? {
      assert words[0] == ip.value;
      assert forall i :: 0 <= i < |callchain| ==> words[i + 1] == callchain[i];
      assert forall i :: 0 < i < |words| ==> words[i] == callchain[i - 1];
    } else {
      assert words == callchain;
    }
  }

  lemma {:induction false} AddressesAreClean(ip: Option<u64>, callchain: seq<u64>)
    ensures var r := AddressesOf(ip, callchain);
            && (forall i :: 0 <= i < |r| ==> IsAddress(r[i]))
            && (forall i :: 0 < i < |r| ==> r[i - 1] != r[i])
            && (r == [] <==> !(ip.Some? && IsAddress(ip.value)) && forall i :: 0 <= i < |callchain| ==> !IsAddress(callchain[i]))
  {
    if callchain != [] {
      var n := |callchain| - 1;
      AddressesAreClean(ip, callchain[..n]);
      assert forall i :: 0 <= i < n ==> callchain[..n][i] == callchain[i];
    }
  }
}
