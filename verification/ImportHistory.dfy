/** What an import has to make of each record, whatever it keeps in memory for it:
    src/platform/linux/import.rs, lines 105-219. */
module ImportHistory {
  import opened Machine
  import opened Sums
  import opened ProfileTypes
  import opened ImportWindows

  datatype SampleRecord = SampleRecord(
    timestamp: Option<u64>, pid: Option<int>, tid: Option<int>, ip: Option<u64>, callchain: seq<u64>)

  datatype ImportRecord =
    | Comm(pid: int, tid: int, name: string)
    | Sample(sample: SampleRecord)
    | Other

  type ThreadKey = (u32, u32)

  /** `u32::try_from` on an i32. */
  predicate IsId(n: Option<int>) {
    n.Some? && 0 <= n.value <= U32_MAX
  }

  predicate Attributed(s: SampleRecord) {
    s.timestamp.Some? && IsId(s.pid) && IsId(s.tid)
  }

  /** The window of a time: counted from the first sample, earlier times falling into window zero. */
  function IndexOf(timestamp: u64, first: u64, windowNanos: u64): (r: nat)
    requires windowNanos > 0
    ensures r <= timestamp
  {
    SaturatingSub(timestamp, first) / windowNanos
  }

  function FirstWith(first: Option<u64>, r: ImportRecord): Option<u64> {
    if first.None? && r.Sample? && Attributed(r.sample) then r.sample.timestamp else first
  }

  /** The time of the first sample that has a time and a thread. */
  function FirstOf(rs: seq<ImportRecord>): Option<u64> {
    if rs == [] then None else FirstWith(FirstOf(rs[..|rs| - 1]), rs[|rs| - 1])
  }

  /** A thread is remembered while there is room for it. */
  predicate Remembered<V>(known: map<ThreadKey, V>, t: ThreadKey) {
    t in known || |known| < MAX_TRACKED_THREADS
  }

  function NamesWith(names: map<ThreadKey, string>, r: ImportRecord): map<ThreadKey, string> {
    if r.Comm? && 0 <= r.pid <= U32_MAX && 0 <= r.tid <= U32_MAX && Remembered(names, (r.pid, r.tid))
    then names[(r.pid, r.tid) := r.name] else names
  }

  /** The latest name of every thread remembered. */
  function NamesOf(rs: seq<ImportRecord>): map<ThreadKey, string> {
    if rs == [] then map[] else NamesWith(NamesOf(rs[..|rs| - 1]), rs[|rs| - 1])
  }

  function NameOf(names: map<ThreadKey, string>, t: ThreadKey): Option<string> {
    if t in names then Some(names[t]) else None
  }

  function ThreadOf(a: Accepted): ThreadKey {
    (a.key.pid, a.key.tid)
  }

  /** The time of the latest sample of every thread remembered. */
  function TimesOf(xs: seq<Accepted>): map<ThreadKey, u64> {
    if xs == [] then map[]
    else
      var n := |xs| - 1;
      var before := TimesOf(xs[..n]);
      if Remembered(before, ThreadOf(xs[n])) then before[ThreadOf(xs[n]) := xs[n].timestamp] else before
  }

  /** How many samples came from threads there was no room for. */
  function Forgotten(xs: seq<Accepted>): nat {
    if xs == [] then 0
    else
      var n := |xs| - 1;
      Forgotten(xs[..n]) + (if Remembered(TimesOf(xs[..n]), ThreadOf(xs[n])) then 0 else 1)
  }

  /** The time a sample stands for: since its thread's last one, at most a window, never nothing. */
  function DeltaOf(times: map<ThreadKey, u64>, t: ThreadKey, timestamp: u64, windowNanos: u64): (delta: u64)
    requires windowNanos > 0
    ensures 0 < delta <= Max(windowNanos, FALLBACK_PERIOD_NANOS)
  {
    if t in times && times[t] < timestamp then Min(timestamp - times[t], windowNanos) else FALLBACK_PERIOD_NANOS
  }

  function Indices(xs: seq<Accepted>): set<nat> {
    set n | 0 <= n < |xs| :: xs[n].index
  }

  function From(indices: set<nat>, index: nat): set<nat> {
    set i | i in indices && i >= index
  }

  /** More windows than may stay open hold samples from this index on: one of them was written. */
  predicate TooLate(xs: seq<Accepted>, index: nat) {
    |From(Indices(xs), index)| > MAX_PENDING_WINDOWS
  }

  /** What becomes of a record: it is no attributed sample, it is a sample that comes too late, it
      has no address, or it is taken. */
  datatype Fate = Ignored | Late | Empty | Taken(accepted: Accepted)

  /** `xs` are the samples taken from the records `before`. */
  function FateOf(before: seq<ImportRecord>, xs: seq<Accepted>, r: ImportRecord, windowNanos: u64): Fate
    requires windowNanos > 0
  {
    if !r.Sample? || !Attributed(r.sample) then Ignored
    else
      var s := r.sample;
      var first := FirstOf(before);
      var index := IndexOf(s.timestamp.value, if first.Some? then first.value else s.timestamp.value, windowNanos);
      var addresses, t := AddressesOf(s.ip, s.callchain), (s.pid.value, s.tid.value);
      if TooLate(xs, index) then Late
      else if addresses == [] then Empty
      else Taken(Accepted(index, AttributedStack(addresses, t.0, t.1, NameOf(NamesOf(before), t)),
                          DeltaOf(TimesOf(xs), t, s.timestamp.value, windowNanos), s.timestamp.value))
  }

  function Fates(rs: seq<ImportRecord>, windowNanos: u64): (fs: seq<Fate>)
    requires windowNanos > 0
    ensures |fs| == |rs|
  {
    if rs == [] then []
    else
      var n := |rs| - 1;
      var before := Fates(rs[..n], windowNanos);
      before + [FateOf(rs[..n], TakenOf(before), rs[n], windowNanos)]
  }

  /** The samples taken, in order. */
  function TakenOf(fs: seq<Fate>): seq<Accepted> {
    if fs == [] then []
    else
      var n := |fs| - 1;
      TakenOf(fs[..n]) + (if fs[n].Taken? then [fs[n].accepted] else [])
  }

  function LateOf(fs: seq<Fate>): nat {
    if fs == [] then 0 else LateOf(fs[..|fs| - 1]) + (if fs[|fs| - 1].Late? then 1 else 0)
  }

  function EmptyOf(fs: seq<Fate>): nat {
    if fs == [] then 0 else EmptyOf(fs[..|fs| - 1]) + (if fs[|fs| - 1].Empty? then 1 else 0)
  }

  /** How many samples have a time and a thread. */
  function AttributedSamples(rs: seq<ImportRecord>): nat {
    if rs == [] then 0
    else AttributedSamples(rs[..|rs| - 1]) + (if rs[|rs| - 1].Sample? && Attributed(rs[|rs| - 1].sample) then 1 else 0)
  }

  /** A sample with a time, a thread and at least one address. */
  predicate Usable(r: ImportRecord) {
    r.Sample? && Attributed(r.sample) && AddressesOf(r.sample.ip, r.sample.callchain) != []
  }

  function UsableSamples(rs: seq<ImportRecord>): nat {
    if rs == [] then 0 else UsableSamples(rs[..|rs| - 1]) + (if Usable(rs[|rs| - 1]) then 1 else 0)
  }

  // One more record.

  lemma FatesPush(rs: seq<ImportRecord>, r: ImportRecord, windowNanos: u64)
    requires windowNanos > 0
    ensures var fs, fate := Fates(rs, windowNanos), FateOf(rs, TakenOf(Fates(rs, windowNanos)), r, windowNanos);
            && Fates(rs + [r], windowNanos) == fs + [fate]
            && TakenOf(fs + [fate]) == TakenOf(fs) + (if fate.Taken? then [fate.accepted] else [])
            && LateOf(fs + [fate]) == LateOf(fs) + (if fate.Late? then 1 else 0)
            && EmptyOf(fs + [fate]) == EmptyOf(fs) + (if fate.Empty? then 1 else 0)
  {
    hide FateOf;
    assert (rs + [r])[..|rs|] == rs;
    var fs := Fates(rs, windowNanos);
    var fate := FateOf(rs, TakenOf(fs), r, windowNanos);
    assert (fs + [fate])[..|fs|] == fs;
  }

  lemma {:induction false} FatesPrefix(rs: seq<ImportRecord>, n: nat, windowNanos: u64)
    requires n <= |rs| && windowNanos > 0
    ensures Fates(rs, windowNanos)[..n] == Fates(rs[..n], windowNanos)
    decreases |rs|
  {
    if n == |rs| {
      assert rs[..n] == rs;
    } else {
      var m := |rs| - 1;
      FatesPrefix(rs[..m], n, windowNanos);
      assert rs[..m][..n] == rs[..n];
      assert Fates(rs, windowNanos)[..n] == Fates(rs[..m], windowNanos)[..n];
    }
  }

  lemma FateAt(rs: seq<ImportRecord>, n: nat, windowNanos: u64)
    requires windowNanos > 0 && n < |rs|
    ensures Fates(rs, windowNanos)[n] == FateOf(rs[..n], TakenOf(Fates(rs, windowNanos)[..n]), rs[n], windowNanos)
  {
    FatesPrefix(rs, n, windowNanos);
    FatesPrefix(rs, n + 1, windowNanos);
    FatesPush(rs[..n], rs[n], windowNanos);
    assert rs[..n] + [rs[n]] == rs[..n + 1];
    assert Fates(rs, windowNanos)[n] == Fates(rs, windowNanos)[..n + 1][n];
    hide *;
  }

  lemma {:induction false} FirstStays(rs: seq<ImportRecord>, n: nat)
    requires n < |rs| && rs[n].Sample? && Attributed(rs[n].sample)
    ensures FirstOf(rs).Some?
    ensures FirstOf(rs) == if FirstOf(rs[..n]).Some? then FirstOf(rs[..n]) else rs[n].sample.timestamp
    decreases |rs|
  {
    var m := |rs| - 1;
    if n < m {
      assert rs[..m][..n] == rs[..n];
      FirstStays(rs[..m], n);
    }
  }

  /** What an import knows after these records. */
  datatype Progress = Progress(
    taken: seq<Accepted>, late: nat, first: Option<u64>, names: map<ThreadKey, string>, times: map<ThreadKey, u64>,
    forgotten: nat)

  function ProgressOf(rs: seq<ImportRecord>, windowNanos: u64): Progress
    requires windowNanos > 0
  {
    var taken := TakenOf(Fates(rs, windowNanos));
    Progress(taken, LateOf(Fates(rs, windowNanos)), FirstOf(rs), NamesOf(rs), TimesOf(taken), Forgotten(taken))
  }

  /** One more record moves what is known by its fate. */
  lemma ProgressPush(rs: seq<ImportRecord>, r: ImportRecord, windowNanos: u64)
    requires windowNanos > 0
    ensures var p, q := ProgressOf(rs, windowNanos), ProgressOf(rs + [r], windowNanos);
            var fate := FateOf(rs, p.taken, r, windowNanos);
            && p.first == FirstOf(rs) && p.names == NamesOf(rs) && p.times == TimesOf(p.taken)
            && q.late == p.late + (if fate.Late? then 1 else 0)
            && q.first == FirstWith(p.first, r) && q.names == NamesWith(p.names, r)
            && (!fate.Taken? ==> q.taken == p.taken && q.times == p.times && q.forgotten == p.forgotten)
            && (fate.Taken? ==>
                  var a := fate.accepted;
                  && q.taken == p.taken + [a]
                  && q.times == (if Remembered(p.times, ThreadOf(a)) then p.times[ThreadOf(a) := a.timestamp] else p.times)
                  && q.forgotten == p.forgotten + (if Remembered(p.times, ThreadOf(a)) then 0 else 1))
  {
    hide FateOf;
    FatesPush(rs, r, windowNanos);
    assert (rs + [r])[..|rs|] == rs;
    var xs, fate := TakenOf(Fates(rs, windowNanos)), FateOf(rs, TakenOf(Fates(rs, windowNanos)), r, windowNanos);
    if fate.Taken? {
      assert (xs + [fate.accepted])[..|xs|] == xs;
    }
  }

  // What the fates mean.

  predicate IsSample(rs: seq<ImportRecord>, n: nat) {
    n < |rs| && rs[n].Sample? && Attributed(rs[n].sample)
  }

  ghost predicate IsFirst(rs: seq<ImportRecord>, n: nat) {
    IsSample(rs, n) && forall m: nat :: m < n ==> !IsSample(rs, m)
  }

  /** `index` counts whole windows from the first sample's time on; earlier times belong to window zero. */
  predicate InWindow(index: nat, timestamp: u64, first: u64, windowNanos: u64) {
    if timestamp < first then index == 0
    else index * windowNanos <= timestamp - first < (index + 1) * windowNanos
  }

  lemma IndexInWindow(timestamp: u64, first: u64, windowNanos: u64)
    requires windowNanos > 0
    ensures InWindow(IndexOf(timestamp, first, windowNanos), timestamp, first, windowNanos)
  {
    var x := SaturatingSub(timestamp, first);
    var q := x / windowNanos;
    assert x == q * windowNanos + x % windowNanos;
    assert (q + 1) * windowNanos == q * windowNanos + windowNanos;
    if x == 0 {
      assert q == 0;
    }
  }

  lemma {:induction false} FirstMeans(rs: seq<ImportRecord>) returns (n: nat)
    requires FirstOf(rs).Some?
    ensures IsFirst(rs, n) && FirstOf(rs) == rs[n].sample.timestamp
  {
    var m := |rs| - 1;
    if FirstOf(rs[..m]).Some? {
      n := FirstMeans(rs[..m]);
      assert forall k: nat :: k < m ==> (IsSample(rs, k) <==> IsSample(rs[..m], k));
    } else {
      n := m;
      forall k: nat | k < m
        ensures !IsSample(rs, k)
      {
        if IsSample(rs, k) {
          FirstStays(rs[..m], k);
        }
      }
    }
  }

  lemma FateBody(rs: seq<ImportRecord>, n: nat, windowNanos: u64)
    requires windowNanos > 0 && IsSample(rs, n)
    ensures FirstOf(rs).Some?
    ensures var fate, s := Fates(rs, windowNanos)[n], rs[n].sample;
            var earlier := TakenOf(Fates(rs, windowNanos)[..n]);
            var index := IndexOf(s.timestamp.value, FirstOf(rs).value, windowNanos);
            && (fate.Late? <==> TooLate(earlier, index))
            && (fate.Empty? <==> !TooLate(earlier, index) && !Usable(rs[n]))
            && (fate.Taken? <==> !TooLate(earlier, index) && Usable(rs[n]))
            && (fate.Taken? ==>
                  && fate.accepted.index == index && fate.accepted.timestamp == s.timestamp.value
                  && fate.accepted.key.stack == AddressesOf(s.ip, s.callchain)
                  && ThreadOf(fate.accepted) == (s.pid.value, s.tid.value)
                  && fate.accepted.key.threadName == NameOf(NamesOf(rs[..n]), (s.pid.value, s.tid.value))
                  && fate.accepted.delta
                     == DeltaOf(TimesOf(earlier), (s.pid.value, s.tid.value), s.timestamp.value, windowNanos))
  {
    hide Fates, TakenOf, TooLate, AddressesOf, IndexOf, DeltaOf, NamesOf, TimesOf, FirstOf;
    FateAt(rs, n, windowNanos);
    FirstStays(rs, n);
  }

  /** The fate of one sample of a recording: its window counts from the time of the first sample of
      all. It is late exactly when, of the windows from its own on, more than may be open already hold
      samples; else it is taken if it has an address, under its own stack, thread and time, named as
      its thread is known. */
  lemma SampleFate(rs: seq<ImportRecord>, n: nat, windowNanos: u64) returns (first: nat, index: nat)
    requires windowNanos > 0 && IsSample(rs, n)
    ensures IsFirst(rs, first) && FirstOf(rs) == rs[first].sample.timestamp
    ensures InWindow(index, rs[n].sample.timestamp.value, rs[first].sample.timestamp.value, windowNanos)
    ensures var fate, s := Fates(rs, windowNanos)[n], rs[n].sample;
            var earlier := TakenOf(Fates(rs, windowNanos)[..n]);
            && (fate.Late? <==> TooLate(earlier, index))
            && (fate.Empty? <==> !TooLate(earlier, index) && !Usable(rs[n]))
            && (fate.Taken? <==> !TooLate(earlier, index) && Usable(rs[n]))
            && (fate.Taken? ==>
                  && fate.accepted.index == index && fate.accepted.timestamp == s.timestamp.value
                  && fate.accepted.key.stack == AddressesOf(s.ip, s.callchain)
                  && ThreadOf(fate.accepted) == (s.pid.value, s.tid.value)
                  && fate.accepted.key.threadName == NameOf(NamesOf(rs[..n]), (s.pid.value, s.tid.value))
                  && fate.accepted.delta
                     == DeltaOf(TimesOf(earlier), (s.pid.value, s.tid.value), s.timestamp.value, windowNanos))
  {
    hide Fates, TakenOf, TooLate, AddressesOf, IndexOf, DeltaOf, NamesOf, TimesOf, FirstOf, InWindow, IsFirst;
    FateBody(rs, n, windowNanos);
    first := FirstMeans(rs);
    assert IsSample(rs, first) by {
      FirstIsSample(rs, first);
    }
    index := IndexOf(rs[n].sample.timestamp.value, rs[first].sample.timestamp.value, windowNanos);
    IndexInWindow(rs[n].sample.timestamp.value, rs[first].sample.timestamp.value, windowNanos);
  }

  lemma FirstIsSample(rs: seq<ImportRecord>, n: nat)
    requires IsFirst(rs, n)
    ensures IsSample(rs, n)
  {
  }

  /** A sample taken lies in its own window of the recording. */
  ghost predicate InOwnWindow(rs: seq<ImportRecord>, a: Accepted, windowNanos: u64) {
    exists first: nat :: IsFirst(rs, first) && InWindow(a.index, a.timestamp, rs[first].sample.timestamp.value, windowNanos)
  }

  lemma TakenInWindow(rs: seq<ImportRecord>, windowNanos: u64)
    requires windowNanos > 0
    ensures forall k :: 0 <= k < |TakenOf(Fates(rs, windowNanos))| ==>
      InOwnWindow(rs, TakenOf(Fates(rs, windowNanos))[k], windowNanos)
  {
    hide Fates, TakenOf, TooLate, AddressesOf, IndexOf, DeltaOf, NamesOf, TimesOf, FirstOf, InWindow, IsFirst;
    var fs := Fates(rs, windowNanos);
    forall k | 0 <= k < |TakenOf(fs)|
      ensures InOwnWindow(rs, TakenOf(fs)[k], windowNanos)
    {
      var i := TakenFrom(fs, k);
      IgnoredFate(rs, i, windowNanos);
      var first, index := SampleFate(rs, i, windowNanos);
    }
  }

  predicate NamedAt(rs: seq<ImportRecord>, n: nat, t: ThreadKey) {
    n < |rs| && rs[n].Comm? && (rs[n].pid, rs[n].tid) == t
  }

  /** A thread's name is the last one it was given; a thread that was given one has none only while
      the bounded table is full. */
  lemma {:induction false} NameIsLatest(rs: seq<ImportRecord>, t: ThreadKey) returns (n: nat)
    ensures t in NamesOf(rs) ==>
      NamedAt(rs, n, t) && rs[n].name == NamesOf(rs)[t] && forall m: nat :: n < m ==> !NamedAt(rs, m, t)
    ensures t !in NamesOf(rs) && (exists m: nat :: NamedAt(rs, m, t)) ==> |NamesOf(rs)| >= MAX_TRACKED_THREADS
  {
    n := 0;
    if rs != [] {
      var m := |rs| - 1;
      var before := NamesOf(rs[..m]);
      n := NameIsLatest(rs[..m], t);
      assert forall k: nat :: k < m ==> (NamedAt(rs, k, t) <==> NamedAt(rs[..m], k, t));
      if NamedAt(rs, m, t) {
        if Remembered(before, t) {
          n := m;
        }
      } else if NamesOf(rs) != before {
        assert |before[(rs[m].pid, rs[m].tid) := rs[m].name]| >= |before| by {
          assert before[(rs[m].pid, rs[m].tid) := rs[m].name].Keys == before.Keys + {(rs[m].pid, rs[m].tid)};
        }
      }
    }
  }

  /** A thread's time is that of its last sample taken; a thread with samples has none only while the
      bounded table is full. */
  lemma {:induction false} TimeIsLatest(xs: seq<Accepted>, t: ThreadKey) returns (n: nat)
    ensures t in TimesOf(xs) ==>
      n < |xs| && ThreadOf(xs[n]) == t && xs[n].timestamp == TimesOf(xs)[t]
      && forall m :: n < m < |xs| ==> ThreadOf(xs[m]) != t
    ensures t !in TimesOf(xs) && (exists m :: 0 <= m < |xs| && ThreadOf(xs[m]) == t) ==> |TimesOf(xs)| >= MAX_TRACKED_THREADS
  {
    n := 0;
    if xs != [] {
      var m := |xs| - 1;
      var before := TimesOf(xs[..m]);
      n := TimeIsLatest(xs[..m], t);
      assert forall k :: 0 <= k < m ==> xs[..m][k] == xs[k];
      if ThreadOf(xs[m]) == t {
        if Remembered(before, t) {
          n := m;
        }
      } else if TimesOf(xs) != before {
        assert |before[ThreadOf(xs[m]) := xs[m].timestamp]| >= |before| by {
          assert before[ThreadOf(xs[m]) := xs[m].timestamp].Keys == before.Keys + {ThreadOf(xs[m])};
        }
      }
    }
  }

  /** Every sample with a time and a thread is taken, late, or without an address. */
  lemma {:induction false} SamplesAddUp(rs: seq<ImportRecord>, windowNanos: u64)
    requires windowNanos > 0
    ensures var fs := Fates(rs, windowNanos);
            AttributedSamples(rs) == |TakenOf(fs)| + LateOf(fs) + EmptyOf(fs)
  {
    if rs != [] {
      var n := |rs| - 1;
      SamplesAddUp(rs[..n], windowNanos);
      FatesPush(rs[..n], rs[n], windowNanos);
      assert rs[..n] + [rs[n]] == rs;
    }
  }

  /** Something is taken exactly when there is something to take: the first usable sample is never
      late. */
  lemma {:induction false} SomethingTaken(rs: seq<ImportRecord>, windowNanos: u64)
    requires windowNanos > 0
    ensures TakenOf(Fates(rs, windowNanos)) == [] <==> UsableSamples(rs) == 0
  {
    if rs != [] {
      var n := |rs| - 1;
      SomethingTaken(rs[..n], windowNanos);
      FatesPush(rs[..n], rs[n], windowNanos);
      assert rs[..n] + [rs[n]] == rs;
      assert Indices([]) == {};
      assert forall i :: From({}, i) == {};
    }
  }

  /** A sample less than the allowed number of windows behind all earlier ones is not late. */
  lemma NearEnough(xs: seq<Accepted>, index: nat)
    requires forall n :: 0 <= n < |xs| ==> xs[n].index < index + MAX_PENDING_WINDOWS
    ensures !TooLate(xs, index)
  {
    var late: set<int> := From(Indices(xs), index);
    SetBound(late, index, index + MAX_PENDING_WINDOWS);
    assert late == From(Indices(xs), index);
  }

  lemma {:induction false} TakenFrom(fs: seq<Fate>, k: nat) returns (i: nat)
    requires k < |TakenOf(fs)|
    ensures i < |fs| && fs[i] == Taken(TakenOf(fs)[k])
    decreases |fs|
  {
    var n := |fs| - 1;
    if k < |TakenOf(fs[..n])| {
      i := TakenFrom(fs[..n], k);
    } else {
      i := n;
    }
  }

  lemma {:induction false} CountTaken(rs: seq<ImportRecord>, fs: seq<Fate>)
    requires |fs| == |rs|
    requires forall n :: 0 <= n < |rs| ==> !fs[n].Late? && (fs[n].Taken? <==> Usable(rs[n]))
    ensures LateOf(fs) == 0 && |TakenOf(fs)| == UsableSamples(rs)
  {
    if rs != [] {
      var n := |rs| - 1;
      CountTaken(rs[..n], fs[..n]);
    }
  }

  /** No sample belongs as many windows before an earlier one as may be open at once. */
  ghost predicate NearlyInOrder(rs: seq<ImportRecord>, windowNanos: u64) {
    forall first: nat, i: nat, j: nat, a: nat, b: nat ::
      IsFirst(rs, first) && i < j && IsSample(rs, i) && IsSample(rs, j)
      && InWindow(a, rs[i].sample.timestamp.value, rs[first].sample.timestamp.value, windowNanos)
      && InWindow(b, rs[j].sample.timestamp.value, rs[first].sample.timestamp.value, windowNanos)
      ==> a < b + MAX_PENDING_WINDOWS
  }

  lemma FirstUnique(rs: seq<ImportRecord>, m: nat, n: nat)
    requires IsFirst(rs, m) && IsFirst(rs, n)
    ensures m == n
  {
  }

  lemma NearlyInOrderSample(rs: seq<ImportRecord>, n: nat, windowNanos: u64)
    requires windowNanos > 0 && IsSample(rs, n) && NearlyInOrder(rs, windowNanos)
    ensures !Fates(rs, windowNanos)[n].Late?
  {
    hide Fates, TakenOf, TooLate, AddressesOf, IndexOf, DeltaOf, NamesOf, TimesOf, FirstOf, InWindow, IsFirst;
    var first, index := SampleFate(rs, n, windowNanos);
    var fs := Fates(rs, windowNanos);
    var earlier := TakenOf(fs[..n]);
    forall k | 0 <= k < |earlier|
      ensures earlier[k].index < index + MAX_PENDING_WINDOWS
    {
      var i := TakenFrom(fs[..n], k);
      IgnoredFate(rs, i, windowNanos);
      var start, other := SampleFate(rs, i, windowNanos);
      FirstUnique(rs, start, first);
    }
    NearEnough(earlier, index);
  }

  lemma IgnoredFate(rs: seq<ImportRecord>, n: nat, windowNanos: u64)
    requires windowNanos > 0 && n < |rs|
    ensures Fates(rs, windowNanos)[n].Ignored? <==> !IsSample(rs, n)
  {
    hide Fates, TakenOf, TooLate, AddressesOf, IndexOf, DeltaOf, NamesOf, TimesOf, FirstOf;
    FateAt(rs, n, windowNanos);
  }

  /** A nearly ordered recording loses none of its usable samples. */
  lemma NearlyInOrderIsComplete(rs: seq<ImportRecord>, windowNanos: u64)
    requires windowNanos > 0 && NearlyInOrder(rs, windowNanos)
    ensures LateOf(Fates(rs, windowNanos)) == 0
    ensures |TakenOf(Fates(rs, windowNanos))| == UsableSamples(rs)
  {
    hide Fates, TakenOf, TooLate, AddressesOf, IndexOf, DeltaOf, NamesOf, TimesOf, FirstOf, NearlyInOrder;
    var fs := Fates(rs, windowNanos);
    forall n | 0 <= n < |rs|
      ensures !fs[n].Late? && (fs[n].Taken? <==> Usable(rs[n]))
    {
      IgnoredFate(rs, n, windowNanos);
      if IsSample(rs, n) {
        NearlyInOrderSample(rs, n, windowNanos);
        FateBody(rs, n, windowNanos);
      }
    }
    CountTaken(rs, fs);
  }
}
