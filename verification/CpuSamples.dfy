/** What a CPU sample contributes to its window: src/platform/linux/record.rs, lines 1862-1932. */
module CpuSamples {
  import opened Machine
  import opened Sums
  import opened CappedGroupBy
  import opened ProfileTypes
  import opened PerfSamples
  import Bits
  import Maps

  const DEFAULT_MAX_FRAMES: nat := 127

  /** What unwinding a stack snapshot yields. */
  datatype Outcome = Outcome(frames: seq<u64>, truncated: bool, failed: bool, fatal: bool)

  /** How the samples of a batch are judged. The unwinder is not part of this model: it is any function. */
  datatype Judgement = Judgement(
    ranges: seq<Maps.Range>, unwind: Option<(Registers, seq<u8>) -> Outcome>, allowPartial: bool, frequency: u32)

  datatype Verdict = Rejected(invalid: nat) | Fatal | Usable(frames: seq<u64>, truncated: bool)

  function Covered(ranges: seq<Maps.Range>, frames: seq<u64>): (n: nat)
    ensures n <= |frames|
    ensures n == |frames| <==> forall i :: 0 <= i < |frames| ==> Maps.Covers(ranges, frames[i])
  {
    if frames == [] then 0
    else
      var n := |frames| - 1;
      assert forall i :: 0 <= i < n ==> frames[..n][i] == frames[i];
      Covered(ranges, frames[..n]) + (if Maps.Covers(ranges, frames[n]) then 1 else 0)
  }

  function Judge(data: PerfSampleData, how: Judgement): Verdict {
    match data
    case FramePointer(frames) =>
      var valid := Covered(how.ranges, frames);
      if valid != |frames| || frames == [] || HasAddressCycle(frames) then Rejected(|frames| - valid)
      else Usable(frames, |frames| == DEFAULT_MAX_FRAMES)
    case Dwarf(registers, stack) =>
      if how.unwind.Some? then
        var outcome := how.unwind.value(registers, stack);
        if outcome.fatal then Fatal
        else if outcome.frames == [] || (!how.allowPartial && |outcome.frames| == 1 && outcome.failed) then Rejected(1)
        else Usable(outcome.frames, outcome.truncated)
      else if how.allowPartial && registers.ip != 0 then Usable([registers.ip], false)
      else Rejected(1)
  }

  /** What an accepted sample adds: its stack, thread, nanoseconds and time. */
  datatype Contribution = Contribution(stack: seq<u64>, pid: u32, tid: u32, nanoseconds: nat, timestamp: u64)

  function PeriodOf(period: u64, frequency: u32): nat {
    SatI64(if period == 0 then 1_000_000_000 / Max(frequency, 1) else period)
  }

  function ContributionOf(s: PerfSample, frames: seq<u64>, frequency: u32, fallbackPid: u32): Contribution {
    Contribution(frames, if s.pid == 0 then fallbackPid else s.pid, s.tid, PeriodOf(s.period, frequency), s.time)
  }

  /** The contributions of samples, in order. */
  function Contributions(ss: seq<PerfSample>, how: Judgement, fallbackPid: u32): seq<Contribution> {
    if ss == [] then []
    else
      var n := |ss| - 1;
      var v := Judge(ss[n].data, how);
      Contributions(ss[..n], how, fallbackPid)
      + (if v.Usable? then [ContributionOf(ss[n], v.frames, how.frequency, fallbackPid)] else [])
  }

  type ThreadKey = (u32, u32)

  function Thread(c: Contribution): ThreadKey {
    (c.pid, c.tid)
  }

  function NameIn(names: map<ThreadKey, Option<string>>, t: ThreadKey): Option<string> {
    if t in names then names[t] else None
  }

  function KeyOf(c: Contribution, names: map<ThreadKey, Option<string>>): AttributedStack {
    AttributedStack(c.stack, c.pid, c.tid, NameIn(names, Thread(c)))
  }

  function Records(cs: seq<Contribution>, names: map<ThreadKey, Option<string>>): (r: seq<Record<AttributedStack>>)
    ensures |r| == |cs|
  {
    seq(|cs|, i requires 0 <= i < |cs| => Record(KeyOf(cs[i], names), 1, cs[i].nanoseconds))
  }

  function Timeline(cs: seq<Contribution>, names: map<ThreadKey, Option<string>>): (r: seq<TimedSample>)
    ensures |r| == |cs|
  {
    seq(|cs|, i requires 0 <= i < |cs| => TimedSample(KeyOf(cs[i], names), cs[i].timestamp, cs[i].nanoseconds))
  }

  /** Every thread seen so far has its name kept, unless the bounded table was full. */
  ghost predicate Named(cs: seq<Contribution>, names: map<ThreadKey, Option<string>>, limit: nat) {
    forall i :: 0 <= i < |cs| ==> Thread(cs[i]) in names || |names| >= limit
  }

  /** Remembering one more thread's name renames nobody seen before. */
  lemma NamesGrow(cs: seq<Contribution>, names: map<ThreadKey, Option<string>>, limit: nat, t: ThreadKey,
                  name: Option<string>)
    requires Named(cs, names, limit) && t !in names && |names| < limit
    ensures Records(cs, names[t := name]) == Records(cs, names) && Timeline(cs, names[t := name]) == Timeline(cs, names)
    ensures Named(cs, names[t := name], limit)
  {
  }

  // What the verdicts and contributions mean.

  /** The positions of the frames that are not executable. */
  function Uncovered(ranges: seq<Maps.Range>, frames: seq<u64>): set<nat> {
    set i: nat | i < |frames| && !Maps.Covers(ranges, frames[i])
  }

  lemma {:induction false} CoveredCounts(ranges: seq<Maps.Range>, frames: seq<u64>)
    ensures |frames| - Covered(ranges, frames) == |Uncovered(ranges, frames)|
  {
    if frames != [] {
      var n := |frames| - 1;
      CoveredCounts(ranges, frames[..n]);
      var before := Uncovered(ranges, frames[..n]);
      assert Uncovered(ranges, frames) == if Maps.Covers(ranges, frames[n]) then before else before + {n};
    }
  }

  /** A callchain is used exactly when it has frames, all of them executable and no two alike; then it is
      kept whole. Of any other the frames that are not executable are counted. */
  lemma CallchainJudged(frames: seq<u64>, how: Judgement)
    ensures var v := Judge(FramePointer(frames), how);
            && (v.Usable? <==>
                  && frames != [] && Uncovered(how.ranges, frames) == {}
                  && forall i, j :: 0 <= i < j < |frames| ==> frames[i] != frames[j])
            && (v.Usable? ==> v.frames == frames && (v.truncated <==> |frames| == DEFAULT_MAX_FRAMES))
            && (!v.Usable? ==> v == Rejected(|Uncovered(how.ranges, frames)|))
  {
    CoveredCounts(how.ranges, frames);
  }

  /** A stack snapshot without an unwinder is used exactly when a part of a stack will do and the sampled
      instruction is known, and then stands for that alone. */
  lemma SnapshotJudged(registers: Registers, stack: seq<u8>, how: Judgement)
    requires how.unwind.None?
    ensures var v := Judge(Dwarf(registers, stack), how);
            && (v.Usable? <==> how.allowPartial && registers.ip != 0)
            && (v.Usable? ==> v.frames == [registers.ip] && !v.truncated) && (!v.Usable? ==> v == Rejected(1))
  {
  }

  /** A usable sample contributes once: its frames under its own thread and time, the target's process
      standing in for process zero, and its period, or without one the time between two samples. */
  lemma SampleContributes(s: PerfSample, how: Judgement, fallbackPid: u32)
    ensures var v, cs := Judge(s.data, how), Contributions([s], how, fallbackPid);
            && (!v.Usable? ==> cs == [])
            && (v.Usable? ==>
                  && |cs| == 1
                  && cs[0].stack == v.frames && cs[0].tid == s.tid && cs[0].timestamp == s.time
                  && (s.pid != 0 ==> cs[0].pid == s.pid) && (s.pid == 0 ==> cs[0].pid == fallbackPid)
                  && (s.period != 0 ==> cs[0].nanoseconds == Min(s.period, I64_MAX))
                  && (s.period == 0 ==>
                        var frequency := if how.frequency == 0 then 1 else how.frequency;
                        cs[0].nanoseconds * frequency <= 1_000_000_000 < (cs[0].nanoseconds + 1) * frequency))
  {
    hide Judge;
    var frequency := Max(how.frequency, 1);
    var q := 1_000_000_000 / frequency;
    assert 1_000_000_000 == q * frequency + 1_000_000_000 % frequency;
    assert (q + 1) * frequency == q * frequency + frequency;
    DivSmaller(1_000_000_000, frequency);
    assert [s][..0] == [] && Contributions([], how, fallbackPid) == [];
  }

  lemma DivSmaller(n: nat, d: nat)
    requires d > 0
    ensures n / d <= n
  {
    var q := n / d;
    assert n == q * d + n % d;
    Bits.MulMonotone(q, 1, d);
  }

  /** The contributions of several samples follow one another. */
  lemma {:induction false} SamplesContribute(a: seq<PerfSample>, b: seq<PerfSample>, how: Judgement, fallbackPid: u32)
    ensures Contributions(a + b, how, fallbackPid) == Contributions(a, how, fallbackPid) + Contributions(b, how, fallbackPid)
    decreases |b|
  {
    hide Judge, ContributionOf;
    if b == [] {
      assert a + b == a;
    } else {
      var n := |b| - 1;
      assert (a + b)[..|a| + n] == a + b[..n] && (a + b)[|a| + n] == b[n];
      SamplesContribute(a, b[..n], how, fallbackPid);
    }
  }

  // What a window shows for a stack and thread.

  function Count(cs: seq<Contribution>, names: map<ThreadKey, Option<string>>, key: AttributedStack): nat {
    if cs == [] then 0
    else Count(cs[..|cs| - 1], names, key) + (if KeyOf(cs[|cs| - 1], names) == key then 1 else 0)
  }

  function Time(cs: seq<Contribution>, names: map<ThreadKey, Option<string>>, key: AttributedStack): nat {
    if cs == [] then 0
    else Time(cs[..|cs| - 1], names, key) + (if KeyOf(cs[|cs| - 1], names) == key then cs[|cs| - 1].nanoseconds else 0)
  }

  lemma {:induction false} SumIsCount(cs: seq<Contribution>, names: map<ThreadKey, Option<string>>, key: AttributedStack)
    ensures SumOf(Records(cs, names), key) == Pair(Count(cs, names, key), Time(cs, names, key))
  {
    if cs != [] {
      var n := |cs| - 1;
      SumIsCount(cs[..n], names, key);
      assert Records(cs, names)[..n] == Records(cs[..n], names);
    }
  }
}
