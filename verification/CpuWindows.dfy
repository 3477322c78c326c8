/** The CPU window and its ingestion: src/platform/linux/record.rs, lines 1703-1836 and 1839-1972. */
module CpuWindows {
  import opened Machine
  import opened Sums
  import opened CappedGroupBy
  import opened ProfileTypes
  import opened PerfSamples
  import opened CpuSamples
  import Maps
  import PerfRing
  import EventSorter

  /** The frames of all these stacks. */
  function Depths(rs: seq<Record<AttributedStack>>): nat {
    if rs == [] then 0 else Depths(rs[..|rs| - 1]) + |rs[|rs| - 1].key.stack|
  }

  lemma DepthsPush(rs: seq<Record<AttributedStack>>, r: Record<AttributedStack>)
    ensures Depths(rs + [r]) == Depths(rs) + |r.key.stack|
  {
    assert (rs + [r])[..|rs|] == rs;
  }

  class CpuWindow {
    const fallbackPid: u32
    const maxStacks: nat
    const maxThreadAttributions: nat
    const timelineEnabled: bool
    const maxTimelineSamples: nat
    var samples: map<AttributedStack, Pair>
    var timeline: seq<TimedSample>
    var timelineSamples: nat
    var timelineDropped: nat
    var threadNames: map<ThreadKey, Option<string>>
    var threadAttributionDroppedSamples: nat
    var totalSamples: nat
    var usableSamples: nat
    var depthSum: nat
    var lostSamples: u64
    var malformedSamples: u64
    var truncatedSamples: nat
    var invalidAddresses: nat
    var aggregationDroppedSamples: nat
    var aggregationDroppedNanoseconds: nat
    /** The accepted samples of the window, in order. */
    ghost var accepted: seq<Contribution>

    /** The accepted samples as contributions to the table, under the names known now. */
    ghost function Window(): seq<Record<AttributedStack>>
      reads this`accepted, this`threadNames
    {
      Records(accepted, threadNames)
    }

    /** The table is the group-by of the accepted samples restricted to the first keys; what is kept
        and what is dropped are all of them, in number and in frames. */
    ghost predicate Aggregated()
      reads this`accepted, this`threadNames, this`samples, this`usableSamples, this`depthSum,
            this`aggregationDroppedSamples, this`aggregationDroppedNanoseconds
    {
      && samples == Capped(Window(), maxStacks)
      && aggregationDroppedSamples == |Dropped(Window(), maxStacks)|
      && aggregationDroppedNanoseconds == SatI64(Sum(Dropped(Window(), maxStacks)).second)
      && |accepted| == usableSamples + aggregationDroppedSamples
      && Depths(Window()) == depthSum + Depths(Dropped(Window(), maxStacks))
    }

    /** An enabled timeline shows the first accepted samples and counts the others. */
    ghost predicate Timed()
      reads this`accepted, this`threadNames, this`timeline, this`timelineSamples, this`timelineDropped
    {
      if timelineEnabled then
        && timeline == Timeline(accepted[..Min(|accepted|, maxTimelineSamples)], threadNames)
        && timelineSamples == |accepted| && timelineDropped == |accepted| - |timeline|
      else timeline == [] && timelineSamples == 0 && timelineDropped == 0
    }

    ghost predicate Valid()
      reads this`accepted, this`threadNames, this`samples, this`usableSamples, this`depthSum,
            this`aggregationDroppedSamples, this`aggregationDroppedNanoseconds, this`timeline, this`timelineSamples, this`timelineDropped
    {
      Aggregated() && Timed() && Named(accepted, threadNames, maxThreadAttributions)
    }

    constructor (fallbackPid: u32, maxStacks: nat, maxThreadAttributions: nat, timelineEnabled: bool,
                 maxTimelineSamples: nat)
      ensures Valid() && accepted == [] && totalSamples == 0 && threadNames == map[]
      ensures this.fallbackPid == fallbackPid && this.maxStacks == maxStacks
      ensures this.maxThreadAttributions == maxThreadAttributions
      ensures this.timelineEnabled == timelineEnabled && this.maxTimelineSamples == maxTimelineSamples
    {
      this.fallbackPid, this.maxStacks, this.maxThreadAttributions := fallbackPid, maxStacks, maxThreadAttributions;
      this.timelineEnabled, this.maxTimelineSamples := timelineEnabled, maxTimelineSamples;
      samples, timeline, threadNames, accepted := map[], [], map[], [];
      timelineSamples, timelineDropped, threadAttributionDroppedSamples := 0, 0, 0;
      totalSamples, usableSamples, lostSamples, malformedSamples, truncatedSamples := 0, 0, 0, 0, 0;
      invalidAddresses, depthSum, aggregationDroppedSamples, aggregationDroppedNanoseconds := 0, 0, 0, 0;
      new;
      Empty<AttributedStack>(maxStacks);
    }

    /** `thread_name`: a bounded table remembers the answer, so a thread is called the same all through
        the window. */
    method ThreadName(t: ThreadKey, comm: ThreadKey -> Option<string>) returns (name: Option<string>)
      requires Valid()
      modifies this`threadNames, this`threadAttributionDroppedSamples
      ensures Valid() && name == NameIn(threadNames, t)
      ensures t in threadNames || |threadNames| >= maxThreadAttributions
      ensures threadNames == (if t !in old(threadNames) && |old(threadNames)| < maxThreadAttributions
                              then old(threadNames)[t := comm(t)] else old(threadNames))
      ensures threadAttributionDroppedSamples
           == old(threadAttributionDroppedSamples)
              + (if t !in old(threadNames) && |old(threadNames)| >= maxThreadAttributions then 1 else 0)
    {
      hide Capped, Dropped, Sum, Records, Timeline, Named;
      if t in threadNames {
        return threadNames[t];
      }
      if |threadNames| >= maxThreadAttributions {
        threadAttributionDroppedSamples := threadAttributionDroppedSamples + 1;
        return None;
      }
      name := comm(t);
      NamesGrow(accepted, threadNames, maxThreadAttributions, t, name);
      NamesGrow(accepted[..Min(|accepted|, maxTimelineSamples)], threadNames, maxThreadAttributions, t, name) by {
        NamedPrefix(accepted, threadNames, maxThreadAttributions, Min(|accepted|, maxTimelineSamples));
      }
      threadNames := threadNames[t := name];
    }

    /** The timeline takes a sample while it has room. */
    method Record(c: Contribution, key: AttributedStack)
      requires Timed() && key == KeyOf(c, threadNames)
      modifies this`timeline, this`timelineSamples, this`timelineDropped, this`accepted
      ensures accepted == old(accepted) + [c] && Timed()
    {
      ghost var more := accepted + [c];
      if timelineEnabled {
        timelineSamples := timelineSamples + 1;
        if |timeline| < maxTimelineSamples {
          assert accepted[..|accepted|] == accepted && more[..|more|] == more;
          timeline := timeline + [TimedSample(key, c.timestamp, c.nanoseconds)];
        } else {
          assert more[..maxTimelineSamples] == accepted[..maxTimelineSamples];
          timelineDropped := timelineDropped + 1;
        }
      }
      accepted := more;
    }

    /** The table takes a contribution to a key it has, or to a new one while it has room. */
    method Aggregate(key: AttributedStack, period: nat, ghost rs: seq<Record<AttributedStack>>)
      requires samples == Capped(rs, maxStacks) && aggregationDroppedSamples == |Dropped(rs, maxStacks)|
      requires aggregationDroppedNanoseconds == SatI64(Sum(Dropped(rs, maxStacks)).second)
      requires |rs| == usableSamples + aggregationDroppedSamples && period <= I64_MAX
      requires Depths(rs) == depthSum + Depths(Dropped(rs, maxStacks))
      modifies this`samples, this`usableSamples, this`depthSum, this`aggregationDroppedSamples, this`aggregationDroppedNanoseconds
      ensures var more := rs + [CappedGroupBy.Record(key, 1, period)];
              && samples == Capped(more, maxStacks) && aggregationDroppedSamples == |Dropped(more, maxStacks)|
              && aggregationDroppedNanoseconds == SatI64(Sum(Dropped(more, maxStacks)).second)
              && |more| == usableSamples + aggregationDroppedSamples
              && Depths(more) == depthSum + Depths(Dropped(more, maxStacks))
    {
      hide Capped, Dropped, Sum;
      ghost var r := CappedGroupBy.Record(key, 1, period);
      Step(rs, r, maxStacks);
      SumStep(Dropped(rs, maxStacks), r);
      DepthsPush(rs, r);
      DepthsPush(Dropped(rs, maxStacks), r);
      assert Dropped(rs, maxStacks) + [] == Dropped(rs, maxStacks);
      var atCapacity := |samples| >= maxStacks;
      var values: Pair;
      if key in samples {
        values := samples[key];
      } else if !atCapacity {
        values := Pair(0, 0);
      } else {
        aggregationDroppedSamples := aggregationDroppedSamples + 1;
        aggregationDroppedNanoseconds := SatI64(aggregationDroppedNanoseconds + period);
        return;
      }
      usableSamples := usableSamples + 1;
      depthSum := depthSum + |key.stack|;
      samples := samples[key := Pair(SatI64(values.first + 1), SatI64(values.second + period))];
    }

    /** A usable sample: named, put on the timeline, aggregated. */
    method Accept(c: Contribution, comm: ThreadKey -> Option<string>)
      requires Valid() && c.nanoseconds <= I64_MAX
      modifies this`threadNames, this`threadAttributionDroppedSamples, this`timeline, this`timelineSamples, this`timelineDropped,
               this`accepted, this`samples, this`usableSamples, this`depthSum, this`aggregationDroppedSamples,
               this`aggregationDroppedNanoseconds
      ensures Valid() && accepted == old(accepted) + [c]
    {
      hide Capped, Dropped, Sum, CpuWindow.Timed;
      var name := ThreadName(Thread(c), comm);
      var key := AttributedStack(c.stack, c.pid, c.tid, name);
      ghost var before := Window();
      Record(c, key);
      Aggregate(key, c.nanoseconds, before);
      assert Window() == before + [CappedGroupBy.Record(key, 1, c.nanoseconds)];
    }

    /** The body of the ingestion loop; `false` is the failure of an unwinder that cannot go on. */
    method Ingest(sample: PerfSample, how: Judgement, comm: ThreadKey -> Option<string>) returns (ok: bool)
      requires Valid() && Maps.Separated(how.ranges) && Maps.SortedByStart(how.ranges)
      modifies this
      ensures Valid() && lostSamples == old(lostSamples) && malformedSamples == old(malformedSamples)
      ensures totalSamples == old(totalSamples) + 1
      ensures ok <==> !Judge(sample.data, how).Fatal?
      ensures accepted == old(accepted) + Contributions([sample], how, fallbackPid)
      ensures var v := Judge(sample.data, how);
              && invalidAddresses == old(invalidAddresses) + (if v.Rejected? then v.invalid else 0)
              && truncatedSamples == old(truncatedSamples) + (if v.Usable? && v.truncated then 1 else 0)
    {
      hide Capped, Dropped, Sum, CpuWindow.Timed, CpuWindow.Aggregated, Named, Covered, HasAddressCycle;
      totalSamples := totalSamples + 1;
      ghost var verdict := Judge(sample.data, how);
      OneContribution(sample, how, fallbackPid);
      var frames: seq<u64>;
      var truncated: bool;
      match sample.data {
        case FramePointer(addresses) =>
          var valid := CountValid(how.ranges, addresses);
          invalidAddresses := invalidAddresses + (|addresses| - valid);
          var cyclic := FindAddressCycle(addresses);
          if valid != |addresses| || addresses == [] || cyclic {
            return true;
          }
          frames, truncated := addresses, |addresses| == DEFAULT_MAX_FRAMES;
        case Dwarf(registers, stack) =>
          if how.unwind.Some? {
            var outcome := how.unwind.value(registers, stack);
            if outcome.fatal {
              return false;
            }
            if outcome.frames == [] || (!how.allowPartial && |outcome.frames| == 1 && outcome.failed) {
              invalidAddresses := invalidAddresses + 1;
              return true;
            }
            frames, truncated := outcome.frames, outcome.truncated;
          } else if how.allowPartial && registers.ip != 0 {
            frames, truncated := [registers.ip], false;
          } else {
            invalidAddresses := invalidAddresses + 1;
            return true;
          }
      }
      if truncated {
        truncatedSamples := truncatedSamples + 1;
      }
      Accept(ContributionOf(sample, frames, how.frequency, fallbackPid), comm);
      return true;
    }
  }

  lemma NamedPrefix(cs: seq<Contribution>, names: map<ThreadKey, Option<string>>, limit: nat, n: nat)
    requires Named(cs, names, limit) && n <= |cs|
    ensures Named(cs[..n], names, limit)
  {
  }

  lemma OneContribution(s: PerfSample, how: Judgement, fallbackPid: u32)
    ensures var v := Judge(s.data, how);
            Contributions([s], how, fallbackPid)
              == if v.Usable? then [ContributionOf(s, v.frames, how.frequency, fallbackPid)] else []
  {
    assert [s][..0] == [];
    assert Contributions([s][..0], how, fallbackPid) == [];
  }

  /** How many frames lie in executable ranges. */
  method CountValid(ranges: seq<Maps.Range>, frames: seq<u64>) returns (valid: nat)
    requires Maps.Separated(ranges) && Maps.SortedByStart(ranges)
    ensures valid == Covered(ranges, frames)
  {
    valid := 0;
    for i := 0 to |frames|
      invariant valid == Covered(ranges, frames[..i])
    {
      assert frames[..i + 1][..i] == frames[..i];
      var found := Maps.Contains(ranges, frames[i]);
      if found {
        valid := valid + 1;
      }
    }
    assert frames[..|frames|] == frames;
  }

  lemma {:induction false} ContributionsConcat(a: seq<PerfSample>, s: PerfSample, how: Judgement, fallbackPid: u32)
    ensures Contributions(a + [s], how, fallbackPid) == Contributions(a, how, fallbackPid) + Contributions([s], how, fallbackPid)
  {
    OneContribution(s, how, fallbackPid);
    assert (a + [s])[..|a|] == a;
  }

  /** What arrived in a batch passes the reorder buffer. */
  method Reorder(samples: seq<PerfSample>, sorter: EventSorter.PerfEventSorter, flush: bool)
    returns (ready: seq<PerfSample>)
    requires sorter.Valid()
    modifies sorter
    ensures sorter.Valid() && sorter.pushed == old(sorter.pushed) + samples && sorter.emitted == old(sorter.emitted) + ready
    ensures flush ==> sorter.pending == map[]
  {
    hide EventSorter.PerfEventSorter.Valid;
    ready := [];
    for i := 0 to |samples|
      invariant sorter.Valid() && sorter.pushed == old(sorter.pushed) + samples[..i]
      invariant sorter.emitted == old(sorter.emitted) + ready
    {
      ready := sorter.Push(samples[i], ready);
    }
    assert samples[..|samples|] == samples;
    if flush {
      ready := sorter.Flush(ready);
    }
  }

  /** `ingest_cpu_batch`: the window gains what the samples leaving the reorder buffer contribute, in
      that order, up to the first one that cannot be unwound safely. */
  method IngestCpuBatch(batch: PerfRing.PerfBatch, window: CpuWindow, sorter: EventSorter.PerfEventSorter, flush: bool,
                        how: Judgement, comm: ThreadKey -> Option<string>)
    returns (ok: bool, ghost ready: seq<PerfSample>, ghost n: nat)
    requires window.Valid() && sorter.Valid() && Maps.Separated(how.ranges) && Maps.SortedByStart(how.ranges)
    modifies batch, window, sorter
    ensures window.Valid() && sorter.Valid()
    ensures sorter.pushed == old(sorter.pushed) + old(batch.samples) && sorter.emitted == old(sorter.emitted) + ready
    ensures flush ==> sorter.pending == map[]
    ensures batch.samples == []
    ensures window.lostSamples == SatU64(old(window.lostSamples) + batch.lostSamples)
    ensures window.malformedSamples == SatU64(old(window.malformedSamples) + batch.malformedRecords)
    ensures n <= |ready| && (ok <==> n == |ready|) && (!ok ==> Judge(ready[n].data, how).Fatal?)
    ensures forall k :: 0 <= k < n ==> !Judge(ready[k].data, how).Fatal?
    ensures window.accepted == old(window.accepted) + Contributions(ready[..n], how, window.fallbackPid)
    ensures window.totalSamples == old(window.totalSamples) + n + (if ok then 0 else 1)
  {
    hide CpuWindow.Valid, EventSorter.PerfEventSorter.Valid, Judge, ContributionOf, Contributions;
    IngestCounters(batch, window);
    ghost var lost, malformed := window.lostSamples, window.malformedSamples;
    var samples := batch.samples;
    batch.samples := [];
    var out := Reorder(samples, sorter, flush);
    ready, n := out, 0;
    NoContributions(how, window.fallbackPid);
    assert ready[..0] == [];
    for i := 0 to |out|
      invariant window.Valid() && sorter.Valid() && n == i && ready == out
      invariant window.lostSamples == lost && window.malformedSamples == malformed && batch.samples == []
      invariant sorter.pushed == old(sorter.pushed) + old(batch.samples) && sorter.emitted == old(sorter.emitted) + ready
      invariant flush ==> sorter.pending == map[]
      invariant forall k :: 0 <= k < i ==> !Judge(ready[k].data, how).Fatal?
      invariant batch.lostSamples == old(batch.lostSamples) && batch.malformedRecords == old(batch.malformedRecords)
      invariant window.accepted == old(window.accepted) + Contributions(ready[..i], how, window.fallbackPid)
      invariant window.totalSamples == old(window.totalSamples) + i
    {
      var further := window.Ingest(out[i], how, comm);
      if !further {
        FatalContributes(out[i], how, window.fallbackPid);
        return false, ready, i;
      }
      ContributionsConcat(ready[..i], out[i], how, window.fallbackPid);
      assert ready[..i + 1] == ready[..i] + [out[i]];
      n := n + 1;
    }
    return true, ready, n;
  }

  method IngestCounters(batch: PerfRing.PerfBatch, window: CpuWindow)
    requires window.Valid()
    modifies window`lostSamples, window`malformedSamples
    ensures window.Valid()
    ensures window.lostSamples == SatU64(old(window.lostSamples) + batch.lostSamples)
    ensures window.malformedSamples == SatU64(old(window.malformedSamples) + batch.malformedRecords)
  {
    window.lostSamples := SatU64(window.lostSamples + batch.lostSamples);
    window.malformedSamples := SatU64(window.malformedSamples + batch.malformedRecords);
  }

  lemma NoContributions(how: Judgement, fallbackPid: u32)
    ensures Contributions([], how, fallbackPid) == []
  {
  }

  lemma FatalContributes(s: PerfSample, how: Judgement, fallbackPid: u32)
    requires Judge(s.data, how).Fatal?
    ensures Contributions([s], how, fallbackPid) == []
  {
    OneContribution(s, how, fallbackPid);
  }

  /** A window's usable samples are the sum of the counts its table shows, unless the count passes the
      `i64` ceiling; and unless the nanoseconds do, those shown and dropped are all that was accepted. */
  lemma WindowCounts(w: CpuWindow)
    requires w.Valid()
    ensures |w.accepted| == w.usableSamples + w.aggregationDroppedSamples
    ensures w.depthSum == Depths(w.Window()) - Depths(Dropped(w.Window(), w.maxStacks))
    ensures |w.Window()| <= I64_MAX ==> w.usableSamples == Total(Firsts(w.samples))
    ensures Sum(w.Window()).second <= I64_MAX
      ==> Total(Seconds(w.samples)) + w.aggregationDroppedNanoseconds == Sum(w.Window()).second
  {
    hide Capped, Dropped, Distinct, Firsts, Seconds, Total;
    Conservation(w.Window(), w.maxStacks);
    UnitSum(w.Window());
    UnitDropped(w.Window(), w.maxStacks);
  }

  /** A stack and thread that a window shows stands there with the number of its samples and their
      nanoseconds, and the timeline shows the first samples as they were accepted. */
  lemma WindowValues(w: CpuWindow, key: AttributedStack)
    requires w.Valid()
    ensures key in w.samples ==>
      w.samples[key] == Pair(SatI64(Count(w.accepted, w.threadNames, key)), SatI64(Time(w.accepted, w.threadNames, key)))
    ensures |w.timeline| <= |w.accepted|
    ensures forall i :: 0 <= i < |w.timeline| ==>
      var c := w.accepted[i];
      && w.timeline[i].timestamp == c.timestamp && w.timeline[i].cpuDelta == c.nanoseconds
      && w.timeline[i].key == AttributedStack(c.stack, c.pid, c.tid, NameIn(w.threadNames, (c.pid, c.tid)))
  {
    SumIsCount(w.accepted, w.threadNames, key);
    hide SumOf, Kept, Dropped, Depths, Count, Time;
  }
}
