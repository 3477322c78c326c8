/** What one thread's records mean, whatever other threads do in between: src/platform/linux/off_cpu.rs,
    lines 216-226 and 274-327. */
module OffCpuThreads {
  import opened Machine
  import opened ProfileTypes
  import opened Subsequences
  import opened OffCpuEvents
  import opened OffCpuIntervals
  import opened OffCpu

  /** The event is about this thread. */
  predicate Concerns(e: Event, tid: u32) {
    (e.SwitchOut? && e.tid == tid) || (e.SwitchIn? && e.tid == tid)
  }

  /** A switch-out with a stack starts an interval of its thread; one still running is given up. */
  lemma OutOpens(log: Log, pid: u32, tid: u32, time: u64, frames: seq<u64>, name: Option<string>)
    requires LogValid(log) && frames != []
    ensures var after, s := Advance(log, SwitchOut(pid, tid, time, frames), name), |log.intervals|;
            && LogValid(after) && after.handed == log.handed
            && |after.intervals| == s + 1 && after.intervals[s] == Interval(pid, tid, frames, time, [], Running)
            && after.serial == log.serial[tid := s]
            && forall k :: 0 <= k < s ==>
                 after.intervals[k] == if tid in log.serial && log.serial[tid] == k
                                       then log.intervals[k].(outcome := Abandoned) else log.intervals[k]
  {
    SerialInside(log);
    hide LogValid;
    AdvanceValid(log, SwitchOut(pid, tid, time, frames), name);
  }

  lemma SerialInside(log: Log)
    requires LogValid(log)
    ensures forall t :: t in log.serial ==> log.serial[t] < |log.intervals|
  {
    hide PiecesFor, Pieces;
  }

  /** A switch-in completes the interval its thread is in and hands its last piece on. */
  lemma InCompletes(log: Log, tid: u32, time: u64, name: Option<string>)
    requires LogValid(log) && tid in log.serial
    ensures log.serial[tid] < |log.intervals|
    ensures var after, s := Advance(log, SwitchIn(tid, time), name), log.serial[tid];
            var i := log.intervals[s];
            && LogValid(after) && after.serial == log.serial - {tid} && i.tid == tid
            && after.intervals == log.intervals[s := i.(outcome := Completed(time))]
            && after.handed == log.handed
               + [Handed(s, AttributedStack(i.stack, i.pid, i.tid, name), Piece(SaturatingSub(time, i.Last()), true))]
  {
    AdvanceValid(log, SwitchIn(tid, time), name);
    hide PiecesFor, Pieces;
  }

  /** Events of other threads leave the interval of this one alone. */
  lemma OtherKeeps(log: Log, e: Event, name: Option<string>, tid: u32)
    requires LogValid(log) && tid in log.serial && !Concerns(e, tid)
    ensures log.serial[tid] < |log.intervals|
    ensures var after, s := Advance(log, e, name), log.serial[tid];
            && LogValid(after) && tid in after.serial && after.serial[tid] == s
            && s < |after.intervals| && after.intervals[s] == log.intervals[s]
            && |log.intervals| <= |after.intervals|
  {
    AdvanceValid(log, e, name);
    hide PiecesFor, Pieces;
  }

  lemma {:induction false} OthersKeep(log: Log, queue: seq<Received>, tid: u32)
    requires LogValid(log) && tid in log.serial
    requires forall k :: 0 <= k < |queue| ==> !Concerns(Decode(queue[k].bytes), tid)
    ensures log.serial[tid] < |log.intervals|
    ensures var after, s := AdvanceAll(log, queue), log.serial[tid];
            && LogValid(after) && tid in after.serial && after.serial[tid] == s
            && s < |after.intervals| && after.intervals[s] == log.intervals[s]
    decreases |queue|
  {
    OtherKeeps(log, Unknown, None, tid);
    hide LogValid, Advance, Decode, Concerns;
    if queue != [] {
      OtherKeeps(log, Decode(queue[0].bytes), queue[0].name, tid);
      OthersKeep(Advance(log, Decode(queue[0].bytes), queue[0].name), queue[1..], tid);
    }
  }

  lemma {:induction false} AdvanceAllConcat(log: Log, a: seq<Received>, b: seq<Received>)
    requires LogValid(log)
    ensures LogValid(AdvanceAll(log, a))
    ensures AdvanceAll(log, a + b) == AdvanceAll(AdvanceAll(log, a), b)
    decreases |a|
  {
    hide LogValid, Advance, Decode;
    if a == [] {
      assert a + b == b;
    } else {
      assert (a + b)[0] == a[0] && (a + b)[1..] == a[1..] + b;
      AdvanceValid(log, Decode(a[0].bytes), a[0].name);
      AdvanceAllConcat(Advance(log, Decode(a[0].bytes), a[0].name), a[1..], b);
    }
  }

  lemma AdvanceOne(log: Log, r: Received)
    requires LogValid(log)
    ensures AdvanceAll(log, [r]) == Advance(log, Decode(r.bytes), r.name)
  {
    hide LogValid, Advance, Decode;
    AdvanceValid(log, Decode(r.bytes), r.name);
    assert [r][1..] == [];
    assert AdvanceAll(Advance(log, Decode(r.bytes), r.name), []) == Advance(log, Decode(r.bytes), r.name);
  }

  /** A thread's switch-out and its next switch-in, as the kernel writes them. */
  datatype Stay = Stay(
    pid: u32, tid: u32, length: u32, out: u64, words: seq<u64>, back: u64, name: Option<string>)

  function RecordsOf(stay: Stay, others: seq<Received>): seq<Received>
    requires |stay.words| == MAX_FRAMES
  {
    [Received(EncodeSwitchOut(stay.pid, stay.tid, stay.length, stay.out, stay.words), None)]
    + others
    + [Received(EncodeSwitchIn(stay.pid, stay.tid, stay.back), stay.name)]
  }

  /** What a stay has to become: one completed interval of its own process and thread, its stack the
      words that are not zero among those filled, handed on as one event of its whole length. */
  ghost predicate Becomes(stay: Stay, picks: seq<nat>, before: Log, after: Log)
    requires |stay.words| == MAX_FRAMES
  {
    var s, filled := |before.intervals|, stay.words[..FilledWords(stay)];
    && Selects(filled, IsFrame, picks) && Inside(picks, |filled|)
    && s < |after.intervals| && stay.tid !in after.serial
    && after.intervals[s]
       == Interval(stay.pid, stay.tid, Pick(filled, picks), stay.out, [], Completed(stay.back))
    && after.handed != []
    && after.handed[|after.handed| - 1]
       == Handed(s, AttributedStack(Pick(filled, picks), stay.pid, stay.tid, stay.name),
                 Piece(if stay.out <= stay.back then stay.back - stay.out else 0, true))
  }

  function FilledWords(stay: Stay): (n: nat)
    ensures n <= MAX_FRAMES
  {
    if stay.length < 0x8000_0000 then Min(stay.length / 8, MAX_FRAMES) else 0
  }

  predicate HasFrame(stay: Stay)
    requires |stay.words| == MAX_FRAMES
  {
    exists n :: 0 <= n < FilledWords(stay) && stay.words[n] != 0
  }

  /** Whatever the other threads do in between, a stay becomes its interval. */
  lemma StayBecomes(log: Log, stay: Stay, others: seq<Received>) returns (picks: seq<nat>)
    requires LogValid(log) && |stay.words| == MAX_FRAMES && HasFrame(stay)
    requires forall k :: 0 <= k < |others| ==> !Concerns(Decode(others[k].bytes), stay.tid)
    ensures Becomes(stay, picks, log, AdvanceAll(log, RecordsOf(stay, others)))
  {
    picks := SwitchOutRoundTrip(stay.pid, stay.tid, stay.length, stay.out, stay.words);
    SwitchInRoundTrip(stay.pid, stay.tid, stay.back);
    var filled := stay.words[..FilledWords(stay)];
    var frames := Pick(filled, picks);
    assert frames != [] by {
      var n :| 0 <= n < FilledWords(stay) && stay.words[n] != 0;
      assert IsFrame(filled[n]) && n in picks;
    }
    hide LogValid, Advance, Decode, EncodeSwitchOut, EncodeSwitchIn, Selects, Pick, HasFrame;
    var first := Received(EncodeSwitchOut(stay.pid, stay.tid, stay.length, stay.out, stay.words), None);
    var last := Received(EncodeSwitchIn(stay.pid, stay.tid, stay.back), stay.name);
    AdvanceAllConcat(log, [first] + others, [last]);
    AdvanceAllConcat(log, [first], others);
    AdvanceOne(log, first);
    OutOpens(log, stay.pid, stay.tid, stay.out, frames, None);
    var started := Advance(log, Decode(first.bytes), None);
    OthersKeep(started, others, stay.tid);
    var later := AdvanceAll(started, others);
    AdvanceOne(later, last);
    InCompletes(later, stay.tid, stay.back, stay.name);
  }

  /** So the collector, draining those records, completes the interval of that thread. */
  method DrainStay(c: OffCpuCollector, stay: Stay, others: seq<Received>) returns (ghost picks: seq<nat>)
    requires c.Valid() && |stay.words| == MAX_FRAMES && HasFrame(stay)
    requires forall k :: 0 <= k < |others| ==> !Concerns(Decode(others[k].bytes), stay.tid)
    modifies c
    ensures c.Valid() && Becomes(stay, picks, old(c.log), c.log) && stay.tid !in c.pending
  {
    hide LogValid, Decode, EncodeSwitchOut, EncodeSwitchIn, HasFrame, Concerns, AdvanceAll, Becomes, PendingOf, CountAll,
      OffCpuCollector.Aggregated, OffCpuCollector.Balanced;
    picks := StayBecomes(c.log, stay, others);
    c.Drain(RecordsOf(stay, others));
    PendingIs(c.log);
    StayEnds(stay, picks, old(c.log), c.log);
  }

  lemma StayEnds(stay: Stay, picks: seq<nat>, before: Log, after: Log)
    requires |stay.words| == MAX_FRAMES && Becomes(stay, picks, before, after)
    ensures stay.tid !in after.serial
  {
  }
}
