/** What off-CPU events mean: intervals off the CPU, cut at window boundaries. The collector of
    `OffCpu` has to agree with this history (src/platform/linux/off_cpu.rs, lines 183-356). */
module OffCpuIntervals {
  import opened Machine
  import opened CappedGroupBy
  import opened ProfileTypes
  import opened OffCpuEvents

  // Intervals.

  datatype Outcome = Running | Completed(at: u64) | Abandoned

  /** One stay off the CPU: from its switch-out, across the boundaries it was pending at. */
  datatype Interval = Interval(pid: u32, tid: u32, stack: seq<u64>, origin: u64, cuts: seq<u64>, outcome: Outcome) {
    function Last(): u64 {
      LastCut(origin, cuts)
    }
  }

  /** What is handed to the aggregation at a time: its length, and whether it counts as an event. */
  datatype Piece = Piece(elapsed: nat, counted: bool)

  function LastCut(origin: u64, cuts: seq<u64>): u64 {
    if cuts == [] then origin else cuts[|cuts| - 1]
  }

  function CutPieces(origin: u64, cuts: seq<u64>): seq<Piece> {
    if cuts == [] then []
    else
      var n := |cuts| - 1;
      CutPieces(origin, cuts[..n]) + [Piece(SaturatingSub(cuts[n], LastCut(origin, cuts[..n])), false)]
  }

  function Pieces(i: Interval): seq<Piece> {
    CutPieces(i.origin, i.cuts)
    + (if i.outcome.Completed? then [Piece(SaturatingSub(i.outcome.at, i.Last()), true)] else [])
  }

  function Elapsed(ps: seq<Piece>): nat {
    if ps == [] then 0 else Elapsed(ps[..|ps| - 1]) + ps[|ps| - 1].elapsed
  }

  function Counted(ps: seq<Piece>): nat {
    if ps == [] then 0 else Counted(ps[..|ps| - 1]) + (if ps[|ps| - 1].counted then 1 else 0)
  }

  /** Every boundary is no earlier than the start it cuts at. */
  predicate Forward(origin: u64, cuts: seq<u64>) {
    cuts == [] || (Forward(origin, cuts[..|cuts| - 1]) && LastCut(origin, cuts[..|cuts| - 1]) <= cuts[|cuts| - 1])
  }

  lemma {:induction false} CutTotals(origin: u64, cuts: seq<u64>)
    ensures Elapsed(CutPieces(origin, cuts)) >= LastCut(origin, cuts) - origin
    ensures Elapsed(CutPieces(origin, cuts)) == LastCut(origin, cuts) - origin <==> Forward(origin, cuts)
    ensures Counted(CutPieces(origin, cuts)) == 0
  {
    if cuts != [] {
      var n := |cuts| - 1;
      CutTotals(origin, cuts[..n]);
      var ps := CutPieces(origin, cuts);
      assert ps[..|ps| - 1] == CutPieces(origin, cuts[..n]);
    }
  }

  lemma PiecesTotals(i: Interval)
    ensures Elapsed(Pieces(i))
         == Elapsed(CutPieces(i.origin, i.cuts))
            + (if i.outcome.Completed? then SaturatingSub(i.outcome.at, i.Last()) else 0)
    ensures Counted(Pieces(i)) == if i.outcome.Completed? then 1 else 0
  {
    CutTotals(i.origin, i.cuts);
    var ps := Pieces(i);
    if i.outcome.Completed? {
      assert ps[..|ps| - 1] == CutPieces(i.origin, i.cuts);
    } else {
      assert ps == CutPieces(i.origin, i.cuts);
    }
  }

  /** Across any boundaries that go forward, an interval's pieces add up to the time from its
      switch-out to its switch-in or the last boundary, whichever is later, and count once. */
  lemma SplitKeepsTime(i: Interval)
    requires i.outcome.Completed? && Forward(i.origin, i.cuts)
    ensures Elapsed(Pieces(i)) == Max(i.outcome.at, i.Last()) - i.origin
    ensures Counted(Pieces(i)) == 1
  {
    CutTotals(i.origin, i.cuts);
    PiecesTotals(i);
  }

  /** The pieces add up to the true length exactly when no boundary and no switch-in goes back. */
  lemma SplitIsExact(i: Interval)
    requires i.outcome.Completed?
    ensures Elapsed(Pieces(i)) == i.outcome.at - i.origin <==> Forward(i.origin, i.cuts) && i.Last() <= i.outcome.at
  {
    CutTotals(i.origin, i.cuts);
    PiecesTotals(i);
  }

  // The history.

  datatype Handed = Handed(serial: nat, key: AttributedStack, piece: Piece)

  /** All intervals of a run, the running one of each thread, and everything handed on. */
  datatype Log = Log(intervals: seq<Interval>, serial: map<u32, nat>, handed: seq<Handed>)

  const EMPTY_LOG := Log([], map[], [])

  function PiecesFor(handed: seq<Handed>, s: nat): seq<Piece> {
    if handed == [] then []
    else
      var n := |handed| - 1;
      PiecesFor(handed[..n], s) + (if handed[n].serial == s then [handed[n].piece] else [])
  }

  lemma PiecesForPush(handed: seq<Handed>, h: Handed, s: nat)
    ensures PiecesFor(handed + [h], s) == PiecesFor(handed, s) + (if h.serial == s then [h.piece] else [])
  {
    assert (handed + [h])[..|handed|] == handed;
  }

  function KeyOf(i: Interval, name: Option<string>): AttributedStack {
    AttributedStack(i.stack, i.pid, i.tid, name)
  }

  /** Every interval's pieces were handed on, in order, under its own stack and thread, and every
      running interval is the one its thread is in. */
  ghost predicate LogValid(log: Log) {
    && (forall t :: t in log.serial ==>
      log.serial[t] < |log.intervals| && log.intervals[log.serial[t]].tid == t && log.intervals[log.serial[t]].outcome.Running?)
    && (forall s :: 0 <= s < |log.intervals| && log.intervals[s].outcome.Running? ==>
      log.intervals[s].tid in log.serial && log.serial[log.intervals[s].tid] == s)
    && (forall s :: 0 <= s < |log.intervals| ==> PiecesFor(log.handed, s) == Pieces(log.intervals[s]))
    && (forall n :: 0 <= n < |log.handed| ==>
      log.handed[n].serial < |log.intervals|
      && log.handed[n].key == KeyOf(log.intervals[log.handed[n].serial], log.handed[n].key.threadName))
  }

  function Drop(log: Log, tid: u32): Log
    requires tid in log.serial && log.serial[tid] < |log.intervals|
  {
    var s := log.serial[tid];
    log.(intervals := log.intervals[s := log.intervals[s].(outcome := Abandoned)], serial := log.serial - {tid})
  }

  function Begin(log: Log, pid: u32, tid: u32, stack: seq<u64>, time: u64): Log {
    log.(intervals := log.intervals + [Interval(pid, tid, stack, time, [], Running)], serial := log.serial[tid := |log.intervals|])
  }

  function End(log: Log, tid: u32, time: u64, name: Option<string>): Log
    requires tid in log.serial && log.serial[tid] < |log.intervals|
  {
    var s := log.serial[tid];
    var i := log.intervals[s];
    Log(log.intervals[s := i.(outcome := Completed(time))], log.serial - {tid},
        log.handed + [Handed(s, KeyOf(i, name), Piece(SaturatingSub(time, i.Last()), true))])
  }

  function Cut(log: Log, tid: u32, boundary: u64, name: Option<string>): Log
    requires tid in log.serial && log.serial[tid] < |log.intervals|
  {
    var s := log.serial[tid];
    var i := log.intervals[s];
    log.(intervals := log.intervals[s := i.(cuts := i.cuts + [boundary])],
         handed := log.handed + [Handed(s, KeyOf(i, name), Piece(SaturatingSub(boundary, i.Last()), false))])
  }

  /** What an event does to the history. A second switch-out abandons the first. */
  function Advance(log: Log, e: Event, name: Option<string>): Log
    requires LogValid(log)
  {
    match e
    case SwitchOut(pid, tid, time, frames) =>
      if frames == [] then log
      else Begin(if tid in log.serial then Drop(log, tid) else log, pid, tid, frames, time)
    case SwitchIn(tid, time) =>
      if tid in log.serial then End(log, tid, time, name) else log
    case _ => log
  }

  lemma DropValid(log: Log, tid: u32)
    requires LogValid(log) && tid in log.serial
    ensures LogValid(Drop(log, tid))
  {
    hide PiecesFor;
  }

  lemma {:induction false} NoPieces(handed: seq<Handed>, s: nat)
    requires forall n :: 0 <= n < |handed| ==> handed[n].serial != s
    ensures PiecesFor(handed, s) == []
  {
    if handed != [] {
      NoPieces(handed[..|handed| - 1], s);
    }
  }

  lemma BeginValid(log: Log, pid: u32, tid: u32, stack: seq<u64>, time: u64)
    requires LogValid(log) && tid !in log.serial
    ensures LogValid(Begin(log, pid, tid, stack, time))
  {
    hide PiecesFor;
    NoPieces(log.handed, |log.intervals|);
  }

  lemma EndValid(log: Log, tid: u32, time: u64, name: Option<string>)
    requires LogValid(log) && tid in log.serial
    ensures LogValid(End(log, tid, time, name))
  {
    hide PiecesFor;
    var after := End(log, tid, time, name);
    forall s | 0 <= s < |after.intervals|
      ensures PiecesFor(after.handed, s) == Pieces(after.intervals[s])
    {
      PiecesForPush(log.handed, after.handed[|log.handed|], s);
    }
  }

  lemma CutValid(log: Log, tid: u32, boundary: u64, name: Option<string>)
    requires LogValid(log) && tid in log.serial
    ensures LogValid(Cut(log, tid, boundary, name))
  {
    hide PiecesFor;
    var after := Cut(log, tid, boundary, name);
    var i := log.intervals[log.serial[tid]];
    assert (i.cuts + [boundary])[..|i.cuts|] == i.cuts;
    forall s | 0 <= s < |after.intervals|
      ensures PiecesFor(after.handed, s) == Pieces(after.intervals[s])
    {
      PiecesForPush(log.handed, after.handed[|log.handed|], s);
    }
  }

  /** What was handed on, as contributions to the window's table. */
  function Records(handed: seq<Handed>): (r: seq<Record<AttributedStack>>)
    ensures |r| == |handed|
  {
    seq(|handed|, n requires 0 <= n < |handed| =>
      Record(handed[n].key, if handed[n].piece.counted then 1 else 0, handed[n].piece.elapsed))
  }

  /** How many of these pieces complete an interval under this key, and their time. */
  function Count(handed: seq<Handed>, key: AttributedStack): nat {
    if handed == [] then 0
    else
      var h := handed[|handed| - 1];
      Count(handed[..|handed| - 1], key) + (if h.key == key && h.piece.counted then 1 else 0)
  }

  function Time(handed: seq<Handed>, key: AttributedStack): nat {
    if handed == [] then 0
    else
      var h := handed[|handed| - 1];
      Time(handed[..|handed| - 1], key) + (if h.key == key then h.piece.elapsed else 0)
  }

  lemma {:induction false} SumIsCount(handed: seq<Handed>, key: AttributedStack)
    ensures SumOf(Records(handed), key) == Pair(Count(handed, key), Time(handed, key))
  {
    if handed != [] {
      var n := |handed| - 1;
      SumIsCount(handed[..n], key);
      assert Records(handed)[..n] == Records(handed[..n]);
    }
  }
}
