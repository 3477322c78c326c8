/** The records of the off-CPU probe and what they decode to: bpf/off_cpu.bpf.c, lines 33-44 and 75-111,
    and src/platform/linux/off_cpu.rs, lines 274-303. */
module OffCpuEvents {
  import opened Machine
  import opened Bytes
  import opened Subsequences

  const EVENT_HEADER_SIZE: nat := 24
  const EVENT_STACK_SIZE: nat := 1040
  const EVENT_SWITCH_OUT: u32 := 1
  const EVENT_SWITCH_IN: u32 := 2
  const MAX_FRAMES: nat := 127

  datatype Event =
    | Malformed
    | SwitchOut(pid: u32, tid: u32, time: u64, frames: seq<u64>)
    | SwitchIn(tid: u32, time: u64)
    | Unknown

  predicate IsFrame(word: u64) {
    word != 0
  }

  /** The addresses before `count` that are not zero. */
  function Frames(b: seq<u8>, count: nat): (r: seq<u64>)
    requires EVENT_HEADER_SIZE + 8 * count <= |b|
  {
    if count == 0 then []
    else
      var address := U64At(b, EVENT_HEADER_SIZE + 8 * (count - 1)).value;
      Frames(b, count - 1) + (if IsFrame(address) then [address] else [])
  }

  /** A signed length below zero counts as none. */
  function FrameCount(length: u32): (r: nat)
    ensures r <= MAX_FRAMES
  {
    if length < 0x8000_0000 then Min(length / 8, MAX_FRAMES) else 0
  }

  function Decode(b: seq<u8>): Event {
    if |b| < EVENT_HEADER_SIZE then Malformed
    else
      var kind, pid, tid := U32At(b, 0).value, U32At(b, 4).value, U32At(b, 8).value;
      var length, time := U32At(b, 12).value, U64At(b, 16).value;
      if kind == EVENT_SWITCH_OUT then
        if |b| < EVENT_STACK_SIZE then Malformed else SwitchOut(pid, tid, time, Frames(b, FrameCount(length)))
      else if kind == EVENT_SWITCH_IN then SwitchIn(tid, time)
      else Unknown
  }

  // The records as the kernel lays them out.

  function EncodeHeader(kind: u32, pid: u32, tid: u32, length: u32, time: u64): (b: seq<u8>)
    ensures |b| == EVENT_HEADER_SIZE
  {
    ToBytes(kind, 4) + ToBytes(pid, 4) + ToBytes(tid, 4) + ToBytes(length, 4) + ToBytes(time, 8)
  }

  /** A switch-out: the header and room for all frames, of which `length` bytes were filled. */
  function EncodeSwitchOut(pid: u32, tid: u32, length: u32, time: u64, words: seq<u64>): (b: seq<u8>)
    requires |words| == MAX_FRAMES
    ensures |b| == EVENT_STACK_SIZE
  {
    EncodeHeader(EVENT_SWITCH_OUT, pid, tid, length, time) + EncodeWords(words)
  }

  function EncodeSwitchIn(pid: u32, tid: u32, time: u64): seq<u8> {
    EncodeHeader(EVENT_SWITCH_IN, pid, tid, 0, time)
  }

  lemma HeaderRead(kind: u32, pid: u32, tid: u32, length: u32, time: u64, tail: seq<u8>)
    ensures var b := EncodeHeader(kind, pid, tid, length, time) + tail;
            && U32At(b, 0) == Some(kind) && U32At(b, 4) == Some(pid) && U32At(b, 8) == Some(tid)
            && U32At(b, 12) == Some(length) && U64At(b, 16) == Some(time) && b[EVENT_HEADER_SIZE..] == tail
  {
    hide ToBytes, U32, U64;
    HalfRoundTrip(kind);
    HalfRoundTrip(pid);
    HalfRoundTrip(tid);
    HalfRoundTrip(length);
    WordRoundTrip(time);
    var b := EncodeHeader(kind, pid, tid, length, time) + tail;
    assert b[0..4] == ToBytes(kind, 4) && b[4..8] == ToBytes(pid, 4) && b[8..12] == ToBytes(tid, 4);
    assert b[12..16] == ToBytes(length, 4) && b[16..24] == ToBytes(time, 8);
  }

  /** The frames of a switch-out are the words that are not zero, in their order, among those filled. */
  lemma {:induction false} FramesSelect(b: seq<u8>, words: seq<u64>, count: nat) returns (picks: seq<nat>)
    requires count <= |words| && EVENT_HEADER_SIZE + 8 * |words| == |b|
    requires forall i :: 0 <= i < |words| ==> U64At(b, EVENT_HEADER_SIZE + 8 * i) == Some(words[i])
    ensures Selects(words[..count], IsFrame, picks) && Inside(picks, count)
    ensures Frames(b, count) == Pick(words[..count], picks)
    decreases count
  {
    hide Selects, Inside, Pick, U64At;
    if count == 0 {
      picks := [];
      assert words[..0] == [];
      NothingSelected();
    } else {
      var n := count - 1;
      var before := FramesSelect(b, words, n);
      SelectsPush(words[..n], words[n], IsFrame, before);
      PickPush(words[..n], words[n], before);
      assert words[..count] == words[..n] + [words[n]];
      picks := if IsFrame(words[n]) then before + [n] else before;
      SelectsInside(words[..count], IsFrame, picks);
    }
  }

  lemma NothingSelected()
    ensures Selects<u64>([], IsFrame, []) && Inside([], 0) && Pick<u64>([], []) == []
  {
  }

  /** A switch-out comes back with its process, thread and time, and with the words that are not zero, in
      their order, among the first `length / 8`; a negative length counts as none. */
  lemma SwitchOutRoundTrip(pid: u32, tid: u32, length: u32, time: u64, words: seq<u64>) returns (picks: seq<nat>)
    requires |words| == MAX_FRAMES
    ensures var filled := words[..if length < 0x8000_0000 then Min(length / 8, MAX_FRAMES) else 0];
            && Selects(filled, IsFrame, picks) && Inside(picks, |filled|)
            && Decode(EncodeSwitchOut(pid, tid, length, time, words)) == SwitchOut(pid, tid, time, Pick(filled, picks))
  {
    hide ToBytes, U32At, U64At, Selects, Pick, EncodeWords, EncodeHeader;
    var b := EncodeSwitchOut(pid, tid, length, time, words);
    HeaderRead(EVENT_SWITCH_OUT, pid, tid, length, time, EncodeWords(words));
    forall i | 0 <= i < |words|
      ensures U64At(b, EVENT_HEADER_SIZE + 8 * i) == Some(words[i])
    {
      WordAmong(EncodeHeader(EVENT_SWITCH_OUT, pid, tid, length, time), words, [], i);
      assert b + [] == b;
    }
    picks := FramesSelect(b, words, FrameCount(length));
  }

  /** A switch-in comes back with its thread and time. */
  lemma SwitchInRoundTrip(pid: u32, tid: u32, time: u64)
    ensures Decode(EncodeSwitchIn(pid, tid, time)) == SwitchIn(tid, time)
  {
    hide ToBytes, U32At, U64At;
    var b := EncodeSwitchIn(pid, tid, time);
    HeaderRead(EVENT_SWITCH_IN, pid, tid, 0, time, []);
    assert b + [] == b;
  }
}
