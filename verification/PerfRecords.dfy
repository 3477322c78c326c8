/** Perf records and what they decode to: src/platform/linux/perf.rs, lines 413-464 and 568-699. The
    layouts here are positional; the cursor that reads them in order is in `PerfRing`. */
module PerfRecords {
  import opened Machine
  import opened Bits
  import opened Bytes
  import opened PerfSamples
  import opened Subsequences

  datatype UnwindMode = FpMode | DwarfMode | AutoMode

  const DEFAULT_MAX_FRAMES: nat := 127
  const PERF_CONTEXT_MAX: u64 := 0xFFFF_FFFF_FFFF_F001

  const PERF_RECORD_LOST: u32 := 2
  const PERF_RECORD_SAMPLE: u32 := 9
  const PERF_RECORD_LOST_SAMPLES: u32 := 13

  datatype Batch = Batch(samples: seq<PerfSample>, lostSamples: u64, malformedRecords: nat)

  // The sample layout.

  /** `count` words from an offset on, when they all lie inside. */
  function Words(b: seq<u8>, offset: nat, count: nat): (r: Option<seq<u64>>)
    ensures r.Some? <==> count == 0 || offset + 8 * count <= |b|
    ensures r.Some? ==> |r.value| == count
    ensures r.Some? ==> forall i :: 0 <= i < count ==> Some(r.value[i]) == U64At(b, offset + 8 * i)
  {
    if count == 0 then Some([])
    else
      var rest := Words(b, offset, count - 1);
      var last := U64At(b, offset + 8 * (count - 1));
      if rest.Some? && last.Some? then Some(rest.value + [last.value]) else None
  }

  /** Context markers are not addresses. */
  function Addresses(words: seq<u64>): seq<u64> {
    if words == [] then []
    else
      var n := |words| - 1;
      Addresses(words[..n]) + (if words[n] < PERF_CONTEXT_MAX then [words[n]] else [])
  }

  /** The sampled instruction comes first, and there are at most `DEFAULT_MAX_FRAMES` frames. */
  function WithLeaf(ip: u64, frames: seq<u64>): seq<u64> {
    var led := if frames != [] && frames[0] == ip then frames else [ip] + frames;
    if |led| <= DEFAULT_MAX_FRAMES then led else led[..DEFAULT_MAX_FRAMES]
  }

  function FramesAt(b: seq<u8>, ip: u64): Option<PerfSampleData> {
    var count := U64At(b, 32);
    if count.None? then None
    else
      var words := Words(b, 40, Min(count.value, DEFAULT_MAX_FRAMES));
      if words.None? then None else Some(FramePointer(WithLeaf(ip, Addresses(words.value))))
  }

  /** How many of the mask's bits below `bit` are set. */
  function Rank(mask: u64, bit: nat): (r: nat)
    ensures r <= bit
  {
    if bit == 0 then 0 else Rank(mask, bit - 1) + (if Bit(mask, bit - 1) then 1 else 0)
  }

  lemma {:induction false} RankMonotone(mask: u64, bit: nat, high: nat)
    requires bit < high
    ensures Rank(mask, bit) + (if Bit(mask, bit) then 1 else 0) <= Rank(mask, high)
  {
    if bit < high - 1 {
      RankMonotone(mask, bit, high - 1);
    }
  }

  /** A sampled register: the words follow the set bits of the mask from the lowest up. */
  function Register(b: seq<u8>, offset: nat, mask: u64, bit: nat): Option<u64> {
    if Bit(mask, bit) then U64At(b, offset + 8 * Rank(mask, bit)) else None
  }

  const X86_BP: nat := 6
  const X86_SP: nat := 7
  const X86_IP: nat := 8

  function RegistersAt(b: seq<u8>, offset: nat, ip: u64, mask: u64): Option<Registers> {
    if offset + 8 * Rank(mask, 64) > |b| then None
    else
      var fp, sp, sampled := Register(b, offset, mask, X86_BP), Register(b, offset, mask, X86_SP), Register(b, offset, mask, X86_IP);
      if fp.Some? && sp.Some? then Some(Registers(if sampled.Some? then sampled.value else ip, sp.value, fp.value, 0))
      else None
  }

  function StackAt(b: seq<u8>, offset: nat, registers: Registers): Option<PerfSampleData> {
    var requested := U64At(b, offset);
    if requested.None? then None
    else
      var end := offset + 8 + requested.value;
      var dynamic := U64At(b, end);
      if dynamic.None? then None
      else Some(Dwarf(registers, b[offset + 8..offset + 8 + Min(dynamic.value, requested.value)]))
  }

  function SnapshotAt(b: seq<u8>, ip: u64, mask: u64): Option<PerfSampleData> {
    var abi := U64At(b, 32);
    if abi.None? || abi.value == 0 then None
    else
      var registers := RegistersAt(b, 40, ip, mask);
      if registers.None? then None else StackAt(b, 40 + 8 * Rank(mask, 64), registers.value)
  }

  /** A sample record's body, by the position of its fields. */
  function SampleAt(b: seq<u8>, mode: UnwindMode, mask: u64): Option<PerfSample> {
    if |b| < 32 then None
    else
      var ip := U64(b[..8]);
      var data := match mode
        case FpMode => FramesAt(b, ip)
        case DwarfMode => SnapshotAt(b, ip, mask)
        case AutoMode => None;
      if data.None? then None
      else Some(PerfSample(U32(b[8..12]), U32(b[12..16]), U64(b[16..24]), U64(b[24..32]), data.value))
  }

  // The record stream.

  function Lost(batch: Batch, lost: Option<u64>): Batch {
    if lost.Some? then batch.(lostSamples := SatU64(batch.lostSamples + lost.value))
    else batch.(malformedRecords := batch.malformedRecords + 1)
  }

  /** What one record adds to the batch. */
  function Visit(batch: Batch, record: seq<u8>, mode: UnwindMode, mask: u64): Batch
    requires |record| >= 8
  {
    var kind := U32(record[..4]);
    if kind == PERF_RECORD_SAMPLE then
      var sample := SampleAt(record[8..], mode, mask);
      if sample.Some? then batch.(samples := batch.samples + [sample.value])
      else batch.(malformedRecords := batch.malformedRecords + 1)
    else if kind == PERF_RECORD_LOST then Lost(batch, U64At(record, 16))
    else if kind == PERF_RECORD_LOST_SAMPLES then Lost(batch, U64At(record, 8))
    else batch
  }

  /** Reading the bytes between tail and head; a broken header ends the reading as one malformed
      record. */
  function DrainBytes(b: seq<u8>, ringSize: nat, batch: Batch, mode: UnwindMode, mask: u64): Batch {
    if b == [] then batch
    else if |b| < 8 || !Sized(b, ringSize) then batch.(malformedRecords := batch.malformedRecords + 1)
    else
      var size := U16(b[6..8]);
      DrainBytes(b[size..], ringSize, Visit(batch, b[..size], mode, mask), mode, mask)
  }

  /** The header's size is possible. */
  predicate Sized(b: seq<u8>, ringSize: nat)
    requires |b| >= 8
  {
    var size := U16(b[6..8]);
    8 <= size <= ringSize && size <= |b|
  }

  // Writing what is read.

  datatype Record = Record(kind: u32, misc: u16, payload: seq<u8>)

  /** A record's size is a `u16`. */
  predicate Sizes(rs: seq<Record>, limit: nat) {
    forall i :: 0 <= i < |rs| ==> 8 + |rs[i].payload| <= limit && 8 + |rs[i].payload| <= 0xFFFF
  }

  function Encode(r: Record): (b: seq<u8>)
    requires 8 + |r.payload| <= 0xFFFF
    ensures |b| == 8 + |r.payload|
  {
    ToBytes(r.kind, 4) + ToBytes(r.misc, 2) + ToBytes(8 + |r.payload|, 2) + r.payload
  }

  function EncodeAll(rs: seq<Record>): seq<u8>
    requires Sizes(rs, 0xFFFF)
  {
    if rs == [] then [] else Encode(rs[0]) + EncodeAll(rs[1..])
  }

  function VisitAll(batch: Batch, rs: seq<Record>, mode: UnwindMode, mask: u64): Batch
    requires Sizes(rs, 0xFFFF)
    decreases |rs|
  {
    if rs == [] then batch else VisitAll(Visit(batch, Encode(rs[0]), mode, mask), rs[1..], mode, mask)
  }

  lemma EncodeHeader(r: Record, rest: seq<u8>)
    requires 8 + |r.payload| <= 0xFFFF
    ensures var b := Encode(r) + rest;
            U32(b[..4]) == r.kind && U16(b[6..8]) == 8 + |r.payload| && b[..8 + |r.payload|] == Encode(r)
            && b[8 + |r.payload|..] == rest && Encode(r)[8..] == r.payload && U32(Encode(r)[..4]) == r.kind
  {
    var b := Encode(r) + rest;
    HalfRoundTrip(r.kind);
    ShortRoundTrip(8 + |r.payload|);
    assert b[..4] == ToBytes(r.kind, 4) == Encode(r)[..4];
    assert b[6..8] == ToBytes(8 + |r.payload|, 2);
  }

  /** A stream of well-formed records is visited record by record, each once, in order. */
  lemma {:induction false} DrainRecords(rs: seq<Record>, ringSize: nat, batch: Batch, mode: UnwindMode, mask: u64)
    requires Sizes(rs, ringSize) && Sizes(rs, 0xFFFF)
    decreases |rs|
    ensures DrainBytes(EncodeAll(rs), ringSize, batch, mode, mask) == VisitAll(batch, rs, mode, mask)
  {
    if rs != [] {
      hide Visit, Encode;
      EncodeHeader(rs[0], EncodeAll(rs[1..]));
      DrainRecords(rs[1..], ringSize, Visit(batch, Encode(rs[0]), mode, mask), mode, mask);
    }
  }

  /** Lost-record counts are added, whichever of the two records carries them. */
  lemma VisitLost(batch: Batch, id: u64, lost: u64, misc: u16, mode: UnwindMode, mask: u64)
    ensures Visit(batch, Encode(Record(PERF_RECORD_LOST, misc, ToBytes(id, 8) + ToBytes(lost, 8))), mode, mask)
         == batch.(lostSamples := SatU64(batch.lostSamples + lost))
    ensures Visit(batch, Encode(Record(PERF_RECORD_LOST_SAMPLES, misc, ToBytes(lost, 8))), mode, mask)
         == batch.(lostSamples := SatU64(batch.lostSamples + lost))
  {
    WordRoundTrip(lost);
    var a := Record(PERF_RECORD_LOST, misc, ToBytes(id, 8) + ToBytes(lost, 8));
    EncodeHeader(a, []);
    assert Encode(a)[16..24] == ToBytes(lost, 8);
    var b := Record(PERF_RECORD_LOST_SAMPLES, misc, ToBytes(lost, 8));
    EncodeHeader(b, []);
    assert Encode(b)[8..16] == ToBytes(lost, 8);
  }

  /** A sample record adds its sample behind those before, or counts as malformed. */
  lemma VisitSample(batch: Batch, misc: u16, payload: seq<u8>, mode: UnwindMode, mask: u64)
    requires 8 + |payload| <= 0xFFFF
    ensures var sample := SampleAt(payload, mode, mask);
            Visit(batch, Encode(Record(PERF_RECORD_SAMPLE, misc, payload)), mode, mask)
            == if sample.Some? then batch.(samples := batch.samples + [sample.value])
               else batch.(malformedRecords := batch.malformedRecords + 1)
  {
    hide SampleAt;
    EncodeHeader(Record(PERF_RECORD_SAMPLE, misc, payload), []);
  }

  /** A record of another kind is skipped. */
  lemma VisitOther(batch: Batch, r: Record, mode: UnwindMode, mask: u64)
    requires 8 + |r.payload| <= 0xFFFF
    requires r.kind != PERF_RECORD_SAMPLE && r.kind != PERF_RECORD_LOST && r.kind != PERF_RECORD_LOST_SAMPLES
    ensures Visit(batch, Encode(r), mode, mask) == batch
  {
    EncodeHeader(r, []);
  }

  // A frame-pointer sample as the kernel lays it out.

  function EncodeFixed(ip: u64, pid: u32, tid: u32, time: u64, period: u64): (b: seq<u8>)
    ensures |b| == 32
  {
    ToBytes(ip, 8) + ToBytes(pid, 4) + ToBytes(tid, 4) + ToBytes(time, 8) + ToBytes(period, 8)
  }

  function EncodeSample(ip: u64, pid: u32, tid: u32, time: u64, period: u64, frames: seq<u64>): seq<u8>
    requires |frames| <= U64_MAX
  {
    EncodeFixed(ip, pid, tid, time, period) + (ToBytes(|frames|, 8) + EncodeWords(frames))
  }

  lemma WordsRead(b: seq<u8>, offset: nat, words: seq<u64>, count: nat)
    requires count <= |words| && offset + 8 * |words| == |b| && b[offset..] == EncodeWords(words)
    ensures Words(b, offset, count) == Some(words[..count])
  {
    var r := Words(b, offset, count);
    forall i | 0 <= i < count
      ensures r.value[i] == words[i]
    {
      EncodedWord(words, i);
      assert b[offset + 8 * i..offset + 8 * i + 8] == b[offset..][8 * i..8 * i + 8];
      WordRoundTrip(words[i]);
    }
    assert r.value == words[..count];
  }

  lemma FixedRead(ip: u64, pid: u32, tid: u32, time: u64, period: u64, tail: seq<u8>)
    ensures var b := EncodeFixed(ip, pid, tid, time, period) + tail;
            && U64(b[..8]) == ip && U32(b[8..12]) == pid && U32(b[12..16]) == tid
            && U64(b[16..24]) == time && U64(b[24..32]) == period && b[32..] == tail
  {
    hide ToBytes, FromBytes, U64, U32;
    WordRoundTrip(ip);
    HalfRoundTrip(pid);
    HalfRoundTrip(tid);
    WordRoundTrip(time);
    WordRoundTrip(period);
    var b := EncodeFixed(ip, pid, tid, time, period) + tail;
    assert b[..8] == ToBytes(ip, 8) && b[8..12] == ToBytes(pid, 4) && b[12..16] == ToBytes(tid, 4);
    assert b[16..24] == ToBytes(time, 8) && b[24..32] == ToBytes(period, 8);
  }

  /** A callchain comes back without its context markers, led by the sampled instruction, cut to
      the frame limit before and after. */
  lemma SampleRoundTrip(ip: u64, pid: u32, tid: u32, time: u64, period: u64, frames: seq<u64>, mask: u64)
    requires |frames| <= U64_MAX
    ensures SampleAt(EncodeSample(ip, pid, tid, time, period, frames), FpMode, mask)
         == Some(PerfSample(pid, tid, time, period,
                            FramePointer(WithLeaf(ip, Addresses(frames[..Min(|frames|, DEFAULT_MAX_FRAMES)])))))
  {
    hide EncodeFixed, EncodeWords, WithLeaf, Addresses, ToBytes, U64, U32;
    var b, head := EncodeSample(ip, pid, tid, time, period, frames), EncodeFixed(ip, pid, tid, time, period);
    FixedRead(ip, pid, tid, time, period, ToBytes(|frames|, 8) + EncodeWords(frames));
    WordRead(head, |frames|, EncodeWords(frames));
    assert b == head + ToBytes(|frames|, 8) + EncodeWords(frames);
    WordsRead(b, 40, frames, Min(|frames|, DEFAULT_MAX_FRAMES));
  }

  // What is read of a callchain.

  predicate IsFrame(word: u64) {
    word < PERF_CONTEXT_MAX
  }

  lemma {:induction false} AddressesSelect(words: seq<u64>) returns (picks: seq<nat>)
    ensures Selects(words, IsFrame, picks) && Inside(picks, |words|) && Addresses(words) == Pick(words, picks)
  {
    hide Selects, Inside, Pick;
    if words == [] {
      picks := [];
      NothingSelected();
    } else {
      var n := |words| - 1;
      var before := AddressesSelect(words[..n]);
      SelectsPush(words[..n], words[n], IsFrame, before);
      PickPush(words[..n], words[n], before);
      assert words == words[..n] + [words[n]];
      picks := if IsFrame(words[n]) then before + [n] else before;
      SelectsInside(words, IsFrame, picks);
    }
  }

  lemma NothingSelected()
    ensures Selects<u64>([], IsFrame, []) && Inside([], 0) && Pick<u64>([], []) == []
  {
  }

  /** Any callchain: the words that are no context markers come back in their order, each as often as it
      was read, and the sampled instruction is put in front exactly when it does not lead them. A marker
      is among the frames exactly when the sampled instruction is one itself. */
  lemma CallchainRoundTrip(ip: u64, pid: u32, tid: u32, time: u64, period: u64, frames: seq<u64>, mask: u64)
    returns (picks: seq<nat>)
    requires |frames| <= U64_MAX
    ensures var words := frames[..Min(|frames|, DEFAULT_MAX_FRAMES)];
            && Selects(words, IsFrame, picks) && Inside(picks, |words|)
            && var r := SampleAt(EncodeSample(ip, pid, tid, time, period, frames), FpMode, mask);
               && r.Some? && r.value.data.FramePointer? && r.value == PerfSample(pid, tid, time, period, r.value.data)
               && var parsed, clean := r.value.data.frames, Pick(words, picks);
                  && (clean != [] && clean[0] == ip ==> parsed == clean)
                  && (clean == [] || clean[0] != ip ==>
                        parsed == [ip] + clean[..Min(|clean|, DEFAULT_MAX_FRAMES - 1)])
                  && ((forall i :: 0 <= i < |parsed| ==> parsed[i] < PERF_CONTEXT_MAX) <==> ip < PERF_CONTEXT_MAX)
  {
    hide EncodeSample, SampleAt, Addresses;
    var words := frames[..Min(|frames|, DEFAULT_MAX_FRAMES)];
    SampleRoundTrip(ip, pid, tid, time, period, frames, mask);
    picks := AddressesSelect(words);
    SelectsSize(words, IsFrame, picks);
    SelectsInside(words, IsFrame, picks);
    var clean := Pick(words, picks);
    assert forall i :: 0 <= i < |clean| ==> IsFrame(clean[i]);
    var parsed := WithLeaf(ip, clean);
    assert parsed[0] == ip;
    hide Selects, Pick;
  }

  /** A clean callchain comes back unchanged. */
  lemma {:induction false} AddressesKeepAll(frames: seq<u64>)
    requires forall i :: 0 <= i < |frames| ==> frames[i] < PERF_CONTEXT_MAX
    ensures Addresses(frames) == frames
  {
    if frames != [] {
      AddressesKeepAll(frames[..|frames| - 1]);
    }
  }

  lemma CleanSampleRoundTrip(pid: u32, tid: u32, time: u64, period: u64, frames: seq<u64>, mask: u64)
    requires 0 < |frames| <= DEFAULT_MAX_FRAMES
    requires forall i :: 0 <= i < |frames| ==> frames[i] < PERF_CONTEXT_MAX
    ensures SampleAt(EncodeSample(frames[0], pid, tid, time, period, frames), FpMode, mask)
         == Some(PerfSample(pid, tid, time, period, FramePointer(frames)))
  {
    hide SampleAt, EncodeSample;
    SampleRoundTrip(frames[0], pid, tid, time, period, frames, mask);
    AddressesKeepAll(frames);
    assert frames[..|frames|] == frames;
  }

  // A stack snapshot as the kernel lays it out: the registers of the mask's bits from the lowest up,
  // the room for the stack with its bytes, and how many of them were filled.

  function EncodeSnapshot(ip: u64, pid: u32, tid: u32, time: u64, period: u64, abi: u64, registers: seq<u64>,
                          stack: seq<u8>, filled: u64): seq<u8>
    requires |stack| <= U64_MAX
  {
    EncodeFixed(ip, pid, tid, time, period)
    + (ToBytes(abi, 8) + EncodeWords(registers) + ToBytes(|stack|, 8) + stack + ToBytes(filled, 8))
  }

  /** Where each field of a snapshot is read. */
  lemma SnapshotFields(ip: u64, pid: u32, tid: u32, time: u64, period: u64, abi: u64, registers: seq<u64>,
                       stack: seq<u8>, filled: u64)
    requires |stack| <= U64_MAX
    ensures var b, at := EncodeSnapshot(ip, pid, tid, time, period, abi, registers, stack, filled), 40 + 8 * |registers|;
            && |b| == at + 16 + |stack|
            && U64At(b, 32) == Some(abi)
            && (forall i :: 0 <= i < |registers| ==> U64At(b, 40 + 8 * i) == Some(registers[i]))
            && U64At(b, at) == Some(|stack|) && b[at + 8..at + 8 + |stack|] == stack
            && U64At(b, at + 8 + |stack|) == Some(filled)
  {
    hide EncodeFixed, EncodeWords, ToBytes, U64, U64At;
    var b := EncodeSnapshot(ip, pid, tid, time, period, abi, registers, stack, filled);
    var head, words := EncodeFixed(ip, pid, tid, time, period), EncodeWords(registers);
    var room, end := ToBytes(|stack|, 8), ToBytes(filled, 8);
    WordRead(head, abi, words + room + stack + end);
    assert b == head + ToBytes(abi, 8) + (words + room + stack + end);
    forall i | 0 <= i < |registers|
      ensures U64At(b, 40 + 8 * i) == Some(registers[i])
    {
      WordAmong(head + ToBytes(abi, 8), registers, room + stack + end, i);
      assert b == head + ToBytes(abi, 8) + words + (room + stack + end);
    }
    WordRead(head + ToBytes(abi, 8) + words, |stack|, stack + end);
    assert b == head + ToBytes(abi, 8) + words + room + (stack + end);
    WordRead(head + ToBytes(abi, 8) + words + room + stack, filled, []);
    assert b == head + ToBytes(abi, 8) + words + room + stack + end + [];
  }

  /** A snapshot comes back with the registers that the mask gives their places and the filled part of
      its stack, exactly when the mask holds the stack and the frame pointer. */
  lemma SnapshotRoundTrip(ip: u64, pid: u32, tid: u32, time: u64, period: u64, abi: u64, registers: seq<u64>,
                          stack: seq<u8>, filled: u64, mask: u64)
    requires |stack| <= U64_MAX && abi != 0 && |registers| == Rank(mask, 64)
    ensures var r := SampleAt(EncodeSnapshot(ip, pid, tid, time, period, abi, registers, stack, filled), DwarfMode, mask);
            if !Bit(mask, X86_BP) || !Bit(mask, X86_SP) then r == None
            else
              && Rank(mask, X86_BP) < |registers| && Rank(mask, X86_SP) < |registers|
              && (Bit(mask, X86_IP) ==> Rank(mask, X86_IP) < |registers|)
              && r == Some(PerfSample(pid, tid, time, period, Dwarf(
                        Registers(if Bit(mask, X86_IP) then registers[Rank(mask, X86_IP)] else ip,
                                  registers[Rank(mask, X86_SP)], registers[Rank(mask, X86_BP)], 0),
                        stack[..Min(filled, |stack|)])))
  {
    hide EncodeFixed, EncodeWords, ToBytes, U64, U32, U64At, Rank;
    var b := EncodeSnapshot(ip, pid, tid, time, period, abi, registers, stack, filled);
    FixedRead(ip, pid, tid, time, period,
              ToBytes(abi, 8) + EncodeWords(registers) + ToBytes(|stack|, 8) + stack + ToBytes(filled, 8));
    SnapshotFields(ip, pid, tid, time, period, abi, registers, stack, filled);
    RankMonotone(mask, X86_BP, 64);
    RankMonotone(mask, X86_SP, 64);
    RankMonotone(mask, X86_IP, 64);
    var at, n := 40 + 8 * |registers|, Min(filled, |stack|);
    assert b[at + 8..at + 8 + n] == b[at + 8..at + 8 + |stack|][..n];
  }
}
