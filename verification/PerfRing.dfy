/** Draining a perf ring buffer: src/platform/linux/perf.rs, lines 389-528 and 568-715. The memory
    mapping is an array, the kernel's metadata page the fields `head`, `tail`, `dataOffset` and
    `dataSize`. */
module PerfRing {
  import opened Machine
  import opened Bits
  import opened Bytes
  import opened PerfSamples
  import opened PerfRecords

  /** A reader that moves forward through a record. */
  class Cursor {
    const bytes: seq<u8>
    var offset: nat

    constructor (bytes: seq<u8>)
      ensures this.bytes == bytes && offset == 0
    {
      this.bytes := bytes;
      offset := 0;
    }

    method Take(length: nat) returns (r: Option<seq<u8>>)
      requires offset <= |bytes|
      modifies this
      ensures offset <= |bytes|
      ensures r.Some? <==> old(offset) + length <= |bytes|
      ensures r.Some? ==> r.value == bytes[old(offset)..old(offset) + length] && offset == old(offset) + length
      ensures r.None? ==> offset == old(offset)
    {
      var end := offset + length;
      if end > |bytes| {
        return None;
      }
      r := Some(bytes[offset..end]);
      offset := end;
    }

    method ReadU32() returns (r: Option<u32>)
      requires offset <= |bytes|
      modifies this
      ensures offset <= |bytes|
      ensures r == U32At(bytes, old(offset))
      ensures offset == old(offset) + (if r.Some? then 4 else 0)
    {
      var b := Take(4);
      r := if b.Some? then Some(U32(b.value)) else None;
    }

    method ReadU64() returns (r: Option<u64>)
      requires offset <= |bytes|
      modifies this
      ensures offset <= |bytes|
      ensures r == U64At(bytes, old(offset))
      ensures offset == old(offset) + (if r.Some? then 8 else 0)
    {
      var b := Take(8);
      r := if b.Some? then Some(U64(b.value)) else None;
    }
  }

  /** `decode_registers` on x86-64. */
  method DecodeRegisters(cursor: Cursor, ip: u64, mask: u64) returns (r: Option<Registers>)
    requires cursor.offset <= |cursor.bytes|
    modifies cursor
    ensures cursor.offset <= |cursor.bytes|
    ensures r == RegistersAt(cursor.bytes, old(cursor.offset), ip, mask)
    ensures r.Some? ==> cursor.offset == old(cursor.offset) + 8 * Rank(mask, 64)
  {
    ghost var base := cursor.offset;
    var sampledIp := ip;
    var sp: Option<u64> := None;
    var fp: Option<u64> := None;
    for bit := 0 to 64
      invariant cursor.offset == base + 8 * Rank(mask, bit) <= |cursor.bytes|
      invariant fp == if bit > X86_BP then Register(cursor.bytes, base, mask, X86_BP) else None
      invariant sp == if bit > X86_SP then Register(cursor.bytes, base, mask, X86_SP) else None
      invariant var s := Register(cursor.bytes, base, mask, X86_IP);
                sampledIp == if bit > X86_IP && s.Some? then s.value else ip
    {
      if !Bit(mask, bit) {
        continue;
      }
      var value := cursor.ReadU64();
      if value.None? {
        RankMonotone(mask, bit, 64);
        return None;
      }
      if bit == X86_BP {
        fp := value;
      } else if bit == X86_SP {
        sp := value;
      } else if bit == X86_IP {
        sampledIp := value.value;
      }
    }
    r := if sp.Some? && fp.Some? then Some(Registers(sampledIp, sp.value, fp.value, 0)) else None;
  }

  method ReadAddresses(cursor: Cursor, count: nat) returns (r: Option<seq<u64>>)
    requires cursor.offset == 40 <= |cursor.bytes|
    modifies cursor
    ensures var words := Words(cursor.bytes, 40, count);
            r == if words.Some? then Some(Addresses(words.value)) else None
  {
    hide U64, FromBytes;
    var frames: seq<u64> := [];
    ghost var words: seq<u64> := [];
    for i := 0 to count
      invariant cursor.offset == 40 + 8 * i <= |cursor.bytes|
      invariant Words(cursor.bytes, 40, i) == Some(words) && frames == Addresses(words)
    {
      var address := cursor.ReadU64();
      if address.None? {
        return None;
      }
      words := words + [address.value];
      assert words[..i] == words[..|words| - 1];
      if address.value < PERF_CONTEXT_MAX {
        frames := frames + [address.value];
      }
    }
    r := Some(frames);
  }

  method ParseFrames(cursor: Cursor, ip: u64) returns (r: Option<PerfSampleData>)
    requires cursor.offset == 32 <= |cursor.bytes|
    modifies cursor
    ensures r == FramesAt(cursor.bytes, ip)
  {
    hide U64, Words, Addresses;
    var announced := cursor.ReadU64();
    if announced.None? {
      return None;
    }
    var read := ReadAddresses(cursor, Min(announced.value, DEFAULT_MAX_FRAMES));
    if read.None? {
      return None;
    }
    var frames := read.value;
    if frames == [] || frames[0] != ip {
      frames := [ip] + frames;
    }
    if |frames| > DEFAULT_MAX_FRAMES {
      frames := frames[..DEFAULT_MAX_FRAMES];
    }
    r := Some(FramePointer(frames));
  }

  method ParseSnapshot(cursor: Cursor, ip: u64, mask: u64) returns (r: Option<PerfSampleData>)
    requires cursor.offset == 32 <= |cursor.bytes|
    modifies cursor
    ensures r == SnapshotAt(cursor.bytes, ip, mask)
  {
    hide U64, FromBytes, RegistersAt;
    var abi := cursor.ReadU64();
    if abi.None? || abi.value == 0 {
      return None;
    }
    var registers := DecodeRegisters(cursor, ip, mask);
    if registers.None? {
      return None;
    }
    ghost var offset := cursor.offset;
    var requested := cursor.ReadU64();
    if requested.None? {
      return None;
    }
    var stack := cursor.Take(requested.value);
    if stack.None? {
      return None;
    }
    var announced := cursor.ReadU64();
    if announced.None? {
      return None;
    }
    var dynamic := Min(announced.value, |stack.value|);
    assert stack.value[..dynamic] == cursor.bytes[offset + 8..offset + 8 + dynamic];
    r := Some(Dwarf(registers.value, stack.value[..dynamic]));
  }

  /** `parse_sample` reads the fields in order and so by position. */
  method ParseSample(bytes: seq<u8>, mode: UnwindMode, mask: u64) returns (r: Option<PerfSample>)
    ensures r == SampleAt(bytes, mode, mask)
  {
    var cursor := new Cursor(bytes);
    var ip := cursor.ReadU64();
    if ip.None? {
      return None;
    }
    var pid := cursor.ReadU32();
    if pid.None? {
      return None;
    }
    var tid := cursor.ReadU32();
    if tid.None? {
      return None;
    }
    var time := cursor.ReadU64();
    if time.None? {
      return None;
    }
    var period := cursor.ReadU64();
    if period.None? {
      return None;
    }
    assert ip.value == U64(bytes[..8]);
    var data: Option<PerfSampleData> := None;
    match mode {
      case FpMode => data := ParseFrames(cursor, ip.value);
      case DwarfMode => data := ParseSnapshot(cursor, ip.value, mask);
      case AutoMode => return None;
    }
    r := if data.Some? then Some(PerfSample(pid.value, tid.value, time.value, period.value, data.value)) else None;
  }

  /** What a drain appends to. */
  class PerfBatch {
    var samples: seq<PerfSample>
    var lostSamples: u64
    var malformedRecords: nat

    ghost function Contents(): Batch
      reads this
    {
      Batch(samples, lostSamples, malformedRecords)
    }

    method AddLost(lost: Option<u64>)
      modifies this
      ensures Contents() == Lost(old(Contents()), lost)
    {
      if lost.Some? {
        lostSamples := SatU64(lostSamples + lost.value);
      } else {
        malformedRecords := malformedRecords + 1;
      }
    }

    /** The body of the drain loop for one record. */
    method Add(record: seq<u8>, mode: UnwindMode, mask: u64)
      requires |record| >= 8
      modifies this
      ensures Contents() == Visit(old(Contents()), record, mode, mask)
    {
      hide SampleAt;
      var kind := U32(record[..4]);
      if kind == PERF_RECORD_SAMPLE {
        var sample := ParseSample(record[8..], mode, mask);
        if sample.Some? {
          samples := samples + [sample.value];
        } else {
          malformedRecords := malformedRecords + 1;
        }
      } else if kind == PERF_RECORD_LOST {
        AddLost(U64At(record, 16));
      } else if kind == PERF_RECORD_LOST_SAMPLES {
        AddLost(U64At(record, 8));
      }
    }
  }

  class PerfEvent {
    const ring: array<u8>
    const mode: UnwindMode
    const mask: u64
    var head: u64
    var tail: nat
    const dataOffset: u64
    const dataSize: u64

    /** The data area lies inside the mapping. */
    predicate Mapped() {
      dataOffset + dataSize <= U64_MAX && dataOffset + dataSize <= ring.Length
    }

    /** `count` bytes of the stream from an absolute position on, wherever they wrap. */
    ghost function Stream(position: nat, count: nat): (s: seq<u8>)
      requires Mapped() && dataSize > 0
      reads ring
      ensures |s| == count
    {
      seq(count, i requires 0 <= i < count reads ring => ring[dataOffset + (position + i) % dataSize])
    }

    lemma StreamAt(position: nat, count: nat, i: nat)
      requires Mapped() && dataSize > 0 && i < count
      ensures (position + i) % dataSize < dataSize
      ensures Stream(position, count)[i] == ring[dataOffset + (position + i) % dataSize]
    {
    }

    /** `absolute_offset & (data_size - 1)`. */
    function Start(position: nat): (r: nat)
      requires PowerOfTwo(dataSize)
      ensures r == position % dataSize
    {
      PowerOfTwoMeans(dataSize);
      assert And(position, dataSize - 1) == position % dataSize by {
        var k: nat :| dataSize == Pow2(k);
        MaskIsModulo(position, k);
      }
      And(position, dataSize - 1)
    }

    /** `copy_from_ring_into`. */
    method CopyFromRingInto(position: nat, output: array<u8>) returns (ok: bool)
      requires PowerOfTwo(dataSize) && output != ring
      modifies output
      ensures ok <==> Mapped() && output.Length <= dataSize
      ensures ok ==> output[..] == Stream(position, output.Length)
      ensures !ok ==> output[..] == old(output[..])
    {
      if !Mapped() {
        return false;
      }
      var start := Start(position);
      if output.Length > dataSize {
        return false;
      }
      var first := Min(output.Length, dataSize - start);
      forall i | 0 <= i < first {
        output[i] := ring[dataOffset + start + i];
      }
      forall i | first <= i < output.Length {
        output[i] := ring[dataOffset + i - first];
      }
      forall i | 0 <= i < output.Length
        ensures output[i] == Stream(position, output.Length)[i]
      {
        WrapAround(position, i, dataSize);
        StreamAt(position, output.Length, i);
      }
      return true;
    }

    /** `record_from_ring`: a borrowed slice, or the two halves of a record that wraps. */
    method RecordFromRing(position: nat, length: nat) returns (r: Option<seq<u8>>)
      requires PowerOfTwo(dataSize)
      ensures r.Some? <==> Mapped() && length <= dataSize
      ensures r.Some? ==> r.value == Stream(position, length)
    {
      if !Mapped() {
        return None;
      }
      var start := Start(position);
      if length > dataSize {
        return None;
      }
      var first := dataSize - start;
      if length <= first {
        r := Some(ring[dataOffset + start..dataOffset + start + length]);
      } else {
        r := Some(ring[dataOffset + start..dataOffset + dataSize] + ring[dataOffset..dataOffset + (length - first)]);
      }
      forall i | 0 <= i < length
        ensures r.value[i] == Stream(position, length)[i]
      {
        WrapAround(position, i, dataSize);
        StreamAt(position, length, i);
      }
    }

    lemma StreamSplit(position: nat, count: nat, n: nat)
      requires Mapped() && dataSize > 0 && n <= count
      ensures Stream(position, count)[..n] == Stream(position, n)
      ensures Stream(position, count)[n..] == Stream(position + n, count - n)
    {
      forall i | n <= i < count
        ensures Stream(position, count)[i] == Stream(position + n, count - n)[i - n]
      {
        assert position + n + (i - n) == position + i;
      }
    }

    /** `drain`: the batch gains exactly what the bytes between tail and head decode to, and the
        tail is moved up to the head whatever those bytes are. */
    method Drain(batch: PerfBatch)
      modifies this`tail, batch
      ensures !PowerOfTwo(dataSize) ==>
        tail == old(tail)
        && batch.Contents() == old(batch.Contents()).(malformedRecords := old(batch.malformedRecords) + 1)
      ensures PowerOfTwo(dataSize) ==> tail == Max(old(tail), head)
      ensures PowerOfTwo(dataSize) && Mapped() && old(tail) < head ==>
        batch.Contents() == DrainBytes(Stream(old(tail), head - old(tail)), dataSize, old(batch.Contents()), mode, mask)
      ensures PowerOfTwo(dataSize) && !Mapped() && old(tail) < head ==>
        batch.Contents() == old(batch.Contents()).(malformedRecords := old(batch.malformedRecords) + 1)
      ensures PowerOfTwo(dataSize) && old(tail) >= head ==> batch.Contents() == old(batch.Contents())
    {
      hide Visit, U16, U32, DrainBytes, PowerOfTwo, PerfEvent.Stream;
      if !PowerOfTwo(dataSize) {
        batch.malformedRecords := batch.malformedRecords + 1;
        return;
      }
      PowerOfTwoPositive(dataSize);
      ghost var goal := if Mapped() && tail < head
        then DrainBytes(Stream(tail, head - tail), dataSize, batch.Contents(), mode, mask) else batch.Contents();
      var t := tail;
      while t < head
        invariant tail == old(tail) && old(tail) <= t <= Max(old(tail), head)
        invariant t == old(tail) ==> batch.Contents() == old(batch.Contents())
        invariant Mapped() && old(tail) < head ==> goal == DrainBytes(Stream(t, head - t), dataSize, batch.Contents(), mode, mask)
        invariant !Mapped() && old(tail) < t ==>
          t == head && batch.Contents() == old(batch.Contents()).(malformedRecords := old(batch.malformedRecords) + 1)
        decreases head - t
      {
        var next := DrainOne(batch, t);
        t := next;
      }
      if Mapped() && old(tail) < head {
        NothingLeft(Stream(t, head - t), dataSize, batch.Contents(), mode, mask);
      }
      tail := t;
    }

    /** One turn of the drain loop: the next position to read from. */
    method DrainOne(batch: PerfBatch, t: nat) returns (next: nat)
      requires PowerOfTwo(dataSize) && t < head
      modifies batch
      ensures t < next <= head
      ensures Mapped() ==>
        DrainBytes(Stream(next, head - next), dataSize, batch.Contents(), mode, mask)
          == DrainBytes(old(Stream(t, head - t)), dataSize, old(batch.Contents()), mode, mask)
      ensures !Mapped() ==>
        next == head
        && batch.Contents() == old(batch.Contents()).(malformedRecords := old(batch.malformedRecords) + 1)
    {
      hide Visit, U16, U32, DrainBytes, PowerOfTwo, PerfEvent.Stream;
      PowerOfTwoPositive(dataSize);
      ghost var before := batch.Contents();
      ghost var bytes := if Mapped() then Stream(t, head - t) else [];
      var header := new u8[8];
      var copied := CopyFromRingInto(t, header);
      if copied && |bytes| >= 8 {
        StreamSplit(t, head - t, 8);
      }
      var size := U16(header[6..8]);
      if !copied || size < 8 || size > dataSize || t + size > head {
        batch.malformedRecords := batch.malformedRecords + 1;
        if Mapped() {
          assert copied && |bytes| >= 8 ==> bytes[6..8] == header[6..8];
          Broken(bytes, dataSize, before, mode, mask);
          NothingLeft(Stream(head, 0), dataSize, batch.Contents(), mode, mask);
        }
        return head;
      }
      assert bytes[6..8] == header[6..8];
      StreamSplit(t, head - t, size);
      var record := RecordFromRing(t, size);
      batch.Add(record.value, mode, mask);
      Read(bytes, dataSize, before, mode, mask);
      return t + size;
    }
  }

  lemma PowerOfTwoPositive(n: nat)
    requires PowerOfTwo(n)
    ensures n > 0
  {
  }

  lemma NothingLeft(b: seq<u8>, ringSize: nat, batch: Batch, mode: UnwindMode, mask: u64)
    requires b == []
    ensures DrainBytes(b, ringSize, batch, mode, mask) == batch
  {
  }

  lemma Broken(b: seq<u8>, ringSize: nat, batch: Batch, mode: UnwindMode, mask: u64)
    requires b != [] && (|b| < 8 || !Sized(b, ringSize))
    ensures DrainBytes(b, ringSize, batch, mode, mask) == batch.(malformedRecords := batch.malformedRecords + 1)
  {
  }

  lemma Read(b: seq<u8>, ringSize: nat, batch: Batch, mode: UnwindMode, mask: u64)
    requires |b| >= 8 && Sized(b, ringSize)
    ensures var size := U16(b[6..8]);
            DrainBytes(b, ringSize, batch, mode, mask) == DrainBytes(b[size..], ringSize, Visit(batch, b[..size], mode, mask), mode, mask)
  {
  }

  // A ring filled by its producer.

  /** The data area after a producer at position `tail` wrote `bytes`. */
  function Laid(area: seq<u8>, tail: nat, bytes: seq<u8>): (r: seq<u8>)
    requires |bytes| <= |area|
    ensures |r| == |area|
  {
    seq(|area|, j requires 0 <= j < |area| =>
      var i := Distance(tail, j, |area|); if i < |bytes| then bytes[i] else area[j])
  }

  /** How far slot `j` is ahead of a position on a circle of `d` slots. */
  function Distance(position: nat, j: nat, d: nat): (i: nat)
    requires j < d
    ensures i < d
  {
    var start := position % d;
    if j >= start then j - start else j + d - start
  }

  /** The stream read back is what was written, wherever it wraps. */
  lemma LaidReads(area: seq<u8>, tail: nat, bytes: seq<u8>, i: nat)
    requires i < |bytes| <= |area|
    ensures (tail + i) % |area| < |area| && Laid(area, tail, bytes)[(tail + i) % |area|] == bytes[i]
  {
    WrapAround(tail, i, |area|);
    assert Distance(tail, (tail + i) % |area|, |area|) == i;
  }

  /** A drain after a producer wrote well-formed records: every record visited once, in order. */
  lemma DrainAfterWrites(e: PerfEvent, before: seq<u8>, rs: seq<Record>, batch: Batch)
    requires e.Mapped() && e.dataSize > 0 && Sizes(rs, e.dataSize) && Sizes(rs, 0xFFFF)
    requires |before| == e.dataSize && e.tail + |EncodeAll(rs)| == e.head && |EncodeAll(rs)| <= e.dataSize
    requires e.ring[e.dataOffset..e.dataOffset + e.dataSize] == Laid(before, e.tail, EncodeAll(rs))
    ensures DrainBytes(e.Stream(e.tail, e.head - e.tail), e.dataSize, batch, e.mode, e.mask)
         == VisitAll(batch, rs, e.mode, e.mask)
  {
    hide EncodeAll, DrainBytes, VisitAll, Laid;
    var bytes := EncodeAll(rs);
    var stream := e.Stream(e.tail, |bytes|);
    var area := e.ring[e.dataOffset..e.dataOffset + e.dataSize];
    forall i | 0 <= i < |bytes|
      ensures stream[i] == bytes[i]
    {
      LaidReads(before, e.tail, bytes, i);
      e.StreamAt(e.tail, |bytes|, i);
      assert stream[i] == area[(e.tail + i) % e.dataSize];
    }
    assert stream == bytes;
    DrainRecords(rs, e.dataSize, batch, e.mode, e.mask);
  }

  /** A producer writes records behind the tail and a consumer drains: the batch gains every record
      once, in order, wherever the stream wraps, and the ring is empty. */
  method DrainWritten(e: PerfEvent, batch: PerfBatch, ghost before: seq<u8>, ghost rs: seq<Record>)
    requires PowerOfTwo(e.dataSize) && e.Mapped() && Sizes(rs, e.dataSize) && Sizes(rs, 0xFFFF)
    requires |before| == e.dataSize && e.tail + |EncodeAll(rs)| == e.head && |EncodeAll(rs)| <= e.dataSize
    requires e.ring[e.dataOffset..e.dataOffset + e.dataSize] == Laid(before, e.tail, EncodeAll(rs))
    modifies e`tail, batch
    ensures e.tail == e.head && batch.Contents() == VisitAll(old(batch.Contents()), rs, e.mode, e.mask)
  {
    hide DrainBytes, VisitAll, Laid, PowerOfTwo, PerfEvent.Stream;
    PowerOfTwoPositive(e.dataSize);
    DrainAfterWrites(e, before, rs, batch.Contents());
    if e.tail == e.head {
      NothingLeft(e.Stream(e.tail, 0), e.dataSize, batch.Contents(), e.mode, e.mask);
    }
    e.Drain(batch);
  }
}
