/** Little-endian words in byte strings, as the x86-64 and aarch64 kernels write them. */
module Bytes {
  import opened Machine
  import opened Bits

  function FromBytes(b: seq<u8>): nat {
    if b == [] then 0 else b[0] + 256 * FromBytes(b[1..])
  }

  function ToBytes(n: nat, width: nat): (b: seq<u8>)
    ensures |b| == width
  {
    if width == 0 then [] else [n % 256] + ToBytes(n / 256, width - 1)
  }

  lemma {:induction false} FromBytesBound(b: seq<u8>)
    ensures FromBytes(b) < Pow2(8 * |b|)
  {
    if b != [] {
      FromBytesBound(b[1..]);
      Pow2Add(8, 8 * (|b| - 1));
      assert Pow2(8) == 256;
    }
  }

  lemma {:induction false} BytesRoundTrip(n: nat, width: nat)
    requires n < Pow2(8 * width)
    ensures FromBytes(ToBytes(n, width)) == n
  {
    if width > 0 {
      Pow2Add(8, 8 * (width - 1));
      assert Pow2(8) == 256;
      BytesRoundTrip(n / 256, width - 1);
      assert ToBytes(n, width)[1..] == ToBytes(n / 256, width - 1);
    }
  }

  function U16(b: seq<u8>): (n: u16)
    requires |b| == 2
  {
    FromBytesBound(b);
    Pow2Values();
    FromBytes(b)
  }

  function U32(b: seq<u8>): (n: u32)
    requires |b| == 4
  {
    FromBytesBound(b);
    Pow2Values();
    FromBytes(b)
  }

  function U64(b: seq<u8>): (n: u64)
    requires |b| == 8
  {
    FromBytesBound(b);
    Pow2Values();
    FromBytes(b)
  }

  /** `read_u64`: the word at an offset, when it lies inside. */
  function U64At(b: seq<u8>, offset: nat): Option<u64> {
    if offset + 8 <= |b| then Some(U64(b[offset..offset + 8])) else None
  }

  function U32At(b: seq<u8>, offset: nat): Option<u32> {
    if offset + 4 <= |b| then Some(U32(b[offset..offset + 4])) else None
  }

  lemma WordRoundTrip(n: u64)
    ensures U64(ToBytes(n, 8)) == n
  {
    Pow2Values();
    BytesRoundTrip(n, 8);
  }

  lemma HalfRoundTrip(n: u32)
    ensures U32(ToBytes(n, 4)) == n
  {
    Pow2Values();
    BytesRoundTrip(n, 4);
  }

  lemma ShortRoundTrip(n: u16)
    ensures U16(ToBytes(n, 2)) == n
  {
    Pow2Values();
    BytesRoundTrip(n, 2);
  }

  // Words one after another.

  function EncodeWords(words: seq<u64>): (b: seq<u8>)
    ensures |b| == 8 * |words|
  {
    if words == [] then [] else EncodeWords(words[..|words| - 1]) + ToBytes(words[|words| - 1], 8)
  }

  lemma {:induction false} EncodedWord(words: seq<u64>, i: nat)
    requires i < |words|
    ensures EncodeWords(words)[8 * i..8 * i + 8] == ToBytes(words[i], 8)
  {
    var n := |words| - 1;
    if i < n {
      EncodedWord(words[..n], i);
      assert EncodeWords(words)[8 * i..8 * i + 8] == EncodeWords(words[..n])[8 * i..8 * i + 8];
    }
  }

  /** A word written somewhere is the word read there. */
  lemma WordRead(before: seq<u8>, n: u64, after: seq<u8>)
    ensures U64At(before + ToBytes(n, 8) + after, |before|) == Some(n)
  {
    hide ToBytes, U64;
    WordRoundTrip(n);
    var b := before + ToBytes(n, 8) + after;
    assert b[|before|..|before| + 8] == ToBytes(n, 8);
  }

  lemma WordIs(b: seq<u8>, at: nat, n: u64)
    requires at + 8 <= |b| && b[at..at + 8] == ToBytes(n, 8)
    ensures U64At(b, at) == Some(n)
  {
    hide ToBytes, U64;
    WordRoundTrip(n);
  }

  lemma WordAmong(before: seq<u8>, words: seq<u64>, after: seq<u8>, i: nat)
    requires i < |words|
    ensures U64At(before + EncodeWords(words) + after, |before| + 8 * i) == Some(words[i])
  {
    hide *;
    EncodedWord(words, i);
    Slice(before, EncodeWords(words), after, 8 * i);
    WordIs(before + EncodeWords(words) + after, |before| + 8 * i, words[i]);
  }

  lemma Slice(before: seq<u8>, middle: seq<u8>, after: seq<u8>, k: nat)
    requires k + 8 <= |middle|
    ensures (before + middle + after)[|before| + k..|before| + k + 8] == middle[k..k + 8]
  {
  }
}
