/** The allocation sampler of the kernel probes: bpf/heap.bpf.c, lines 132-158. */
module Sampling {
  import opened Machine
  import opened Bits

  /** One `ratio |= ratio >> k` statement. */
  function Smear(ratio: nat, k: nat): nat {
    Or(ratio, ShiftRight(ratio, k))
  }

  /** The top `m` bits of the `w`-bit word `x` are set and nothing lies above them. */
  ghost predicate Smeared(x: nat, w: nat, m: nat) {
    forall i: nat :: (Bit(x, i) ==> i < w) && (w <= i + m && i < w ==> Bit(x, i))
  }

  lemma WidthTopBit(x: nat, w: nat)
    requires Width(x, w)
    ensures Smeared(x, w, 1)
  {
    WidthBits(x, w);
  }

  lemma SmearDoubles(x: nat, w: nat, m: nat)
    requires Smeared(x, w, m)
    ensures Smeared(Smear(x, m), w, 2 * m)
  {
    var y := Smear(x, m);
    forall i: nat
      ensures (Bit(y, i) ==> i < w) && (w <= i + 2 * m && i < w ==> Bit(y, i))
    {
      OrBit(x, ShiftRight(x, m), i);
      ShiftRightBit(x, m, i);
      assert Bit(x, i + m) ==> i + m < w;
    }
  }

  lemma SmearedWord(x: nat, w: nat, m: nat)
    requires Smeared(x, w, m) && w <= m
    ensures x == Pow2(w) - 1
  {
    AllOnes(x, w);
  }

  /** The six smearing steps leave the highest power of two not above the ratio. */
  lemma SmearedRatio(ratio: nat)
    requires 0 < ratio <= U64_MAX
    ensures var r := Smear(Smear(Smear(Smear(Smear(Smear(ratio, 1), 2), 4), 8), 16), 32);
            && ratio <= r < 2 * ratio && r <= U64_MAX
            && ShiftRight(r, 1) <= r && IsPowerOfTwo(r - ShiftRight(r, 1)) && r - ShiftRight(r, 1) <= ratio < 2 * (r - ShiftRight(r, 1))
  {
    Pow2Values();
    var w := WidthExists(ratio, 64);
    WidthTopBit(ratio, w);
    var a := Smear(ratio, 1);
    SmearDoubles(ratio, w, 1);
    var b := Smear(a, 2);
    SmearDoubles(a, w, 2);
    var c := Smear(b, 4);
    SmearDoubles(b, w, 4);
    var d := Smear(c, 8);
    SmearDoubles(c, w, 8);
    var e := Smear(d, 16);
    SmearDoubles(d, w, 16);
    SmearDoubles(e, w, 32);
    SmearedWord(Smear(e, 32), w, 64);
    Pow2Monotone(w, 64);
    var r := Smear(e, 32);
    assert ShiftRight(r, 1) == ShiftRight(r / 2, 0);
    assert r - ShiftRight(r, 1) == Pow2(w - 1);
  }

  /** `sampling_weight`, statement by statement, on 64-bit words. */
  method SamplingWeight(size: u64, interval: u64) returns (weight: u64)
    ensures weight == SamplingWeightOf(size, interval)
    ensures size == 0 || size >= interval ==> weight == 1
    ensures 0 < size < interval ==> IsPowerOfTwo(weight) && weight * size <= interval < 2 * weight * size
  {
    if size == 0 || size >= interval || interval == 0 {
      return 1;
    }
    var ratio: nat := interval / size;
    RatioBounds(interval, size);
    SmearedRatio(ratio);
    ratio := Or(ratio, ShiftRight(ratio, 1));
    ratio := Or(ratio, ShiftRight(ratio, 2));
    ratio := Or(ratio, ShiftRight(ratio, 4));
    ratio := Or(ratio, ShiftRight(ratio, 8));
    ratio := Or(ratio, ShiftRight(ratio, 16));
    ratio := Or(ratio, ShiftRight(ratio, 32));
    weight := ratio - ShiftRight(ratio, 1);
    WeightBrackets(interval, size, weight);
    WeightUnique(interval, size, weight);
  }

  /** The weight as a function, for the probes that call it: the largest power of two whose
      product with the size stays within the interval. */
  ghost function SamplingWeightOf(size: nat, interval: nat): (weight: nat)
    ensures weight == 1 || 1 <= weight <= interval
  {
    if size == 0 || size >= interval then 1
    else
      RatioBounds(interval, size);
      HighestPower(interval / size)
  }

  ghost function HighestPower(ratio: nat): (p: nat)
    ensures p == 1 || 1 <= p <= ratio
  {
    if ratio < 2 then 1 else 2 * HighestPower(ratio / 2)
  }

  lemma {:induction false} HighestPowerUnique(ratio: nat, k: nat)
    requires Pow2(k) <= ratio < 2 * Pow2(k)
    ensures HighestPower(ratio) == Pow2(k)
  {
    if k > 0 {
      HighestPowerUnique(ratio / 2, k - 1);
    }
  }

  lemma {:induction false} HighestPowerMeans(ratio: nat)
    requires ratio > 0
    ensures IsPowerOfTwo(HighestPower(ratio)) && HighestPower(ratio) <= ratio < 2 * HighestPower(ratio)
  {
    if ratio < 2 {
      assert Pow2(0) == 1;
    } else {
      HighestPowerMeans(ratio / 2);
      var k: nat :| HighestPower(ratio / 2) == Pow2(k);
      assert HighestPower(ratio) == Pow2(k + 1);
    }
  }

  /** The weight an allocation of this size is sampled with: one when the size reaches the interval, else
      the power of two that brings the size closest to the interval from below. */
  ghost predicate Weighs(weight: nat, size: nat, interval: nat) {
    if size == 0 || size >= interval then weight == 1
    else IsPowerOfTwo(weight) && weight * size <= interval < 2 * weight * size
  }

  lemma WeightWeighs(size: nat, interval: nat)
    ensures Weighs(SamplingWeightOf(size, interval), size, interval)
    ensures IsPowerOfTwo(SamplingWeightOf(size, interval))
  {
    assert Pow2(0) == 1;
    if 0 < size < interval {
      RatioBounds(interval, size);
      HighestPowerMeans(interval / size);
      WeightBrackets(interval, size, HighestPower(interval / size));
    }
  }

  lemma WeightUnique(interval: nat, size: nat, weight: nat)
    requires 0 < size < interval
    requires IsPowerOfTwo(weight) && weight <= interval / size < 2 * weight
    ensures weight == SamplingWeightOf(size, interval)
  {
    var k: nat :| weight == Pow2(k);
    HighestPowerUnique(interval / size, k);
  }

  lemma RatioBounds(interval: nat, size: nat)
    requires 0 < size < interval
    ensures 0 < interval / size <= interval
    ensures size * (interval / size) <= interval < size * (interval / size + 1)
  {
    var q, r := interval / size, interval % size;
    assert interval == size * q + r;
    MulMonotone(q, 1, size);
  }

  lemma WeightBrackets(interval: nat, size: nat, weight: nat)
    requires 0 < size < interval
    requires weight <= interval / size < 2 * weight
    ensures weight * size <= interval < 2 * weight * size
  {
    var q := interval / size;
    RatioBounds(interval, size);
    MulMonotone(size, weight, q);
    MulMonotone(size, q + 1, 2 * weight);
  }

  /** The random word `should_sample` masks: two 32-bit draws when `weight` exceeds `2^32`. */
  function RandomWord(weight: nat, first: nat, second: nat): nat {
    if weight > 0x1_0000_0000 then Or(first * Pow2(32), second) else first
  }

  predicate ShouldSample(weight: nat, first: nat, second: nat) {
    weight <= 1 || And(RandomWord(weight, first, second), weight - 1) == 0
  }

  /** Number of random bits one decision consumes. */
  function RandomBits(weight: nat): nat {
    if weight > 0x1_0000_0000 then 64 else 32
  }

  /** The decision when the bits drawn spell the number `r`, high draw first. */
  predicate Passes(weight: nat, r: nat) {
    if weight > 0x1_0000_0000 then ShouldSample(weight, ShiftRight(r, 32), LowBits(r, 32))
    else ShouldSample(weight, r, 0)
  }

  /** A draw passes exactly when the weight divides its random word. */
  lemma PassesIffDivisible(weight: nat, k: nat, r: nat)
    requires weight == Pow2(k)
    ensures Passes(weight, r) <==> r % weight == 0
  {
    MaskIsModulo(r, k);
    PassesIffMasked(weight, r);
    if weight == 1 {
      DivUnique(r, 1, r, 0);
    }
  }

  lemma PassesIffMasked(weight: nat, r: nat)
    ensures Passes(weight, r) <==> weight <= 1 || And(r, weight - 1) == 0
  {
    if weight > 0x1_0000_0000 {
      var high, low := ShiftRight(r, 32), LowBits(r, 32);
      SplitWord(r, 32);
      OrDisjoint(high, low, 32);
      assert high * Pow2(32) == Pow2(32) * high;
    }
  }

  /** What two draws spell when one decision needs both, the first draw high. */
  function Drawn(weight: nat, first: u32, second: u32): nat {
    if weight > 0x1_0000_0000 then first * 0x1_0000_0000 + second else first
  }

  /** An allocation is sampled exactly when its weight divides the number drawn. */
  lemma SampledWhenDivisible(weight: nat, first: u32, second: u32)
    requires IsPowerOfTwo(weight)
    ensures ShouldSample(weight, first, second) <==> Drawn(weight, first, second) % weight == 0
  {
    var k: nat :| weight == Pow2(k);
    Pow2Values();
    var r := Drawn(weight, first, second);
    PassesIffDivisible(weight, k, r);
    if weight > 0x1_0000_0000 {
      SplitWord(r, 32);
      EuclidUnique(Pow2(32), first, second, ShiftRight(r, 32), LowBits(r, 32));
    }
  }

  function Multiples(n: nat, w: nat): set<nat>
    requires w > 0
  {
    set r: nat | r < n * w && r % w == 0
  }

  lemma {:induction false} CountMultiples(n: nat, w: nat)
    requires w > 0
    ensures |Multiples(n, w)| == n
  {
    if n == 0 {
      assert Multiples(0, w) == {};
    } else {
      CountMultiples(n - 1, w);
      forall r: nat
        ensures r in Multiples(n, w) <==> r in Multiples(n - 1, w) || r == (n - 1) * w
      {
        NextMultiple(n - 1, w, r);
      }
      assert Multiples(n, w) == Multiples(n - 1, w) + {(n - 1) * w};
    }
  }

  lemma NextMultiple(n: nat, w: nat, r: nat)
    requires w > 0
    ensures r < (n + 1) * w && r % w == 0 <==> (r < n * w && r % w == 0) || r == n * w
  {
    DivUnique(n * w, w, n, 0);
    var q := r / w;
    assert r == w * q + r % w;
    if r % w == 0 && n * w <= r < (n + 1) * w {
      if q < n {
        MulMonotone(w, q, n - 1);
      } else if q > n {
        MulMonotone(w, n + 1, q);
      }
    }
  }

  function PassingWords(weight: nat): set<nat> {
    set r: nat | r < Pow2(RandomBits(weight)) && Passes(weight, r)
  }

  /** Exactly one random word in `weight` passes, so an allocation counted `weight` times when
      sampled contributes one count per word on average: the weighted estimate has no bias. */
  lemma SamplingIsUnbiased(weight: nat)
    requires IsPowerOfTwo(weight) && weight <= U64_MAX
    ensures |PassingWords(weight)| * weight == Pow2(RandomBits(weight))
  {
    var k: nat :| weight == Pow2(k);
    var bits := RandomBits(weight);
    Pow2Values();
    if k > bits {
      Pow2Monotone(bits + 1, k);
    }
    Pow2Add(bits - k, k);
    var n := Pow2(bits - k);
    forall r: nat
      ensures Passes(weight, r) <==> r % weight == 0
    {
      PassesIffDivisible(weight, k, r);
    }
    assert PassingWords(weight) == Multiples(n, weight);
    CountMultiples(n, weight);
  }
}
