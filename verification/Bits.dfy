/** Bitwise operations on unsigned words, as functions on naturals. */
module Bits {
  function Pow2(k: nat): (p: nat)
    ensures p >= 1
  {
    if k == 0 then 1 else 2 * Pow2(k - 1)
  }

  ghost predicate IsPowerOfTwo(n: nat) {
    exists k: nat {:trigger Pow2(k)} :: n == Pow2(k)
  }

  /** `is_power_of_two`. */
  predicate PowerOfTwo(n: nat) {
    n == 1 || (n > 1 && n % 2 == 0 && PowerOfTwo(n / 2))
  }

  lemma {:induction false} PowerOfTwoMeans(n: nat)
    ensures PowerOfTwo(n) <==> IsPowerOfTwo(n)
  {
    if n <= 1 {
      assert Pow2(0) == 1;
    } else {
      PowerOfTwoMeans(n / 2);
      if k: nat :| n / 2 == Pow2(k) {
        assert Pow2(k + 1) == 2 * Pow2(k);
      }
      if k: nat :| n == Pow2(k) {
        assert n / 2 == Pow2(k - 1);
      }
    }
  }

  predicate Bit(x: nat, i: nat) {
    if i == 0 then x % 2 == 1 else Bit(x / 2, i - 1)
  }

  function ShiftRight(x: nat, k: nat): nat {
    if k == 0 then x else ShiftRight(x / 2, k - 1)
  }

  function And(x: nat, y: nat): nat {
    if x == 0 || y == 0 then 0
    else 2 * And(x / 2, y / 2) + (if x % 2 == 1 && y % 2 == 1 then 1 else 0)
  }

  function Or(x: nat, y: nat): nat
    decreases x + y
  {
    if x == 0 && y == 0 then 0
    else 2 * Or(x / 2, y / 2) + (if x % 2 == 1 || y % 2 == 1 then 1 else 0)
  }

  /** The `k` lowest bits of `x`. */
  function LowBits(x: nat, k: nat): nat {
    if k == 0 then 0 else 2 * LowBits(x / 2, k - 1) + x % 2
  }

  lemma {:induction false} Pow2Add(j: nat, k: nat)
    ensures Pow2(j + k) == Pow2(j) * Pow2(k)
  {
    if j > 0 {
      Pow2Add(j - 1, k);
    }
  }

  lemma {:induction false} Pow2Monotone(j: nat, k: nat)
    requires j <= k
    ensures Pow2(j) <= Pow2(k)
  {
    if j < k {
      Pow2Monotone(j, k - 1);
    }
  }

  lemma Pow2Values()
    ensures Pow2(16) == 0x1_0000
    ensures Pow2(32) == 0x1_0000_0000
    ensures Pow2(64) == 0x1_0000_0000_0000_0000
  {
    assert Pow2(8) == 256;
    Pow2Add(8, 8);
    Pow2Add(16, 16);
    Pow2Add(32, 32);
  }

  lemma MulMonotone(d: nat, a: nat, b: nat)
    requires a <= b
    ensures d * a <= d * b
  {
  }

  lemma EuclidUnique(d: nat, q: nat, r: nat, q': nat, r': nat)
    requires r < d && r' < d && d * q + r == d * q' + r'
    ensures q == q' && r == r'
  {
    if q < q' {
      MulMonotone(d, q + 1, q');
    } else if q' < q {
      MulMonotone(d, q' + 1, q);
    }
  }

  lemma DivUnique(x: nat, d: nat, q: nat, r: nat)
    requires d > 0 && r < d && x == d * q + r
    ensures x / d == q && x % d == r
  {
    EuclidUnique(d, q, r, x / d, x % d);
  }

  /** Moving at most one turn ahead on a circle of `d` wraps at most once. */
  lemma WrapAround(x: nat, i: nat, d: nat)
    requires 0 < d && i <= d
    ensures (x + i) % d == if x % d + i < d then x % d + i else x % d + i - d
  {
    var q, r := x / d, x % d;
    assert x == q * d + r;
    if r + i < d {
      DivUnique(x + i, d, q, r + i);
    } else {
      assert (q + 1) * d == q * d + d;
      DivUnique(x + i, d, q + 1, r + i - d);
    }
  }

  /** Bit `i` of `x >> k` is bit `i + k` of `x`. */
  lemma {:induction false} ShiftRightBit(x: nat, k: nat, i: nat)
    ensures Bit(ShiftRight(x, k), i) <==> Bit(x, i + k)
    decreases k
  {
    if k > 0 {
      ShiftRightBit(x / 2, k - 1, i);
    }
  }

  lemma {:induction false} ZeroBit(i: nat)
    ensures !Bit(0, i)
  {
    if i > 0 {
      ZeroBit(i - 1);
    }
  }

  lemma {:induction false} OrBit(x: nat, y: nat, i: nat)
    ensures Bit(Or(x, y), i) <==> Bit(x, i) || Bit(y, i)
    decreases i
  {
    if x == 0 && y == 0 {
      ZeroBit(i);
    } else if i > 0 {
      OrBit(x / 2, y / 2, i - 1);
    }
  }

  /** Splitting a word at bit `k`. */
  lemma {:induction false} SplitWord(x: nat, k: nat)
    ensures x == Pow2(k) * ShiftRight(x, k) + LowBits(x, k)
    ensures LowBits(x, k) < Pow2(k)
    decreases k
  {
    if k > 0 {
      SplitWord(x / 2, k - 1);
      Regroup(ShiftRight(x, k), Pow2(k - 1));
    }
  }

  lemma Regroup(a: nat, p: nat)
    ensures a * (2 * p) == 2 * (a * p)
    ensures (2 * p) * a == 2 * (p * a)
  {
  }

  /** Masking with `2^k - 1` keeps the low `k` bits. */
  lemma {:induction false} MaskLowBits(x: nat, k: nat)
    ensures And(x, Pow2(k) - 1) == LowBits(x, k)
    decreases k
  {
    if k > 0 {
      MaskLowBits(x / 2, k - 1);
      if x == 0 {
        assert LowBits(0, k) == 2 * LowBits(0, k - 1);
      } else {
        assert (2 * Pow2(k - 1) - 1) / 2 == Pow2(k - 1) - 1;
      }
    }
  }

  /** Masking with `2^k - 1` is the remainder modulo `2^k`. */
  lemma MaskIsModulo(x: nat, k: nat)
    ensures And(x, Pow2(k) - 1) == x % Pow2(k)
  {
    var d, q, r := Pow2(k), ShiftRight(x, k), LowBits(x, k);
    assert And(x, d - 1) == r by {
      MaskLowBits(x, k);
    }
    assert x % d == r by {
      SplitWord(x, k);
      DivUnique(x, d, q, r);
    }
  }

  /** `x` occupies exactly `n` bits. */
  predicate Width(x: nat, n: nat) {
    n > 0 && Pow2(n - 1) <= x < Pow2(n)
  }

  lemma {:induction false} WidthExists(x: nat, n: nat) returns (w: nat)
    requires 0 < x < Pow2(n)
    ensures w <= n && Width(x, w)
  {
    if Pow2(n - 1) <= x {
      w := n;
    } else {
      w := WidthExists(x, n - 1);
    }
  }

  lemma {:induction false} WidthBits(x: nat, n: nat)
    requires Width(x, n)
    ensures Bit(x, n - 1)
    ensures forall i: nat :: i >= n ==> !Bit(x, i)
    decreases n
  {
    if n == 1 {
      forall i: nat | i >= 1 ensures !Bit(x, i) {
        ZeroBit(i - 1);
      }
    } else {
      WidthBits(x / 2, n - 1);
    }
  }

  /** A word with exactly the bits `0..n` set is `2^n - 1`. */
  lemma {:induction false} AllOnes(x: nat, n: nat)
    requires forall i: nat :: Bit(x, i) <==> i < n
    ensures x == Pow2(n) - 1
    decreases x
  {
    if x > 0 {
      assert n > 0 by {
        if n == 0 {
          var w := WidthExists(x, BitBound(x));
          WidthBits(x, w);
        }
      }
      assert Bit(x, 0);
      forall i: nat
        ensures Bit(x / 2, i) <==> i < n - 1
      {
        assert Bit(x, i + 1) <==> i + 1 < n;
      }
      AllOnes(x / 2, n - 1);
    } else {
      if n > 0 {
        assert Bit(x, n - 1);
        ZeroBit(n - 1);
      }
    }
  }

  function BitBound(x: nat): (n: nat)
    ensures x < Pow2(n)
  {
    if x == 0 then 0 else 1 + BitBound(x / 2)
  }

  /** Filling the empty low half of a word adds the filling. */
  lemma {:induction false} OrDisjoint(high: nat, low: nat, n: nat)
    requires low < Pow2(n)
    ensures Or(high * Pow2(n), low) == high * Pow2(n) + low
    decreases n
  {
    if n == 0 {
      OrZero(high);
    } else {
      Regroup(high, Pow2(n - 1));
      OrDisjoint(high, low / 2, n - 1);
    }
  }

  lemma {:induction false} OrZero(x: nat)
    ensures Or(x, 0) == x
  {
    if x > 0 {
      OrZero(x / 2);
    }
  }
}
