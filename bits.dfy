/** Unsigned 32-bit arithmetic as cache_sim.c uses it: powers of two, an integer
    base-2 logarithm, the shift operators and bitwise AND, all on unbounded
    integers with the 32-bit width written out where it matters. */
module Bits {

  /** C's uint32_t. */
  type Word = x: int | 0 <= x < 0x1_0000_0000

  const WordModulus: nat := 0x1_0000_0000
  const AllOnes: Word := 0xFFFF_FFFF

  function Pow2(n: nat): (r: nat)
    ensures r >= 1
  {
    if n == 0 then 1 else 2 * Pow2(n - 1)
  }

  predicate IsPowerOfTwo(n: nat)
  {
    if n == 0 then false
    else if n == 1 then true
    else n % 2 == 0 && IsPowerOfTwo(n / 2)
  }

  /** The exact base-2 logarithm of a power of two; it stands for the
      truncated floating-point `(int)log2(n)`, which is exact there. */
  function Log2(n: nat): (k: nat)
    requires IsPowerOfTwo(n)
    ensures Pow2(k) == n
  {
    if n == 1 then 0 else 1 + Log2(n / 2)
  }

  /** `x >> n` on an unsigned word; C leaves shifts by 32 or more undefined. */
  function ShiftRight(x: Word, n: nat): (r: Word)
    requires n < 32
    ensures r <= x
  {
    var d := Pow2(n);
    DivIsSmaller(x, d);
    x / d
  }

  /** `x << n` on an unsigned word: the bits pushed past bit 31 are lost.
      The low `n` bits of the result are 0, nothing is lost when `x * 2^n`
      fits in a word, and shifting back right recovers exactly the low
      `32 - n` bits of `x`. */
  function ShiftLeft(x: Word, n: nat): (r: Word)
    requires n < 32
    ensures x * Pow2(n) < WordModulus ==> r == x * Pow2(n)
    ensures r % Pow2(n) == 0
    ensures ShiftRight(r, n) == x % Pow2(32 - n)
  {
    Pow2Add(n, 32 - n);
    Pow2Of32();
    ShiftLeftDrops(x, Pow2(n), Pow2(32 - n));
    (x * Pow2(n)) % WordModulus
  }

  /** Multiplying by `m` modulo `m * q` keeps `x` modulo `q`, scaled by `m`. */
  lemma ShiftLeftDrops(x: nat, m: nat, q: nat)
    requires m >= 1 && q >= 1
    ensures (x * m) % (m * q) == (x % q) * m
    ensures ((x % q) * m) % m == 0 && ((x % q) * m) / m == x % q
    ensures x * m < m * q ==> (x * m) % (m * q) == x * m
  {
    var a, b := x / q, x % q;
    DivModIdentity(x, q);
    MulDistributes(a * q, b, m);
    MulAssociates(a, q, m);
    assert q * m == m * q;
    MulMonotone(b, q - 1, m);
    MulDistributes(q - 1, 1, m);
    DivModUnique(x * m, m * q, a, b * m);
    DivModUnique(b * m, m, b, 0);
    if x * m < m * q {
      DivModUnique(x * m, m * q, 0, x * m);
    }
  }

  /** Bitwise AND of two naturals, bit by bit from the least significant. */
  function BitAnd(x: nat, y: nat): (r: nat)
    ensures r <= x && r <= y
  {
    if x == 0 || y == 0 then 0
    else 2 * BitAnd(x / 2, y / 2) + (if x % 2 == 1 && y % 2 == 1 then 1 else 0)
  }

  lemma DivIsSmaller(x: nat, d: nat)
    requires d >= 1
    ensures 0 <= x / d <= x
  {
    if x / d > x {
      MulGrows(x / d, d);
    }
  }

  lemma MulGrows(a: nat, d: nat)
    requires d >= 1
    ensures a * d >= a
  {
  }

  lemma {:induction false} Pow2Add(a: nat, b: nat)
    ensures Pow2(a + b) == Pow2(a) * Pow2(b)
  {
    if a > 0 {
      Pow2Add(a - 1, b);
      calc {
        Pow2(a + b);
        2 * Pow2(a - 1 + b);
        2 * (Pow2(a - 1) * Pow2(b));
        (2 * Pow2(a - 1)) * Pow2(b);
      }
    }
  }

  lemma {:induction false} Pow2Monotone(a: nat, b: nat)
    requires a <= b
    ensures Pow2(a) <= Pow2(b)
  {
    if a < b {
      Pow2Monotone(a, b - 1);
    }
  }

  lemma {:induction false} Log2OfPow2(k: nat)
    ensures IsPowerOfTwo(Pow2(k)) && Log2(Pow2(k)) == k
  {
    if k > 0 {
      Log2OfPow2(k - 1);
      assert Pow2(k) / 2 == Pow2(k - 1);
    }
  }

  /** Quotient and remainder are determined by the Euclidean equation. */
  lemma DivModUnique(x: int, d: int, q: int, r: int)
    requires d > 0 && 0 <= r < d && x == q * d + r
    ensures x / d == q && x % d == r
  {
    var q' := x / d;
    if q > q' {
      MulMonotone(q' + 1, q, d);
      assert false;
    } else if q < q' {
      MulMonotone(q + 1, q', d);
      assert false;
    }
  }

  lemma DivModIdentity(x: int, d: int)
    requires d > 0
    ensures (x / d) * d + x % d == x
  {
  }

  lemma MulMonotone(a: int, b: int, d: int)
    requires a <= b && d >= 0
    ensures a * d <= b * d
  {
  }

  lemma MulTwice(a: int, b: int)
    ensures a * (2 * b) == 2 * (a * b)
  {
  }

  lemma MulDistributes(a: int, b: int, d: int)
    ensures (a + b) * d == a * d + b * d
  {
  }

  lemma MulAssociates(a: int, b: int, d: int)
    ensures (a * b) * d == a * (b * d)
  {
  }

  lemma DivDiv(x: nat, a: nat, b: nat)
    requires a >= 1 && b >= 1
    ensures x / a / b == x / (a * b)
  {
    var q1, r1 := x / a, x % a;
    var q2, r2 := q1 / b, q1 % b;
    DivModIdentity(x, a);
    DivModIdentity(q1, b);
    MulDistributes(q2 * b, r2, a);
    MulAssociates(q2, b, a);
    assert b * a == a * b;
    assert x == q2 * (a * b) + (r2 * a + r1);
    MulMonotone(r2, b - 1, a);
    MulDistributes(b - 1, 1, a);
    DivModUnique(x, a * b, q2, r2 * a + r1);
  }

  lemma ModHalf(x: nat, m: nat)
    requires m >= 1
    ensures x % (2 * m) == 2 * ((x / 2) % m) + x % 2
  {
    var h := x / 2;
    assert x == (h / m) * (2 * m) + (2 * (h % m) + x % 2) by {
      calc {
        x;
        2 * h + x % 2;
        2 * ((h / m) * m + h % m) + x % 2;
        (h / m) * (2 * m) + (2 * (h % m) + x % 2);
      }
    }
    DivModUnique(x, 2 * m, h / m, 2 * (h % m) + x % 2);
  }

  /** A word shifted right by `m` fits in the remaining `n` bits. */
  lemma DivBound(x: nat, n: nat, m: nat)
    requires x < Pow2(n + m)
    ensures x / Pow2(m) < Pow2(n)
  {
    Pow2Add(n, m);
    var d := Pow2(m);
    if x / d >= Pow2(n) {
      MulMonotone(Pow2(n), x / d, d);
      assert false;
    }
  }

  lemma Pow2Of32()
    ensures Pow2(32) == WordModulus
  {
    assert Pow2(8) == 256;
    Pow2Add(8, 8);
    Pow2Add(16, 16);
  }

  /** `0xFFFFFFFF >> (32 - k)` keeps exactly the `k` low-order ones. */
  lemma AllOnesShift(k: nat)
    requires 1 <= k <= 32
    ensures ShiftRight(AllOnes, 32 - k) == Pow2(k) - 1
  {
    var p, d := Pow2(k), Pow2(32 - k);
    assert p * d == WordModulus by {
      Pow2Of32();
      Pow2Add(k, 32 - k);
    }
    AllOnesSplit(p, d);
  }

  /** `p * d - 1` divided by `d` is `p - 1`. */
  lemma AllOnesSplit(p: nat, d: nat)
    requires p >= 1 && d >= 1 && p * d == WordModulus
    ensures AllOnes / d == p - 1
  {
    MulDistributes(p, -1, d);
    DivModUnique(AllOnes, d, p - 1, d - 1);
  }

  /** One step of BitAnd against an odd mask: the low bit of `x` survives. */
  lemma BitAndOdd(x: nat, y: nat)
    requires x > 0 && y % 2 == 1
    ensures BitAnd(x, y) == 2 * BitAnd(x / 2, y / 2) + x % 2
  {
  }

  /** ANDing with `k` low-order ones keeps the value modulo `2^k`. */
  lemma {:induction false} BitAndLowOnes(x: nat, k: nat)
    ensures BitAnd(x, Pow2(k) - 1) == x % Pow2(k)
  {
    if k == 0 {
      assert Pow2(k) - 1 == 0;
    } else if x == 0 {
      assert x % Pow2(k) == 0;
    } else {
      var p := Pow2(k - 1);
      var y := Pow2(k) - 1;
      assert y == 2 * p - 1 && y / 2 == p - 1;
      assert BitAnd(x, y) == 2 * BitAnd(x / 2, p - 1) + x % 2 by {
        BitAndOdd(x, y);
      }
      assert BitAnd(x / 2, p - 1) == (x / 2) % p by {
        BitAndLowOnes(x / 2, k - 1);
      }
      assert 2 * ((x / 2) % p) + x % 2 == x % (2 * p) by {
        ModHalf(x, p);
      }
    }
  }

  /** ANDing with `k` ones shifted left by `s` keeps bits `s .. s+k-1` in place. */
  lemma {:induction false} BitAndMask(x: nat, k: nat, s: nat)
    ensures BitAnd(x, (Pow2(k) - 1) * Pow2(s)) == (x / Pow2(s) % Pow2(k)) * Pow2(s)
  {
    if s == 0 {
      BitAndLowOnes(x, k);
      assert (Pow2(k) - 1) * Pow2(s) == Pow2(k) - 1;
      assert x / Pow2(s) == x;
    } else if k == 0 {
      assert (Pow2(k) - 1) * Pow2(s) == 0;
      assert x / Pow2(s) % Pow2(k) == 0;
    } else if x == 0 {
      assert x / Pow2(s) == 0;
    } else {
      BitAndMask(x / 2, k, s - 1);
      BitAndMaskStep(x, k, s);
    }
  }

  /** The inductive step of BitAndMask: one more zero at the bottom of the
      mask shifts the kept bits one place further up. */
  lemma BitAndMaskStep(x: nat, k: nat, s: nat)
    requires x > 0 && k > 0 && s > 0
    requires BitAnd(x / 2, (Pow2(k) - 1) * Pow2(s - 1)) == (x / 2 / Pow2(s - 1) % Pow2(k)) * Pow2(s - 1)
    ensures BitAnd(x, (Pow2(k) - 1) * Pow2(s)) == (x / Pow2(s) % Pow2(k)) * Pow2(s)
  {
    var p, ones := Pow2(s - 1), Pow2(k) - 1;
    assert Pow2(s) == 2 * p;
    var half := ones * p;
    var m := ones * Pow2(s);
    assert m == 2 * half by {
      MulTwice(ones, p);
    }
    assert half >= 1 by {
      MulMonotone(1, ones, p);
    }
    assert BitAnd(x, m) == 2 * BitAnd(x / 2, half) by {
      BitAndEven(x, half);
    }
    var z := x / Pow2(s) % Pow2(k);
    assert x / 2 / p == x / Pow2(s) by {
      DivDiv(x, 2, p);
    }
    assert 2 * (z * p) == z * Pow2(s) by {
      MulTwice(z, p);
    }
  }

  /** One step of BitAnd against an even mask: the low bit is cleared. */
  lemma BitAndEven(x: nat, half: nat)
    requires x > 0 && half > 0
    ensures BitAnd(x, 2 * half) == 2 * BitAnd(x / 2, half)
  {
  }
}
