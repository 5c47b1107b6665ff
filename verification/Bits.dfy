/**
 32-bit operators of the host language on natural numbers, defined bit by bit,
 and what masking and shifting come to arithmetically.
 */
module Bits {

  function Pow2(k: nat): (p: nat)
    ensures p > 0
  {
    if k == 0 then 1 else 2 * Pow2(k - 1)
  }

  function And(a: nat, b: nat): nat {
    if a == 0 || b == 0 then 0 else 2 * And(a / 2, b / 2) + (a % 2) * (b % 2)
  }

  function Or(a: nat, b: nat): nat {
    if a == 0 then b else if b == 0 then a
    else 2 * Or(a / 2, b / 2) + (if a % 2 == 1 || b % 2 == 1 then 1 else 0)
  }

  /** A left shift cut to 32 bits and read as unsigned; only the low five bits of `k` count. */
  function ShiftLeft32(x: nat, k: nat): nat {
    x * Pow2(k % 32) % 0x1_0000_0000
  }

  lemma {:induction false} PowAdd(a: nat, b: nat)
    ensures Pow2(a + b) == Pow2(a) * Pow2(b)
  {
    if a > 0 {
      PowAdd(a - 1, b);
      assert Pow2(a + b) == 2 * Pow2(a - 1 + b);
    }
  }

  lemma PowSquares()
    ensures Pow2(1) == 2 && Pow2(2) == 4 && Pow2(4) == 16 && Pow2(8) == 256 && Pow2(16) == 65536
  {
    PowAdd(1, 1);
    PowAdd(2, 2);
    PowAdd(4, 4);
    PowAdd(8, 8);
  }

  lemma PowValues()
    ensures Pow2(4) == 16 && Pow2(8) == 256 && Pow2(12) == 4096 && Pow2(16) == 65536
    ensures Pow2(17) == 131072 && Pow2(20) == 1048576 && Pow2(22) == 4194304 && Pow2(24) == 16777216
    ensures Pow2(28) == 268435456 && Pow2(32) == 0x1_0000_0000
  {
    PowSquares();
    PowAdd(4, 8);
    PowAdd(1, 16);
    PowAdd(4, 16);
    PowAdd(2, 20);
    PowAdd(8, 16);
    PowAdd(4, 24);
    PowAdd(16, 16);
  }

  lemma {:induction false} HalvedQuotient(x: nat, d: nat)
    requires d > 0
    ensures x / 2 / d == x / (2 * d)
  {
    var q := x / (2 * d);
    var r := x % (2 * d);
    assert x == 2 * d * q + r;
    assert x / 2 == d * q + r / 2 by {
      assert x == 2 * (d * q) + r;
    }
    assert r / 2 < d;
    QuotientIs(x / 2, d, q, r / 2);
  }

  lemma {:induction false} QuotientIs(x: nat, d: nat, q: nat, r: nat)
    requires r < d && x == d * q + r
    ensures x / d == q && x % d == r
  {
    assert d * (x / d) + x % d == x;
    assert d * (x / d - q) == d * (x / d) - d * q;
    MultipleGrows(d, x / d - q);
  }

  lemma MultipleGrows(d: int, m: int)
    requires d >= 0
    ensures m >= 1 ==> d * m >= d
    ensures m <= -1 ==> d * m <= -d
  {
    assert d * (m - 1) == d * m - d && d * (m + 1) == d * m + d;
    if m >= 1 {
      assert d * (m - 1) >= 0;
    } else if m <= -1 {
      assert d * (-m - 1) >= 0;
      assert d * (m + 1) == -(d * (-m - 1));
    }
  }

  lemma CancelFactor(p: nat, q: nat, r: nat)
    requires p > 0 && q * p == r * p
    ensures q == r
  {
    assert p * (q - r) == q * p - r * p;
    MultipleGrows(p, q - r);
  }

  /** An even mask drops the lowest bit and takes half the mask. */
  lemma {:induction false} AndEven(x: nat, half: nat)
    ensures And(x, 2 * half) == 2 * And(x / 2, half)
  {
    assert 2 * half / 2 == half;
  }

  /** Masking with the high bits k..n clears everything below bit k. */
  lemma {:induction false} AndHighMask(x: nat, n: nat, k: nat)
    requires k <= n && x < Pow2(n)
    ensures Pow2(k) <= Pow2(n)
    ensures And(x, Pow2(n) - Pow2(k)) == x / Pow2(k) * Pow2(k)
    decreases n
  {
    if k == 0 {
      AndLowMask(x, n);
      QuotientIs(x, Pow2(n), 0, x);
      assert x / 1 * 1 == x;
    } else {
      AndHighMask(x / 2, n - 1, k - 1);
      AndEven(x, Pow2(n - 1) - Pow2(k - 1));
      DoubledMultiple(x, Pow2(k - 1));
    }
  }

  lemma {:induction false} DoubledMultiple(x: nat, d: nat)
    requires d > 0
    ensures 2 * (x / 2 / d * d) == x / (2 * d) * (2 * d)
  {
    HalvedQuotient(x, d);
    assert 2 * (x / (2 * d) * d) == x / (2 * d) * (2 * d);
  }

  lemma {:induction false} PowGrows(a: nat, b: nat)
    requires a <= b
    ensures Pow2(a) <= Pow2(b)
    ensures a < b ==> Pow2(a) < Pow2(b)
    decreases b
  {
    if a < b {
      PowGrows(a, b - 1);
    }
  }

  /** Masking with the low k bits is the remainder modulo 2^k. */
  lemma {:induction false} AndLowMask(x: nat, k: nat)
    ensures And(x, Pow2(k) - 1) == x % Pow2(k)
    decreases k
  {
    if k > 0 {
      AndLowMask(x / 2, k - 1);
      LowMaskStep(x, Pow2(k - 1));
    } else {
      QuotientIs(x, 1, x, 0);
    }
  }

  lemma {:induction false} LowMaskStep(x: nat, d: nat)
    requires d > 0 && And(x / 2, d - 1) == x / 2 % d
    ensures And(x, 2 * d - 1) == x % (2 * d)
  {
    AndOdd(x, d - 1);
    RemainderStep(x, d);
  }

  /** An odd mask keeps the lowest bit. */
  lemma {:induction false} AndOdd(x: nat, half: nat)
    ensures And(x, 2 * half + 1) == 2 * And(x / 2, half) + x % 2
  {
    assert (2 * half + 1) / 2 == half && (2 * half + 1) % 2 == 1;
  }

  lemma {:induction false} RemainderStep(x: nat, d: nat)
    requires d > 0
    ensures x % (2 * d) == 2 * (x / 2 % d) + x % 2
  {
    var q, r := x / 2 / d, x / 2 % d;
    assert x / 2 == d * q + r;
    assert 2 * (d * q) == (2 * d) * q;
    QuotientIs(x, 2 * d, q, 2 * r + x % 2);
  }

  /** Or-ing into zeroed low bits is addition. */
  lemma {:induction false} OrDisjoint(a: nat, k: nat, b: nat)
    requires b < Pow2(k)
    ensures Or(a * Pow2(k), b) == a * Pow2(k) + b
    decreases k
  {
    if k > 0 && a > 0 && b > 0 {
      var d := Pow2(k - 1);
      assert a * Pow2(k) == 2 * (a * d);
      assert a * d > 0;
      OrDisjoint(a, k - 1, b / 2);
    } else if k == 0 {
      assert b == 0;
    } else if a == 0 {
      assert a * Pow2(k) == 0;
    }
  }

  /** The prefix mask `0xffffffff << k`. */
  lemma PrefixMask(k: nat)
    requires k < 32
    ensures Pow2(k) <= 0x1_0000_0000 && ShiftLeft32(0xffff_ffff, k) == 0x1_0000_0000 - Pow2(k)
  {
    PowBound32(k);
    ShiftIs(0xffff_ffff, k, Pow2(k));
    ShiftedOnes(Pow2(k));
  }

  lemma ShiftIs(x: nat, k: nat, p: nat)
    requires k < 32 && p == Pow2(k)
    ensures ShiftLeft32(x, k) == x * p % 0x1_0000_0000
  {
    assert k % 32 == k;
  }

  lemma PowBound32(k: nat)
    requires k < 32
    ensures Pow2(k) < 0x1_0000_0000
  {
    PowValues();
    PowGrows(k, 32);
  }

  lemma ShiftedOnes(p: nat)
    requires 0 < p < 0x1_0000_0000
    ensures 0xffff_ffff * p % 0x1_0000_0000 == 0x1_0000_0000 - p
  {
    QuotientIs(0xffff_ffff * p, 0x1_0000_0000, p - 1, 0x1_0000_0000 - p);
  }

  lemma EqualProducts(p: nat, q: nat, r: nat)
    requires p > 0
    ensures q * p == r * p <==> q == r
  {
    if q * p == r * p {
      CancelFactor(p, q, r);
    }
  }

  /** Equal under the high mask means equal quotients: same prefix. */
  lemma SameUnderMask(x: nat, y: nat, n: nat, k: nat)
    requires k <= n && x < Pow2(n) && y < Pow2(n)
    ensures Pow2(k) <= Pow2(n)
    ensures And(x, Pow2(n) - Pow2(k)) == And(y, Pow2(n) - Pow2(k)) <==> x / Pow2(k) == y / Pow2(k)
  {
    AndHighMask(x, n, k);
    AndHighMask(y, n, k);
    EqualProducts(Pow2(k), x / Pow2(k), y / Pow2(k));
  }

  lemma Pow2Of8()
    ensures Pow2(8) == 256
  {
    PowAdd(4, 4);
  }

  lemma ByteMask(x: nat)
    ensures And(x, 0xff) == x % 256
  {
    Pow2Of8();
    AndLowMask(x, 8);
  }

  /** Shifting by a byte, when nothing is cut off, multiplies by 256. */
  lemma ShiftByte(acc: nat)
    requires acc < 0x100_0000
    ensures ShiftLeft32(acc, 8) == acc * 256
  {
    Pow2Of8();
    assert acc * 256 < 0x1_0000_0000;
  }

  lemma OrByte(a: nat, b: nat)
    requires b < 256
    ensures Or(a * 256, b) == a * 256 + b
  {
    Pow2Of8();
    OrDisjoint(a, 8, b);
  }
}
