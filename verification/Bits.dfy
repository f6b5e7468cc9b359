/** 64-bit words as integers: addition modulo 2^64, bitwise operations and rotation. */
module Bits {
  import opened Base

  const TWO64: int := 0x1_0000_0000_0000_0000

  function Add(x: u64, y: u64): u64 {
    (x as int + y as int) % TWO64
  }

  function Pow2(n: nat): (p: nat)
    ensures p > 0
  {
    if n == 0 then 1 else 2 * Pow2(n - 1)
  }

  lemma {:induction false} Pow2Add(m: nat, n: nat)
    ensures Pow2(m + n) == Pow2(m) * Pow2(n)
  {
    if m != 0 {
      Pow2Add(m - 1, n);
      MulAssoc(2, Pow2(m - 1), Pow2(n));
    }
  }

  lemma {:induction false} Pow256IsPow2(n: nat)
    ensures Pow256(n) == Pow2(8 * n)
  {
    if n != 0 {
      Pow256IsPow2(n - 1);
      Pow2Add(8, 8 * (n - 1));
      Pow2Eight();
    }
  }

  lemma Pow2Eight()
    ensures Pow2(8) == 256
  {
    assert Pow2(4) == 16;
    Pow2Add(4, 4);
  }

  lemma Pow2Values()
    ensures Pow2(1) == 2 && Pow2(16) == 0x1_0000 && Pow2(24) == 0x100_0000 && Pow2(32) == 0x1_0000_0000
    ensures Pow2(40) == 0x100_0000_0000 && Pow2(48) == 0x1_0000_0000_0000
    ensures Pow2(63) == 0x8000_0000_0000_0000 && Pow2(64) == TWO64
  {
    Pow2Eight();
    Pow2Add(8, 8);
    Pow2Add(16, 8);
    Pow2Add(16, 16);
    Pow2Add(32, 8);
    Pow2Add(32, 16);
    Pow2Add(32, 32);
    assert Pow2(64) == 2 * Pow2(63);
  }

  // ---------- Bitwise operations ----------

  function Xor(x: nat, y: nat): nat {
    if x == 0 && y == 0 then 0
    else (if x % 2 == y % 2 then 0 else 1) + 2 * Xor(x / 2, y / 2)
  }

  function Or(x: nat, y: nat): nat {
    if x == 0 && y == 0 then 0
    else (if x % 2 == 0 && y % 2 == 0 then 0 else 1) + 2 * Or(x / 2, y / 2)
  }

  lemma {:induction false} XorBound(x: nat, y: nat, n: nat)
    requires x < Pow2(n) && y < Pow2(n)
    ensures Xor(x, y) < Pow2(n)
    decreases n
  {
    if n > 0 {
      XorBound(x / 2, y / 2, n - 1);
    }
  }

  lemma {:induction false} XorComm(x: nat, y: nat)
    ensures Xor(x, y) == Xor(y, x)
  {
    if x != 0 || y != 0 {
      XorComm(x / 2, y / 2);
    }
  }

  lemma {:induction false} XorZero(x: nat)
    ensures Xor(x, 0) == x
  {
    if x != 0 {
      XorZero(x / 2);
    }
  }

  lemma {:induction false} XorAssoc(x: nat, y: nat, z: nat)
    ensures Xor(Xor(x, y), z) == Xor(x, Xor(y, z))
    decreases x + y + z
  {
    if x != 0 || y != 0 || z != 0 {
      XorAssoc(x / 2, y / 2, z / 2);
      XorHalves(x, y);
      XorHalves(y, z);
      XorHalves(Xor(x, y), z);
      XorHalves(x, Xor(y, z));
      var a, b, c := x % 2, y % 2, z % 2;
      assert (if (if a == b then 0 else 1) == c then 0 else 1) == (if a == (if b == c then 0 else 1) then 0 else 1);
      var l, r := Xor(Xor(x, y), z), Xor(x, Xor(y, z));
      assert l / 2 == r / 2 && l % 2 == r % 2;
    }
  }

  lemma XorHalves(x: nat, y: nat)
    ensures Xor(x, y) / 2 == Xor(x / 2, y / 2)
    ensures Xor(x, y) % 2 == if x % 2 == y % 2 then 0 else 1
  {
    if x == 0 && y == 0 {
    } else {
      assert Xor(x, y) == (if x % 2 == y % 2 then 0 else 1) + 2 * Xor(x / 2, y / 2);
    }
  }

  /** Complementing n bits is exclusive-or with n ones. */
  lemma {:induction false} XorOnes(x: nat, n: nat)
    requires x < Pow2(n)
    ensures Xor(x, Pow2(n) - 1) == Pow2(n) - 1 - x
    decreases n
  {
    if n > 0 {
      XorOnes(x / 2, n - 1);
      var ones := Pow2(n) - 1;
      assert ones % 2 == 1 && ones / 2 == Pow2(n - 1) - 1;
    }
  }

  /** Bits above position k and bits below it do not meet. */
  lemma {:induction false} OrDisjoint(hi: nat, lo: nat, k: nat)
    requires lo < Pow2(k)
    ensures Or(hi * Pow2(k), lo) == hi * Pow2(k) + lo && Or(lo, hi * Pow2(k)) == hi * Pow2(k) + lo
    decreases k
  {
    if k == 0 {
      OrZero(hi);
    } else {
      var x := hi * Pow2(k);
      MulAssoc(2, hi, Pow2(k - 1));
      assert x == 2 * (hi * Pow2(k - 1));
      OrDisjoint(hi, lo / 2, k - 1);
    }
  }

  lemma {:induction false} OrZero(x: nat)
    ensures Or(x, 0) == x && Or(0, x) == x
  {
    if x != 0 {
      OrZero(x / 2);
    }
  }

  function Xor64(x: u64, y: u64): (r: u64)
    ensures r == Xor(x, y)
  {
    Pow2Values();
    XorBound(x, y, 64);
    Xor(x, y)
  }

  function Not64(x: u64): (r: u64)
    ensures r == Xor(x, TWO64 - 1)
  {
    Pow2Values();
    XorOnes(x, 64);
    TWO64 - 1 - x
  }

  // ---------- Rotation ----------

  /** Rotation right by n bits. */
  function Rotr(x: u64, n: nat): u64
    requires 0 < n < 64
  {
    RotrFits(x, n);
    x / Pow2(n) + (x % Pow2(n)) * Pow2(64 - n)
  }

  lemma RotrFits(x: u64, n: nat)
    requires 0 < n < 64
    ensures 0 <= x / Pow2(n) < Pow2(64 - n)
    ensures 0 <= x / Pow2(n) + (x % Pow2(n)) * Pow2(64 - n) < TWO64
  {
    hide Pow2;
    var p, q := Pow2(n), Pow2(64 - n);
    assert p * q == TWO64 by {
      Pow2Add(n, 64 - n);
      Pow2Values();
    }
    SwapDigits(x, p, q);
  }

  /** Exchanging the two digits of a number below p * q keeps it below p * q. */
  lemma SwapDigits(x: nat, p: nat, q: nat)
    requires p > 0 && x < p * q
    ensures x == (x / p) * p + x % p
    ensures x / p < q && 0 <= x / p + (x % p) * q < p * q
  {
    var hi, lo := x / p, x % p;
    LessFromProduct(hi, q, p);
    LeadingDigitDecides(lo, p, q, hi, 0);
  }

  lemma LessFromProduct(k: int, q: int, p: int)
    requires p > 0 && k * p < q * p
    ensures k < q
  {
    assert (k - q) * p == k * p - q * p;
  }

  /** The rotations the hash uses, as numbers. */
  lemma RotrValues(x: u64)
    ensures Rotr(x, 32) == x / 0x1_0000_0000 + (x % 0x1_0000_0000) * 0x1_0000_0000
    ensures Rotr(x, 24) == x / 0x100_0000 + (x % 0x100_0000) * 0x100_0000_0000
    ensures Rotr(x, 16) == x / 0x1_0000 + (x % 0x1_0000) * 0x1_0000_0000_0000
    ensures Rotr(x, 63) == x / 0x8000_0000_0000_0000 + (x % 0x8000_0000_0000_0000) * 2
  {
    hide Pow2;
    Pow2Values();
  }

  /** A word rotated by whole bytes is its bytes rotated. */
  lemma RotrBytes(x: u64, k: nat)
    requires 0 < k < 8
    ensures Rotr(x, 8 * k) == Le(LeBytes(x, 8)[k..] + LeBytes(x, 8)[..k])
  {
    hide Pow2, Le, LeBytes;
    var b := LeBytes(x, 8);
    var lo, hi := b[..k], b[k..];
    assert Le(b) == x by {
      Pow256Values();
      LeOfLeBytes(x, 8);
    }
    assert b == lo + hi;
    LeSplit(lo, hi);
    LeSplit(hi, lo);
    Pow256IsPow2(k);
    Pow256IsPow2(8 - k);
    var p, q := Pow2(8 * k), Pow2(64 - 8 * k);
    assert Le(lo) < p;
    assert p * Le(hi) == Le(hi) * p;
    DigitsUnique(x, p, Le(hi), Le(lo));
    assert q * Le(lo) == Le(lo) * q;
  }

  lemma {:induction false} LeSplit(a: Bytes, b: Bytes)
    ensures Le(a + b) == Le(a) + Pow256(|a|) * Le(b)
  {
    if a == [] {
      assert a + b == b;
    } else {
      assert (a + b)[1..] == a[1..] + b;
      LeSplit(a[1..], b);
      MulAssoc(256, Pow256(|a| - 1), Le(b));
    }
  }

  lemma DigitsUnique(x: nat, p: nat, hi: nat, lo: nat)
    requires lo < p && x == hi * p + lo
    ensures x / p == hi && x % p == lo
  {
    SameDigits(x / p, x % p, hi, lo, p) by {
      assert x == (x / p) * p + x % p;
    }
  }

  lemma SameDigits(q: nat, r: nat, hi: nat, lo: nat, p: nat)
    requires r < p && lo < p && q * p + r == hi * p + lo
    ensures q == hi && r == lo
  {
    if q < hi {
      LeadingDigitDecides(q, hi, p, r, lo);
    } else if hi < q {
      LeadingDigitDecides(hi, q, p, lo, r);
    }
  }

  // ---------- How the devices rotate ----------

  function Shr(x: u64, n: nat): nat
  {
    QuotientIsNat(x, Pow2(n));
    x / Pow2(n)
  }

  lemma QuotientIsNat(x: nat, p: nat)
    requires p > 0
    ensures x / p >= 0
  {
  }

  function Shl(x: u64, n: nat): nat
  {
    (x * Pow2(n)) % TWO64
  }

  /** Two shifts joined by a bitwise or. */
  lemma ShiftsRotate(x: u64, n: nat)
    requires 0 < n < 64
    ensures Or(Shr(x, n), Shl(x, 64 - n)) == Rotr(x, n)
    ensures Or(Shl(x, 64 - n), Shr(x, n)) == Rotr(x, n)
  {
    hide Pow2;
    var p, q := Pow2(n), Pow2(64 - n);
    var a, b := x / p, x % p;
    assert p * q == TWO64 by {
      Pow2Add(n, 64 - n);
      Pow2Values();
    }
    SwapDigits(x, p, q);
    ShiftedOut(x, p, q, a, b);
    OrDisjoint(b, a, 64 - n);
  }

  lemma ShiftedOut(x: nat, p: nat, q: nat, a: nat, b: nat)
    requires p > 0 && q > 0 && x == a * p + b && b < p
    ensures 0 <= b * q < p * q && (x * q) % (p * q) == b * q
  {
    LeadingDigitDecides(b, p, q, 0, 0);
    calc {
      x * q;
      a * p * q + b * q;
      { MulAssoc(a, p, q); }
      a * (p * q) + b * q;
    }
    DigitsUnique(x * q, p * q, a, b * q);
  }

  /** The low half of hi:lo shifted right by n modulo 32, as a funnel shifter computes it. */
  function Funnel(lo: u32, hi: u32, n: nat): u32
  {
    ((hi as int * 0x1_0000_0000 + lo as int) / Pow2(n % 32)) % 0x1_0000_0000
  }

  /** Rotation on 32-bit halves; the same instruction sequence on both GPU families. */
  function HalvesRotate(x: u64, n: nat): u64
    requires 0 < n < 64
  {
    var lo: u32, hi: u32 := x % 0x1_0000_0000, x / 0x1_0000_0000;
    var a: u32, b: u32 :=
      if n == 32 then hi else if n < 32 then Funnel(lo, hi, n) else Funnel(hi, lo, n - 32),
      if n == 32 then lo else if n < 32 then Funnel(hi, lo, n) else Funnel(lo, hi, n - 32);
    b as int * 0x1_0000_0000 + a as int
  }

  /** A funnel shift joins the low digit of one half to the high digit of the other. */
  lemma FunnelValue(lo: nat, hi: nat, p: nat, q: nat)
    requires p > 0 && p * q == 0x1_0000_0000 && lo < 0x1_0000_0000 && hi < 0x1_0000_0000
    ensures (hi * 0x1_0000_0000 + lo) / p == hi * q + lo / p
    ensures (hi * 0x1_0000_0000 + lo) % p == lo % p
    ensures hi * q == (hi / p) * 0x1_0000_0000 + (hi % p) * q
    ensures ((hi * 0x1_0000_0000 + lo) / p) % 0x1_0000_0000 == (hi % p) * q + lo / p
  {
    SwapDigits(hi, p, q);
    SwapDigits(lo, p, q);
    FunnelDigits(hi / p, hi % p, lo / p, lo % p, p, q);
  }

  lemma FunnelDigits(a: nat, b: nat, c: nat, d: nat, p: nat, q: nat)
    requires p > 0 && b < p && c < q && d < p
    ensures var hi, lo := a * p + b, c * p + d;
            && (hi * (p * q) + lo) / p == hi * q + c
            && (hi * (p * q) + lo) % p == d
            && hi * q == a * (p * q) + b * q
            && (hi * q + c) % (p * q) == b * q + c
  {
    var hi := a * p + b;
    UpperDigits(hi, c, d, p, q);
    calc {
      hi * q;
      { MulAdd(a * p, b, q); }
      (a * p) * q + b * q;
      { MulAssoc(a, p, q); }
      a * (p * q) + b * q;
    }
    LeadingDigitDecides(b, p, q, c, 0);
    DigitsUnique(hi * q + c, p * q, a, b * q + c);
  }

  lemma UpperDigits(hi: nat, c: nat, d: nat, p: nat, q: nat)
    requires d < p
    ensures (hi * (p * q) + (c * p + d)) / p == hi * q + c
    ensures (hi * (p * q) + (c * p + d)) % p == d
  {
    calc {
      hi * (p * q);
      { assert p * q == q * p; MulAssoc(hi, q, p); }
      (hi * q) * p;
    }
    MulAdd(hi * q, c, p);
    DigitsUnique(hi * (p * q) + (c * p + d), p, hi * q + c, d);
  }

  lemma MulAdd(x: int, y: int, z: int)
    ensures (x + y) * z == x * z + y * z
  {
  }

  lemma HalvesSum(x: u64, n: nat, p: nat, q: nat)
    requires 0 < n < 32 && Pow2(n) == p && p > 0 && p * q == 0x1_0000_0000
    ensures HalvesRotate(x, n) == x / p + (x % p) * (q * 0x1_0000_0000)
  {
    hide Pow2;
    var lo: u32, hi: u32 := x % 0x1_0000_0000, x / 0x1_0000_0000;
    FunnelValue(lo, hi, p, q);
    FunnelValue(hi, lo, p, q);
    HalvesJoin(lo % p, q, hi / p, (hi % p) * q, lo / p);
    assert Funnel(lo, hi, n) == (hi % p) * q + lo / p && Funnel(hi, lo, n) == (lo % p) * q + hi / p;
    hide Funnel;
    assert x == hi * 0x1_0000_0000 + lo;
  }

  lemma HalvesJoin(r: nat, q: nat, d: nat, u: nat, v: nat)
    ensures (r * q + d) * 0x1_0000_0000 + (u + v) == d * 0x1_0000_0000 + u + v + r * (q * 0x1_0000_0000)
  {
    MulAssoc(r, q, 0x1_0000_0000);
  }

  lemma HalvesRotateIsRotr(x: u64)
    ensures HalvesRotate(x, 32) == Rotr(x, 32) && HalvesRotate(x, 24) == Rotr(x, 24)
    ensures HalvesRotate(x, 16) == Rotr(x, 16) && HalvesRotate(x, 63) == Rotr(x, 63)
  {
    assert HalvesRotate(x, 32) == Rotr(x, 32) by {
      hide Pow2;
      RotrValues(x);
      Pow2Values();
    }
    Pow2Values();
    hide Pow2, HalvesRotate;
    HalvesSum(x, 24, 0x100_0000, 0x100);
    HalvesSum(x, 16, 0x1_0000, 0x1_0000);
    HalvesRotate63(x);
  }

  lemma HalvesRotate63(x: u64)
    ensures HalvesRotate(x, 63) == Rotr(x, 63)
  {
    hide Pow2;
    RotrValues(x);
    Pow2Value31();
    var lo, hi := x % 0x1_0000_0000, x / 0x1_0000_0000;
    DigitsUnique(x, 0x8000_0000_0000_0000, hi / 0x8000_0000, (hi % 0x8000_0000) * 0x1_0000_0000 + lo);
    FunnelValue(lo, hi, 0x8000_0000, 2);
    FunnelValue(hi, lo, 0x8000_0000, 2);
  }

  lemma Pow2Value31()
    ensures Pow2(31) == 0x8000_0000
  {
    Pow2Values();
    assert Pow2(32) == 2 * Pow2(31);
  }

  /** Byte i of the result is byte order[i] of x. */
  function ShuffleBytes(x: u64, order: seq<nat>): u64
    requires |order| == 8 && forall i :: 0 <= i < 8 ==> order[i] < 8
  {
    Pow256Values();
    Le(seq(8, i requires 0 <= i < 8 => LeBytes(x, 8)[order[i]]))
  }

  const SHUFFLE24: seq<nat> := [3, 4, 5, 6, 7, 0, 1, 2]
  const SHUFFLE16: seq<nat> := [2, 3, 4, 5, 6, 7, 0, 1]

  lemma ShufflesRotate(x: u64)
    ensures ShuffleBytes(x, SHUFFLE24) == Rotr(x, 24)
    ensures ShuffleBytes(x, SHUFFLE16) == Rotr(x, 16)
  {
    hide Le, LeBytes;
    var b := LeBytes(x, 8);
    RotrBytes(x, 3);
    RotrBytes(x, 2);
    assert b[3..] + b[..3] == seq(8, i requires 0 <= i < 8 => b[SHUFFLE24[i]]);
    assert b[2..] + b[..2] == seq(8, i requires 0 <= i < 8 => b[SHUFFLE16[i]]);
  }
}
