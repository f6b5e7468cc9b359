/** The 64-bit arithmetic of a machine, as bit-vectors, is the arithmetic of the model, so it can be computed with. */
module MachineWords {
  import opened Base
  import opened Bits
  import opened Blake2b
  import opened RoundLaws

  // ---------- Bit-vectors alone ----------

  function Low(b: bv64): bv64 {
    b & 1
  }

  function Rest(b: bv64): bv64 {
    b >> 1
  }

  function Glue(x: bv64, p: bv64): bv64 {
    2 * x + p
  }

  /** The wrapping sum of two words and a carry. */
  function Plus(b: bv64, c: bv64, k: bv64): bv64 {
    b + c + k
  }

  const LOW63: bv64 := 0x7fff_ffff_ffff_ffff

  lemma Glued(b: bv64)
    ensures b == Glue(Rest(b), Low(b)) && Bit(Low(b))
  {
  }

  function Flat(x: bv64, y: bv64, p: bv64, q: bv64, k: bv64): bv64 {
    (2 * x + p) + (2 * y + q) + k
  }

  lemma FlatCarries(x: bv64, y: bv64, p: bv64, q: bv64, k: bv64)
    ensures Flat(x, y, p, q, k) == 2 * (x + y + ((p + q + k) >> 1)) + ((p + q + k) & 1)
  {
  }

  lemma PlusIsFlat(x: bv64, y: bv64, p: bv64, q: bv64, k: bv64)
    ensures Plus(2 * x + p, 2 * y + q, k) == Flat(x, y, p, q, k)
  {
  }

  lemma GluedIsFlat(x: bv64, y: bv64, p: bv64, q: bv64, k: bv64)
    ensures Plus(Glue(x, p), Glue(y, q), k) == Flat(x, y, p, q, k)
  {
    PlusIsFlat(x, y, p, q, k);
    hide Plus, Flat;
  }

  lemma GluedCarries(x: bv64, y: bv64, p: bv64, q: bv64, k: bv64)
    ensures Glue(Plus(x, y, (p + q + k) >> 1), (p + q + k) & 1)
            == 2 * (x + y + ((p + q + k) >> 1)) + ((p + q + k) & 1)
  {
  }

  lemma CarryOf(p: bv64, q: bv64, k: bv64)
    ensures Rest(Plus(p, q, k)) == (p + q + k) >> 1 && Low(Plus(p, q, k)) == (p + q + k) & 1
  {
  }

  lemma PlusCarriesGlued(x: bv64, y: bv64, p: bv64, q: bv64, k: bv64)
    ensures Plus(Glue(x, p), Glue(y, q), k) == Glue(Plus(x, y, Rest(Plus(p, q, k))), Low(Plus(p, q, k)))
  {
    hide *;
    GluedIsFlat(x, y, p, q, k);
    FlatCarries(x, y, p, q, k);
    GluedCarries(x, y, p, q, k);
    CarryOf(p, q, k);
  }

  /** One step of a ripple-carry adder. */
  lemma PlusCarries(b: bv64, c: bv64, k: bv64)
    ensures var u := Plus(Low(b), Low(c), k);
            Plus(b, c, k) == Glue(Plus(Rest(b), Rest(c), Rest(u)), Low(u))
  {
    hide *;
    Glued(b);
    Glued(c);
    PlusCarriesGlued(Rest(b), Rest(c), Low(b), Low(c), k);
  }

  lemma Unglue(t: bv64, l: bv64)
    requires Bit(l)
    ensures Same(Rest(Glue(t, l)), t, LOW63) && Low(Glue(t, l)) == l
  {
  }

  predicate Bit(b: bv64) {
    b <= 1
  }

  lemma ThreeBits(p: bv64, q: bv64, k: bv64)
    requires Bit(p) && Bit(q) && Bit(k)
    ensures var u := Plus(p, q, k); Bit(Low(u)) && Bit(Rest(u)) && One(p) + One(q) + One(k) == One(Low(u)) + 2 * One(Rest(u))
  {
  }

  // ---------- The number of a word ----------

  function One(b: bv64): nat {
    if b == 1 then 1 else 0
  }

  /** The number in the n lowest bits. */
  function Value(b: bv64, n: nat): (v: nat)
    ensures v < Pow2(n)
  {
    if n == 0 then 0 else One(Low(b)) + 2 * Value(Rest(b), n - 1)
  }

  lemma ValueCons(b: bv64, n: nat)
    requires n > 0
    ensures Value(b, n) == One(Low(b)) + 2 * Value(Rest(b), n - 1) && Pow2(n) == 2 * Pow2(n - 1)
  {
  }

  lemma NoValue(b: bv64)
    ensures Value(b, 0) == 0 && Pow2(0) == 1
  {
  }

  function Number(b: bv64): u64 {
    Pow2Values();
    Value(b, 64)
  }

  predicate Ones(mask: bv64, n: nat) {
    n == 0 || (Low(mask) == 1 && Ones(Rest(mask), n - 1))
  }

  lemma {:induction false} OnesShorter(mask: bv64, n: nat, k: nat)
    requires k <= n && Ones(mask, n)
    ensures Ones(mask, k)
  {
    if k > 0 {
      OnesShorter(Rest(mask), n - 1, k - 1);
    }
  }

  lemma OnesByte(mask: bv64, n: nat)
    requires mask & 0xff == 0xff && Ones(mask >> 8, n)
    ensures Ones(mask, n + 8)
  {
    var a, b := mask >> 1, mask >> 2;
    assert Rest(mask) == mask >> 1 && Rest(mask >> 1) == mask >> 2 && Rest(mask >> 2) == mask >> 3
        && Rest(mask >> 3) == mask >> 4 && Rest(mask >> 4) == mask >> 5 && Rest(mask >> 5) == mask >> 6
        && Rest(mask >> 6) == mask >> 7 && Rest(mask >> 7) == mask >> 8;
    assert Low(mask) == 1 && Low(mask >> 1) == 1 && Low(mask >> 2) == 1 && Low(mask >> 3) == 1
        && Low(mask >> 4) == 1 && Low(mask >> 5) == 1 && Low(mask >> 6) == 1 && Low(mask >> 7) == 1;
    hide Low, Rest;
    assert Ones(mask >> 7, n + 1);
    assert Ones(mask >> 6, n + 2);
    assert Ones(mask >> 5, n + 3);
    assert Ones(mask >> 4, n + 4);
    assert Ones(mask >> 3, n + 5);
    assert Ones(mask >> 2, n + 6);
    assert Ones(mask >> 1, n + 7);
  }

  lemma SevenOnes()
    ensures Ones(0x7f, 7) && Ones(1, 1)
  {
    assert Rest(0x7f) == 0x3f && Rest(0x3f) == 0x1f && Rest(0x1f) == 0xf && Rest(0xf) == 7 && Rest(7) == 3 && Rest(3) == 1;
    assert Ones(1, 1);
    assert Ones(7, 3);
    assert Ones(0x1f, 5);
  }

  lemma LowOnes()
    ensures Ones(LOW63, 63)
    ensures Ones(0xffff_ffff, 32) && Ones(0xff_ffff, 24) && Ones(0xff_ffff_ffff, 40)
    ensures Ones(0xffff, 16) && Ones(0xffff_ffff_ffff, 48) && Ones(1, 1)
  {
    OnesByte(0xff, 0);
    OnesByte(0xffff, 8);
    OnesByte(0xff_ffff, 16);
    OnesByte(0xffff_ffff, 24);
    OnesByte(0xff_ffff_ffff, 32);
    OnesByte(0xffff_ffff_ffff, 40);
    SevenOnes();
    OnesByte(0x7fff, 7);
    OnesByte(0x7f_ffff, 15);
    OnesByte(0x7fff_ffff, 23);
    OnesByte(0x7f_ffff_ffff, 31);
    OnesByte(0x7fff_ffff_ffff, 39);
    OnesByte(0x7f_ffff_ffff_ffff, 47);
    OnesByte(0x7fff_ffff_ffff_ffff, 55);
  }

  predicate Same(x: bv64, y: bv64, mask: bv64) {
    x & mask == y & mask
  }

  /** Words that agree on their low bits have the same low value. */
  lemma {:induction false} Agree(x: bv64, y: bv64, mask: bv64, n: nat)
    requires Ones(mask, n) && Same(x, y, mask)
    ensures Value(x, n) == Value(y, n)
    decreases n
  {
    hide Low, Rest, Same, One;
    if n != 0 {
      AgreeRest(x, y, mask);
      Agree(Rest(x), Rest(y), Rest(mask), n - 1);
    }
  }

  lemma AgreeRest(x: bv64, y: bv64, mask: bv64)
    requires Same(x, y, mask) && Low(mask) == 1
    ensures Low(x) == Low(y) && Same(Rest(x), Rest(y), Rest(mask))
  {
  }

  // ---------- Exclusive-or ----------

  lemma XorCons(p: nat, x: nat, q: nat, y: nat)
    requires p < 2 && q < 2
    ensures Xor(p + 2 * x, q + 2 * y) == (if p == q then 0 else 1) + 2 * Xor(x, y)
  {
    XorHalves(p + 2 * x, q + 2 * y);
  }

  function Differ(b: bv64, c: bv64): bv64 {
    b ^ c
  }

  lemma DifferBits(b: bv64, c: bv64)
    ensures Rest(Differ(b, c)) == Differ(Rest(b), Rest(c))
    ensures One(Low(Differ(b, c))) == if One(Low(b)) == One(Low(c)) then 0 else 1
  {
  }

  lemma {:induction false} XorValue(b: bv64, c: bv64, n: nat)
    ensures Value(Differ(b, c), n) == Xor(Value(b, n), Value(c, n))
    decreases n
  {
    hide Rest, Low, Differ, One, Value, Pow2, Xor;
    XorZero(0);
    if n == 0 {
      NoValue(b);
      NoValue(c);
      NoValue(Differ(b, c));
    } else {
      ValueCons(b, n);
      ValueCons(c, n);
      ValueCons(Differ(b, c), n);
      DifferBits(b, c);
      XorValue(Rest(b), Rest(c), n - 1);
      OneIsBit(Low(b));
      OneIsBit(Low(c));
      XorCons(One(Low(b)), Value(Rest(b), n - 1), One(Low(c)), Value(Rest(c), n - 1));
    }
  }

  // ---------- Addition ----------

  lemma ModStep(bit: nat, t: nat, p: nat)
    requires bit < 2 && p > 0
    ensures (bit + 2 * t) % (2 * p) == bit + 2 * (t % p)
  {
    var q, r := t / p, t % p;
    assert t == p * q + r;
    assert bit + 2 * t == 2 * p * q + (bit + 2 * r);
    DigitsUnique(bit + 2 * t, 2 * p, q, bit + 2 * r);
  }

  lemma {:induction false} PlusValue(b: bv64, c: bv64, k: bv64, n: nat)
    requires n <= 64 && Bit(k)
    ensures Value(Plus(b, c, k), n) == (Value(b, n) + Value(c, n) + One(k)) % Pow2(n)
    decreases n
  {
    hide Plus, Glue, Low, Rest, One, Bit, Same, LOW63, Ones, Value, Pow2;
    OneIsBit(k);
    if n == 0 {
      NoValue(b);
      NoValue(c);
      NoValue(Plus(b, c, k));
    } else {
      ValueCons(b, n);
      ValueCons(c, n);
      ValueCons(Plus(b, c, k), n);
      var u := Plus(Low(b), Low(c), k);
      Glued(b);
      Glued(c);
      PlusCarries(b, c, k);
      ThreeBits(Low(b), Low(c), k);
      var t := Plus(Rest(b), Rest(c), Rest(u));
      Unglue(t, Low(u));
      LowOnes();
      OnesShorter(LOW63, 63, n - 1);
      Agree(Rest(Plus(b, c, k)), t, LOW63, n - 1);
      PlusValue(Rest(b), Rest(c), Rest(u), n - 1);
      OneIsBit(Low(u));
      Carry(One(Low(b)), One(Low(c)), One(k), One(Low(u)), One(Rest(u)), Value(Rest(b), n - 1), Value(Rest(c), n - 1),
            Pow2(n - 1));
    }
  }

  lemma Carry(p: nat, q: nat, k: nat, l: nat, r: nat, x: nat, y: nat, m: nat)
    requires p + q + k == l + 2 * r && l < 2 && m > 0
    ensures l + 2 * ((x + y + r) % m) == (p + 2 * x + (q + 2 * y) + k) % (2 * m)
  {
    ModStep(l, x + y + r, m);
  }

  lemma OneIsBit(b: bv64)
    ensures One(b) < 2
  {
  }

  // ---------- Rotation ----------

  function Shift(b: bv64, n: nat): bv64 {
    if n == 0 then b else Shift(Rest(b), n - 1)
  }

  lemma ShiftByte(b: bv64, n: nat)
    ensures Shift(b, n + 8) == Shift(b >> 8, n)
  {
    assert Rest(b) == b >> 1 && Rest(b >> 1) == b >> 2 && Rest(b >> 2) == b >> 3 && Rest(b >> 3) == b >> 4
        && Rest(b >> 4) == b >> 5 && Rest(b >> 5) == b >> 6 && Rest(b >> 6) == b >> 7 && Rest(b >> 7) == b >> 8;
    hide Rest;
    assert Shift(b, n + 8) == Shift(b >> 1, n + 7);
    assert Shift(b >> 1, n + 7) == Shift(b >> 2, n + 6);
    assert Shift(b >> 2, n + 6) == Shift(b >> 3, n + 5);
    assert Shift(b >> 3, n + 5) == Shift(b >> 4, n + 4);
    assert Shift(b >> 4, n + 4) == Shift(b >> 5, n + 3);
    assert Shift(b >> 5, n + 3) == Shift(b >> 6, n + 2);
    assert Shift(b >> 6, n + 2) == Shift(b >> 7, n + 1);
  }

  lemma ShiftSeven(b: bv64)
    ensures Shift(b, 7) == b >> 7 && Shift(b, 1) == b >> 1 && Shift(b, 0) == b
  {
    assert Rest(b) == b >> 1 && Rest(b >> 1) == b >> 2 && Rest(b >> 2) == b >> 3 && Rest(b >> 3) == b >> 4
        && Rest(b >> 4) == b >> 5 && Rest(b >> 5) == b >> 6 && Rest(b >> 6) == b >> 7;
    hide Rest;
    assert Shift(b, 7) == Shift(b >> 1, 6);
    assert Shift(b >> 1, 6) == Shift(b >> 2, 5);
    assert Shift(b >> 2, 5) == Shift(b >> 3, 4);
    assert Shift(b >> 3, 4) == Shift(b >> 4, 3);
    assert Shift(b >> 4, 3) == Shift(b >> 5, 2);
    assert Shift(b >> 5, 2) == Shift(b >> 6, 1);
    assert Shift(b >> 6, 1) == Shift(b >> 7, 0);
  }

  lemma ShiftTwoBytes(b: bv64, n: nat)
    ensures Shift(b, n + 16) == Shift(b >> 16, n)
  {
    hide Shift;
    ShiftByte(b, n + 8);
    ShiftByte(b >> 8, n);
    assert (b >> 8) >> 8 == b >> 16;
  }

  lemma ShiftFourBytes(b: bv64, n: nat)
    ensures Shift(b, n + 32) == Shift(b >> 32, n)
  {
    hide Shift;
    ShiftTwoBytes(b, n + 16);
    ShiftTwoBytes(b >> 16, n);
    assert (b >> 16) >> 16 == b >> 32;
  }

  lemma Shift24(b: bv64)
    ensures Shift(b, 24) == b >> 24 && Shift(b, 16) == b >> 16
  {
    hide Shift;
    ShiftTwoBytes(b, 0);
    ShiftSeven(b >> 16);
    ShiftTwoBytes(b, 8);
    ShiftByte(b >> 16, 0);
    ShiftSeven((b >> 16) >> 8);
    assert (b >> 16) >> 8 == b >> 24;
  }

  lemma Shift40(b: bv64)
    ensures Shift(b, 40) == b >> 40 && Shift(b, 32) == b >> 32
  {
    hide Shift;
    ShiftFourBytes(b, 0);
    ShiftSeven(b >> 32);
    ShiftFourBytes(b, 8);
    ShiftByte(b >> 32, 0);
    ShiftSeven((b >> 32) >> 8);
    assert (b >> 32) >> 8 == b >> 40;
  }

  lemma Shift48(b: bv64, n: nat)
    ensures Shift(b, n + 48) == Shift(b >> 48, n)
  {
    hide Shift;
    ShiftFourBytes(b, n + 16);
    ShiftTwoBytes(b >> 32, n);
    assert (b >> 32) >> 16 == b >> 48;
  }

  lemma Shift63(b: bv64)
    ensures Shift(b, 63) == b >> 63
  {
    hide Shift;
    Shift48(b, 15);
    ShiftByte(b >> 48, 7);
    assert (b >> 48) >> 8 == b >> 56;
    ShiftSeven(b >> 56);
    assert (b >> 56) >> 7 == b >> 63;
  }

  /** The distances the hash rotates by, and what is left of each. */
  lemma Shifts(b: bv64)
    ensures Shift(b, 32) == b >> 32 && Shift(b, 24) == b >> 24 && Shift(b, 40) == b >> 40
    ensures Shift(b, 16) == b >> 16 && Shift(b, 48) == b >> 48 && Shift(b, 63) == b >> 63 && Shift(b, 1) == b >> 1
  {
    hide Shift;
    ShiftSeven(b);
    ShiftSeven(b >> 48);
    Shift24(b);
    Shift40(b);
    Shift48(b, 0);
    Shift63(b);
  }

  lemma {:induction false} Split(b: bv64, n: nat, k: nat)
    ensures Value(b, n + k) == Value(b, n) + Pow2(n) * Value(Shift(b, n), k)
    decreases n
  {
    if n > 0 {
      hide Rest, Low, One;
      Split(Rest(b), n - 1, k);
      MulAssoc(2, Pow2(n - 1), Value(Shift(Rest(b), n - 1), k));
    }
  }

  /** A word made of the high part of another, and above it the low part, is that other rotated. */
  lemma Rotates(b: bv64, r: bv64, n: nat, high: bv64, low: bv64)
    requires 0 < n < 64 && Ones(high, 64 - n) && Ones(low, n)
    requires Same(r, Shift(b, n), high) && Same(Shift(r, 64 - n), b, low)
    ensures Number(r) == Rotr(Number(b), n)
  {
    hide Value, Shift, Ones, Same, Pow2;
    Split(b, n, 64 - n);
    Split(r, 64 - n, n);
    Agree(r, Shift(b, n), high, 64 - n);
    Agree(Shift(r, 64 - n), b, low, n);
    var l, h := Value(b, n), Value(Shift(b, n), 64 - n);
    assert Pow2(n) * h == h * Pow2(n) && Pow2(64 - n) * l == l * Pow2(64 - n);
    DigitsUnique(Number(b), Pow2(n), h, l);
  }

  function Turn32(b: bv64): bv64 {
    (b >> 32) | (b << 32)
  }

  function Turn24(b: bv64): bv64 {
    (b >> 24) | (b << 40)
  }

  function Turn16(b: bv64): bv64 {
    (b >> 16) | (b << 48)
  }

  function Turn63(b: bv64): bv64 {
    (b >> 63) | (b << 1)
  }

  lemma Turned32(b: bv64)
    ensures Same(Turn32(b), b >> 32, 0xffff_ffff) && Same(Turn32(b) >> 32, b, 0xffff_ffff)
  {
  }

  lemma Turned24(b: bv64)
    ensures Same(Turn24(b), b >> 24, 0xff_ffff_ffff) && Same(Turn24(b) >> 40, b, 0xff_ffff)
  {
  }

  lemma Turned16(b: bv64)
    ensures Same(Turn16(b), b >> 16, 0xffff_ffff_ffff) && Same(Turn16(b) >> 48, b, 0xffff)
  {
  }

  lemma Turned63(b: bv64)
    ensures Same(Turn63(b), b >> 63, 1) && Same(Turn63(b) >> 1, b, 0x7fff_ffff_ffff_ffff)
  {
  }

  lemma Turns(b: bv64)
    ensures Number(Turn32(b)) == Rotr(Number(b), 32) && Number(Turn24(b)) == Rotr(Number(b), 24)
    ensures Number(Turn16(b)) == Rotr(Number(b), 16) && Number(Turn63(b)) == Rotr(Number(b), 63)
  {
    hide Number, Shift, Ones, Same, Rotr, Turn32, Turn24, Turn16, Turn63;
    LowOnes();
    Shifts(b);
    Shifts(Turn32(b));
    Shifts(Turn24(b));
    Shifts(Turn16(b));
    Shifts(Turn63(b));
    Turned32(b);
    Turned24(b);
    Turned16(b);
    Turned63(b);
    Rotates(b, Turn32(b), 32, 0xffff_ffff, 0xffff_ffff);
    Rotates(b, Turn24(b), 24, 0xff_ffff_ffff, 0xff_ffff);
    Rotates(b, Turn16(b), 16, 0xffff_ffff_ffff, 0xffff);
    Rotates(b, Turn63(b), 63, 1, 0x7fff_ffff_ffff_ffff);
  }

  // ---------- Words written out ----------

  /** The number in the lowest byte. */
  function Octet(b: bv64): byte {
    (if b & 1 == 1 then 1 else 0) + (if b & 2 == 2 then 2 else 0) + (if b & 4 == 4 then 4 else 0)
    + (if b & 8 == 8 then 8 else 0) + (if b & 16 == 16 then 16 else 0) + (if b & 32 == 32 then 32 else 0)
    + (if b & 64 == 64 then 64 else 0) + (if b & 128 == 128 then 128 else 0)
  }

  lemma LowBits(b: bv64)
    ensures One(Low(b)) == (if b & 1 == 1 then 1 else 0) && One(Low(b >> 1)) == (if b & 2 == 2 then 1 else 0)
    ensures One(Low(b >> 2)) == (if b & 4 == 4 then 1 else 0) && One(Low(b >> 3)) == (if b & 8 == 8 then 1 else 0)
  {
  }

  lemma HighBits(b: bv64)
    ensures One(Low(b >> 4)) == (if b & 16 == 16 then 1 else 0) && One(Low(b >> 5)) == (if b & 32 == 32 then 1 else 0)
    ensures One(Low(b >> 6)) == (if b & 64 == 64 then 1 else 0)
    ensures One(Low(b >> 7)) == (if b & 128 == 128 then 1 else 0)
  {
  }

  lemma OctetBits(b: bv64)
    ensures Octet(b) == One(Low(b)) + 2 * One(Low(b >> 1)) + 4 * One(Low(b >> 2)) + 8 * One(Low(b >> 3))
                        + 16 * One(Low(b >> 4)) + 32 * One(Low(b >> 5)) + 64 * One(Low(b >> 6)) + 128 * One(Low(b >> 7))
  {
    LowBits(b);
    HighBits(b);
    hide One, Low;
  }

  lemma RestIs(b: bv64)
    ensures Rest(b) == b >> 1 && Rest(b >> 1) == b >> 2 && Rest(b >> 2) == b >> 3 && Rest(b >> 3) == b >> 4
    ensures Rest(b >> 4) == b >> 5 && Rest(b >> 5) == b >> 6 && Rest(b >> 6) == b >> 7 && Rest(b >> 7) == b >> 8
  {
  }

  lemma ByteValue(b: bv64, n: nat)
    ensures Value(b, n + 8) == Octet(b) + 256 * Value(b >> 8, n)
  {
    OctetBits(b);
    RestIs(b);
    hide Octet, Low, Rest, One, Value;
    ValueCons(b, n + 8);
    ValueCons(b >> 1, n + 7);
    ValueCons(b >> 2, n + 6);
    ValueCons(b >> 3, n + 5);
    ValueCons(b >> 4, n + 4);
    ValueCons(b >> 5, n + 3);
    ValueCons(b >> 6, n + 2);
    ValueCons(b >> 7, n + 1);
  }

  /** The n lowest bytes of a word, least significant first. */
  function Octets(b: bv64, n: nat): (p: Bytes)
    ensures |p| == n
  {
    if n == 0 then [] else [Octet(b)] + Octets(b >> 8, n - 1)
  }

  lemma {:induction false} OctetsNumber(b: bv64, n: nat)
    ensures Value(b, 8 * n) == Le(Octets(b, n))
    decreases n
  {
    hide Octet, Value;
    if n == 0 {
      NoValue(b);
    } else {
      OctetsNumber(b >> 8, n - 1);
      ByteValue(b, 8 * n - 8);
      assert Octets(b, n)[1..] == Octets(b >> 8, n - 1);
    }
  }

  lemma ByteShifts(b: bv64)
    ensures (b >> 8) >> 8 == b >> 16 && (b >> 16) >> 8 == b >> 24 && (b >> 24) >> 8 == b >> 32
    ensures (b >> 32) >> 8 == b >> 40 && (b >> 40) >> 8 == b >> 48 && (b >> 48) >> 8 == b >> 56
  {
  }

  lemma OctetsListed(b: bv64)
    ensures Octets(b, 8) == [Octet(b), Octet(b >> 8), Octet(b >> 16), Octet(b >> 24), Octet(b >> 32), Octet(b >> 40),
                             Octet(b >> 48), Octet(b >> 56)]
  {
    ByteShifts(b);
    hide Octet;
    assert Octets(b >> 56, 1) == [Octet(b >> 56)];
    assert Octets(b >> 48, 2) == [Octet(b >> 48)] + Octets(b >> 56, 1);
    assert Octets(b >> 40, 3) == [Octet(b >> 40)] + Octets(b >> 48, 2);
    assert Octets(b >> 32, 4) == [Octet(b >> 32)] + Octets(b >> 40, 3);
    assert Octets(b >> 24, 5) == [Octet(b >> 24)] + Octets(b >> 32, 4);
    assert Octets(b >> 16, 6) == [Octet(b >> 16)] + Octets(b >> 24, 5);
    assert Octets(b >> 8, 7) == [Octet(b >> 8)] + Octets(b >> 16, 6);
  }

  /** A word written in bytes is read back as the bytes and as their number. */
  lemma Written(b: bv64, p: Bytes)
    requires [Octet(b), Octet(b >> 8), Octet(b >> 16), Octet(b >> 24), Octet(b >> 32), Octet(b >> 40), Octet(b >> 48),
              Octet(b >> 56)] == p
    ensures Number(b) == Le(p) && LeBytes(Number(b), 8) == p
  {
    hide Octet, Octets, Value, Le, LeBytes;
    OctetsListed(b);
    OctetsNumber(b, 8);
    LeBytesOfLe(p);
  }

  lemma ListedNumber(p: Bytes)
    requires |p| == 8
    ensures Le(p) == p[0] as int + 256 * (p[1] as int + 256 * (p[2] as int + 256 * (p[3] as int + 256 * (p[4] as int
                     + 256 * (p[5] as int + 256 * (p[6] as int + 256 * p[7] as int))))))
  {
    assert p[1..][1..] == p[2..] && p[2..][1..] == p[3..] && p[3..][1..] == p[4..] && p[4..][1..] == p[5..]
        && p[5..][1..] == p[6..] && p[6..][1..] == p[7..] && p[7..][1..] == [];
    assert Le(p[7..]) == p[7] as int;
    assert Le(p[6..]) == p[6] as int + 256 * Le(p[7..]);
    assert Le(p[5..]) == p[5] as int + 256 * Le(p[6..]);
    assert Le(p[4..]) == p[4] as int + 256 * Le(p[5..]);
    assert Le(p[3..]) == p[3] as int + 256 * Le(p[4..]);
    assert Le(p[2..]) == p[2] as int + 256 * Le(p[3..]);
    assert Le(p[1..]) == p[1] as int + 256 * Le(p[2..]);
  }

  // ---------- Mixing ----------

  /** The mix of the hash in machine arithmetic. */
  function MixW(a: bv64, b: bv64, c: bv64, d: bv64, x: bv64, y: bv64): Quad<bv64> {
    var a := Plus(Plus(a, b, 0), x, 0);
    var d := Turn32(Differ(d, a));
    var c := Plus(c, d, 0);
    var b := Turn24(Differ(b, c));
    var a := Plus(Plus(a, b, 0), y, 0);
    var d := Turn16(Differ(d, a));
    var c := Plus(c, d, 0);
    var b := Turn63(Differ(b, c));
    Quad(a, b, c, d)
  }

  lemma Sum(b: bv64, c: bv64)
    ensures Number(Plus(b, c, 0)) == Add(Number(b), Number(c))
  {
    hide Value, Plus, Pow2;
    Pow2Values();
    PlusValue(b, c, 0, 64);
  }

  lemma Difference(b: bv64, c: bv64)
    ensures Number(Differ(b, c)) == Xor64(Number(b), Number(c))
  {
    XorValue(b, c, 64);
    hide Value, Differ, Xor;
  }

  lemma MixIsMix(a: bv64, b: bv64, c: bv64, d: bv64, x: bv64, y: bv64)
    ensures Projects(Number, MixW, Mix, a, b, c, d, x, y)
  {
    hide Number, Plus, Differ, Turn32, Turn24, Turn16, Turn63, Rotr, Xor64, Add;
    var ab := Plus(a, b, 0);
    Sum(a, b);
    Sum(ab, x);
    var a1 := Plus(ab, x, 0);
    Difference(d, a1);
    Turns(Differ(d, a1));
    var d1 := Turn32(Differ(d, a1));
    Sum(c, d1);
    var c1 := Plus(c, d1, 0);
    Difference(b, c1);
    Turns(Differ(b, c1));
    var b1 := Turn24(Differ(b, c1));
    Sum(a1, b1);
    Sum(Plus(a1, b1, 0), y);
    var a2 := Plus(Plus(a1, b1, 0), y, 0);
    Difference(d1, a2);
    Turns(Differ(d1, a2));
    var d2 := Turn16(Differ(d1, a2));
    Sum(c1, d2);
    var c2 := Plus(c1, d2, 0);
    Difference(b1, c2);
    Turns(Differ(b1, c2));
  }

  /** Any number of rounds in machine arithmetic are the rounds of the model. */
  lemma RoundsAgree(v: seq<bv64>, m: seq<bv64>, n: nat)
    requires |v| == 16 && |m| == 16
    ensures Map(Number, Rounds(MixW, v, m, n)) == Rounds(Mix, Map(Number, v), Map(Number, m), n)
  {
    hide MixW, Mix, Rounds, Map;
    forall a, b, c, d, x, y
      ensures Projects(Number, MixW, Mix, a, b, c, d, x, y)
    {
      MixIsMix(a, b, c, d, x, y);
    }
    MapRounds(Number, MixW, Mix, v, m, n);
  }
}
