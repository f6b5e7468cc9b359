/** Share and network targets as exact 256-bit numbers. */
module Targets {
  import opened Base

  const LIMIT := Pow256(32)

  function BeBytes(v: nat, n: nat): (b: Bytes)
    ensures |b| == n
  {
    Reverse(LeBytes(v, n))
  }

  lemma BeOfBeBytes(v: nat, n: nat)
    requires v < Pow256(n)
    ensures Be(BeBytes(v, n)) == v
  {
    LeOfLeBytes(v, n);
    BeOfReverse(LeBytes(v, n));
  }

  // ---------- Compact targets ----------

  function Mantissa(nbits: Bytes): nat
    requires |nbits| == 4
  {
    0x1_0000 * (nbits[1] as int) + 0x100 * (nbits[2] as int) + nbits[3] as int
  }

  /** The number four compact bytes denote, by size: mantissa digits shifted left or dropped. */
  function CompactValue(nbits: Bytes): nat
    requires |nbits| == 4
  {
    if nbits[0] >= 3 then Mantissa(nbits) * Pow256(nbits[0] - 3)
    else Mantissa(nbits) / Pow256(3 - nbits[0])
  }

  lemma CancelLeft(m: nat, p: nat, q: nat)
    requires p > 0 && q > 0
    ensures (m * p) / (q * p) == m / q
  {
    var d := m / q;
    MulMono(p, q * d, m);
    MulMono(p, m + 1, q * (d + 1));
    MulAssoc(p, q, d);
    MulAssoc(p, q, d + 1);
    FloorIs(m * p, q * p, d);
  }

  lemma MulMono(d: nat, a: int, b: int)
    requires a <= b
    ensures d * a <= d * b
  {
    assert d * (b - a) >= 0;
  }

  lemma FloorIs(n: nat, d: nat, q: nat)
    requires d * q <= n < d * (q + 1)
    ensures d > 0 && n / d == q
  {
    var e := n / d;
    if q < e {
      MulMono(d, q + 1, e);
    } else if e < q {
      MulMono(d, e + 1, q);
    }
  }

  /** In one formula: the value is floor(mantissa * 256^exponent / 2^24). */
  lemma CompactIsFloor(nbits: Bytes)
    requires |nbits| == 4
    ensures CompactValue(nbits) == Mantissa(nbits) * Pow256(nbits[0]) / 0x100_0000
  {
    var m, e := Mantissa(nbits), nbits[0] as int;
    assert Pow256(0) == 1;
    Pow256Add(1, 2);
    Pow256Values();
    hide Pow256;
    if e >= 3 {
      Pow256Add(e - 3, 3);
      MulAssoc(m, Pow256(e - 3), Pow256(3));
      CancelLeft(m * Pow256(e - 3), Pow256(3), 1);
    } else {
      Pow256Add(3 - e, e);
      CancelLeft(m, Pow256(e), Pow256(3 - e));
    }
  }

  predicate CompactOk(nbits: Bytes) {
    |nbits| == 4 && nbits[1] < 0x80 && 0 < CompactValue(nbits) < LIMIT
  }

  /** The target of a compact encoding: exactly its value, when that is positive and fits. */
  function CompactTarget(nbits: Bytes): Result<Hash> {
    if CompactOk(nbits) then Success(BeBytes(CompactValue(nbits), 32)) else Failure
  }

  lemma {:induction false} BeOfZeros(n: nat)
    ensures Be(Zeros(n)) == 0
  {
    if n != 0 {
      assert Zeros(n)[..n - 1] == Zeros(n - 1);
      BeOfZeros(n - 1);
    }
  }

  lemma {:induction false} OnesValue(n: nat)
    ensures Be(seq(n, i => 255 as byte)) == Pow256(n) - 1
  {
    if n != 0 {
      var f: Bytes := seq(n, i => 255 as byte);
      assert f[..n - 1] == seq(n - 1, i => 255 as byte);
      OnesValue(n - 1);
    }
  }

  lemma BePlaced(left: nat, b: Bytes, right: nat)
    ensures Be(Zeros(left) + b + Zeros(right)) == Be(b) * Pow256(right)
  {
    hide Be, Pow256;
    BeOfZeros(left);
    BeOfZeros(right);
    BeSplit(Zeros(left), b);
    BeSplit(Zeros(left) + b, Zeros(right));
  }

  lemma BeOfThree(x: byte, y: byte, z: byte)
    ensures Be([z]) == z
    ensures Be([y, z]) == 0x100 * (y as int) + z as int
    ensures Be([x, y, z]) == 0x1_0000 * (x as int) + 0x100 * (y as int) + z as int
  {
    var one, two, three := [x], [x, y], [x, y, z];
    assert three[..2] == two && two[..1] == one && one[..0] == [];
    assert Be(one) == x && Be(two) == 0x100 * (x as int) + y as int;
    assert [y, z][..1] == [y] && [y][..0] == [] && [z][..0] == [];
  }

  lemma Overflows(m: nat, e: nat)
    requires m > 0 && e >= 35
    ensures m * Pow256(e - 3) >= LIMIT
  {
    hide Pow256;
    Pow256Add(32, e - 35);
    var p, q := Pow256(32), Pow256(e - 35);
    assert p * q >= p;
    assert m * (p * q) >= p * q;
  }

  lemma Shifted(m: nat)
    ensures m / Pow256(3) == m / 0x100_0000 && m / Pow256(2) == m / 0x1_0000 && m / Pow256(1) == m / 0x100
    ensures Pow256(0) == 1
  {
    Pow256Values();
    assert Pow256(3) == 256 * Pow256(2);
  }

  predicate AllZero(b: Bytes) {
    forall i :: 0 <= i < |b| ==> b[i] == 0
  }

  lemma ZeroDigits(b: Bytes)
    ensures AllZero(b) <==> Be(b) == 0
  {
    BeOfZeros(|b|);
    if AllZero(b) {
      assert b == Zeros(|b|);
    }
    if Be(b) == 0 {
      BeInjective(b, Zeros(|b|));
    }
  }

  lemma BeBytesOfBe(b: Bytes)
    ensures BeBytes(Be(b), |b|) == b
  {
    BeOfBeBytes(Be(b), |b|);
    BeInjective(BeBytes(Be(b), |b|), b);
  }

  lemma CompactBytes(nbits: Bytes, out: Bytes)
    requires |nbits| == 4 && |out| == 32 && Be(out) == CompactValue(nbits)
    ensures CompactValue(nbits) < LIMIT
    ensures AllZero(out) <==> CompactValue(nbits) == 0
    ensures BeBytes(CompactValue(nbits), 32) == out
  {
    ZeroDigits(out);
    BeBytesOfBe(out);
  }

  lemma LeftDigit(nbits: Bytes, i: nat)
    requires |nbits| == 4 && 33 <= nbits[0] <= 34 && i < nbits[0] - 32
    requires nbits[1 + i] != 0
    ensures Mantissa(nbits) >= if nbits[0] == 33 then 0x1_0000 else 0x100
  {
  }

  lemma Exceeds(m: nat, c: nat, p: nat, q: nat)
    requires m >= c && c * p == q
    ensures m * p >= q
  {
    MulMono(p, c, m);
  }

  lemma DigitOverflows(nbits: Bytes, i: nat)
    requires |nbits| == 4 && 33 <= nbits[0] <= 34 && i < nbits[0] - 32
    requires nbits[1 + i] != 0
    ensures CompactValue(nbits) >= LIMIT
  {
    LeftDigit(nbits, i);
    var m := Mantissa(nbits);
    hide Mantissa;
    Pow256Values();
    hide Pow256;
    if nbits[0] == 33 {
      Pow256Add(2, 30);
      Exceeds(m, 0x1_0000, Pow256(30), LIMIT);
    } else {
      Pow256Add(1, 31);
      Exceeds(m, 0x100, Pow256(31), LIMIT);
    }
  }

  /** Mantissa byte k, or zero outside the mantissa. */
  function Digit(nbits: Bytes, k: int): byte
    requires |nbits| == 4
  {
    if k == 0 then nbits[1] else if k == 1 then nbits[2] else if k == 2 then nbits[3] else 0
  }

  predicate OffLeft(nbits: Bytes, k: int)
    requires |nbits| == 4
  {
    32 - nbits[0] as int + k < 0 ==> Digit(nbits, k) == 0
  }

  /** What the placement loop leaves: mantissa byte k at position 32 - exponent + k. */
  predicate PlacedAt(nbits: Bytes, out: Bytes, n: nat) {
    && |nbits| == 4 && |out| == 32
    && (forall p :: 0 <= p < 32 ==>
          out[p] == if p - 32 + nbits[0] as int < n then Digit(nbits, p - 32 + nbits[0] as int) else 0)
    && (forall k :: 0 <= k < n ==> OffLeft(nbits, k))
  }

  lemma Placed(nbits: Bytes, out: Bytes)
    requires PlacedAt(nbits, out, 3) && 4 <= nbits[0] <= 34
    ensures Be(out) == CompactValue(nbits)
  {
    hide Be, Pow256;
    var e: int := nbits[0];
    BeOfThree(nbits[1], nbits[2], nbits[3]);
    if e <= 32 {
      assert out == Zeros(32 - e) + [nbits[1], nbits[2], nbits[3]] + Zeros(e - 3);
      BePlaced(32 - e, [nbits[1], nbits[2], nbits[3]], e - 3);
    } else if e == 33 {
      assert OffLeft(nbits, 0);
      assert out == Zeros(0) + [nbits[2], nbits[3]] + Zeros(30);
      BePlaced(0, [nbits[2], nbits[3]], 30);
    } else {
      assert OffLeft(nbits, 0) && OffLeft(nbits, 1);
      assert out == Zeros(0) + [nbits[3]] + Zeros(31);
      BePlaced(0, [nbits[3]], 31);
    }
  }

  /** The code's byte placement computes the compact value. */
  method CompactTargetOf(nbits: Bytes) returns (r: Result<Hash>)
    ensures r == CompactTarget(nbits)
  {
    if |nbits| != 4 {
      return Failure;
    }
    var exponent, mantissa := nbits[0], Mantissa(nbits);
    if mantissa >= 0x80_0000 || mantissa == 0 || exponent > 34 {
      if mantissa != 0 && exponent > 34 {
        Overflows(mantissa, exponent);
      }
      ZeroMantissa(nbits);
      return Failure;
    }
    var out: Bytes;
    if exponent <= 3 {
      out := LowBytes(nbits);
    } else {
      var ok;
      ok, out := PlaceBytes(nbits);
      if !ok {
        return Failure;
      }
    }
    CompactBytes(nbits, out);
    if AllZero(out) {
      return Failure;
    }
    return Success(out);
  }

  lemma ZeroMantissa(nbits: Bytes)
    requires |nbits| == 4
    ensures Mantissa(nbits) == 0 ==> CompactValue(nbits) == 0
    ensures Mantissa(nbits) >= 0x80_0000 <==> nbits[1] >= 0x80
  {
    if Mantissa(nbits) == 0 && nbits[0] < 3 {
      Shifted(0);
    }
  }

  /** The last four bytes, least significant written first. */
  method LastFour(mantissa: nat) returns (low: Bytes)
    ensures low == LeBytes(mantissa, 4)
  {
    var rest := mantissa;
    low := [];
    for i := 0 to 4
      invariant |low| == i && LeBytes(mantissa, 4) == low + LeBytes(rest, 4 - i)
    {
      low := low + [rest % 256];
      rest := rest / 256;
    }
  }

  /** Small exponents: the shifted mantissa in the last bytes. */
  method LowBytes(nbits: Bytes) returns (out: Bytes)
    requires |nbits| == 4 && nbits[0] <= 3
    ensures |out| == 32 && Be(out) == CompactValue(nbits)
  {
    var mantissa := Mantissa(nbits);
    Shifted(mantissa);
    mantissa := if nbits[0] == 0 then mantissa / 0x100_0000 else if nbits[0] == 1 then mantissa / 0x1_0000
                else if nbits[0] == 2 then mantissa / 0x100 else mantissa;
    assert mantissa == CompactValue(nbits);
    assert mantissa < Pow256(4) by {
      Pow256Values();
    }
    var low := LastFour(mantissa);
    out := Zeros(28) + Reverse(low) + Zeros(0);
    BePlaced(28, Reverse(low), 0);
    BeOfReverse(low);
    LeOfLeBytes(mantissa, 4);
    assert Pow256(0) == 1;
  }

  /** Larger exponents: the three mantissa bytes at their place; bytes beyond the left end must be zero. */
  method PlaceBytes(nbits: Bytes) returns (ok: bool, out: Bytes)
    requires |nbits| == 4 && 4 <= nbits[0] <= 34
    ensures ok ==> |out| == 32 && Be(out) == CompactValue(nbits)
    ensures !ok ==> CompactValue(nbits) >= LIMIT
  {
    var exponent := nbits[0] as int;
    out := Zeros(32);
    for i := 0 to 3
      invariant PlacedAt(nbits, out, i)
    {
      var position := 32 - exponent + i;
      var digit := Digit(nbits, i);
      if position < 0 {
        if digit != 0 {
          DigitOverflows(nbits, i);
          return false, out;
        }
      } else if position < 32 {
        out := out[position := digit];
      }
    }
    Placed(nbits, out);
    return true, out;
  }
}
