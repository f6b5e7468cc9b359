/** Fixed-width integers, byte strings and the two byte orders the miner uses. */
module Base {

  type byte = x: int | 0 <= x < 0x100
  type u16 = x: int | 0 <= x < 0x1_0000
  type u32 = x: int | 0 <= x < 0x1_0000_0000
  type u64 = x: int | 0 <= x < 0x1_0000_0000_0000_0000

  type Bytes = seq<byte>
  type Hash = h: Bytes | |h| == 32 witness seq(32, i => 0)
  type Header = h: Bytes | |h| == 80 witness seq(80, i => 0)

  datatype Option<+T> = None | Some(value: T)

  /** Every exception of the modelled code ends the connection, so one failure value is enough. */
  datatype Result<+T> = Failure | Success(value: T) {
    predicate IsFailure() {
      Failure?
    }

    function PropagateFailure<U>(): Result<U>
      requires Failure?
    {
      Failure
    }

    function Extract(): T
      requires Success?
    {
      value
    }
  }

  function Zeros(n: nat): (z: Bytes)
    ensures |z| == n && forall i :: 0 <= i < n ==> z[i] == 0
  {
    seq(n, i => 0)
  }

  function Pow256(n: nat): (p: nat)
    ensures p > 0
  {
    if n == 0 then 1 else 256 * Pow256(n - 1)
  }

  lemma {:induction false} Pow256Add(m: nat, n: nat)
    ensures Pow256(m + n) == Pow256(m) * Pow256(n)
  {
    if m != 0 {
      Pow256Add(m - 1, n);
      assert 256 * (Pow256(m - 1) * Pow256(n)) == (256 * Pow256(m - 1)) * Pow256(n);
    }
  }

  lemma Pow256Values()
    ensures Pow256(1) == 0x100 && Pow256(2) == 0x1_0000 && Pow256(4) == 0x1_0000_0000
    ensures Pow256(8) == 0x1_0000_0000_0000_0000
  {
    assert Pow256(1) == 256 * Pow256(0);
    assert Pow256(2) == 256 * Pow256(1);
    assert Pow256(3) == 256 * Pow256(2);
    assert Pow256(4) == 256 * Pow256(3);
    Pow256Add(4, 4);
  }

  /** The number a little-endian byte string denotes. */
  function Le(b: Bytes): (v: nat)
    ensures v < Pow256(|b|)
  {
    if b == [] then 0 else b[0] + 256 * Le(b[1..])
  }

  /** The low n bytes of v, least significant first. */
  function LeBytes(v: nat, n: nat): (b: Bytes)
    ensures |b| == n
  {
    if n == 0 then [] else [v % 256] + LeBytes(v / 256, n - 1)
  }

  lemma {:induction false} LeOfLeBytes(v: nat, n: nat)
    requires v < Pow256(n)
    ensures Le(LeBytes(v, n)) == v
  {
    if n != 0 {
      LeOfLeBytes(v / 256, n - 1);
      assert LeBytes(v, n)[1..] == LeBytes(v / 256, n - 1);
    }
  }

  lemma {:induction false} LeBytesOfLe(b: Bytes)
    ensures LeBytes(Le(b), |b|) == b
  {
    if b != [] {
      LeBytesOfLe(b[1..]);
      assert Le(b) % 256 == b[0] && Le(b) / 256 == Le(b[1..]);
    }
  }

  /** The number a big-endian byte string denotes. */
  function Be(b: Bytes): (v: nat)
    ensures v < Pow256(|b|)
  {
    if b == [] then 0 else Be(b[..|b| - 1]) * 256 + b[|b| - 1]
  }

  function Reverse(b: Bytes): (r: Bytes)
    ensures |r| == |b|
    ensures forall i :: 0 <= i < |b| ==> r[i] == b[|b| - 1 - i]
  {
    seq(|b|, i requires 0 <= i < |b| => b[|b| - 1 - i])
  }

  lemma ReverseTwice(b: Bytes)
    ensures Reverse(Reverse(b)) == b
  {
  }

  lemma {:induction false} BeOfReverse(b: Bytes)
    ensures Be(Reverse(b)) == Le(b)
  {
    if b != [] {
      assert Reverse(b)[..|b| - 1] == Reverse(b[1..]);
      BeOfReverse(b[1..]);
    }
  }

  lemma MulAssoc(x: int, y: int, z: int)
    ensures (x * y) * z == x * (y * z)
  {
  }

  lemma {:induction false} BeSplit(a: Bytes, b: Bytes)
    ensures Be(a + b) == Be(a) * Pow256(|b|) + Be(b)
  {
    if b == [] {
      assert a + b == a;
    } else {
      var b' := b[..|b| - 1];
      var x, p := Be(a), Pow256(|b'|);
      assert (a + b)[..|a + b| - 1] == a + b';
      BeSplit(a, b');
      calc {
        Be(a + b);
        Be(a + b') * 256 + b[|b| - 1];
        (x * p + Be(b')) * 256 + b[|b| - 1];
        (x * p) * 256 + Be(b);
        { MulAssoc(x, p, 256); }
        x * (p * 256) + Be(b);
      }
    }
  }

  lemma BeInjective(a: Bytes, b: Bytes)
    requires |a| == |b| && Be(a) == Be(b)
    ensures a == b
  {
    ReverseTwice(a);
    ReverseTwice(b);
    BeOfReverse(Reverse(a));
    BeOfReverse(Reverse(b));
    LeBytesOfLe(Reverse(a));
    LeBytesOfLe(Reverse(b));
  }

  /** Lexicographic order on byte strings, shorter first on a tie. */
  predicate LexLess(a: Bytes, b: Bytes)
  {
    if b == [] then false
    else if a == [] then true
    else a[0] < b[0] || (a[0] == b[0] && LexLess(a[1..], b[1..]))
  }

  lemma BeHead(a: Bytes)
    requires a != []
    ensures Be(a) == a[0] * Pow256(|a| - 1) + Be(a[1..])
  {
    var h, t := [a[0]], a[1..];
    assert a == h + t;
    assert Be(h) == a[0] by {
      assert h[..0] == [];
    }
    BeSplit(h, t);
  }

  lemma LeadingDigitDecides(x: int, y: int, p: int, s: int, t: int)
    requires 0 <= s < p && 0 <= t && x < y
    ensures x * p + s < y * p + t
  {
    assert (x + 1) * p <= y * p;
  }

  /** On equal lengths, lexicographic order is the order of big-endian numbers. */
  lemma {:induction false} LexIsNumeric(a: Bytes, b: Bytes)
    requires |a| == |b|
    ensures LexLess(a, b) <==> Be(a) < Be(b)
  {
    if a != [] {
      var p := Pow256(|a| - 1);
      var s, t := Be(a[1..]), Be(b[1..]);
      BeHead(a);
      BeHead(b);
      if a[0] < b[0] {
        LeadingDigitDecides(a[0], b[0], p, s, t);
      } else if b[0] < a[0] {
        LeadingDigitDecides(b[0], a[0], p, t, s);
      } else {
        LexIsNumeric(a[1..], b[1..]);
      }
    }
  }

  function Min(a: int, b: int): int {
    if a <= b then a else b
  }
}
