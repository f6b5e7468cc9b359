/** How the 80-byte header of a job is put together, for both protocols. */
module Coin {
  import opened Base
  import opened Blake2b
  import opened Scan
  import Hex

  const EXTRA := 12
  const HIDDEN := 6

  // ---------- SV2 standard jobs ----------

  /** The four fields of a header, the nonce still zero. */
  function Fields(first: Bytes, time: Bytes, root: Bytes): Header
    requires |first| == 32 && |time| == 8 && |root| == 32
  {
    first + Zeros(8) + time + root
  }

  lemma FieldsAt(first: Bytes, time: Bytes, root: Bytes)
    requires |first| == 32 && |time| == 8 && |root| == 32
    ensures Fields(first, time, root)[..32] == first && Fields(first, time, root)[..40] == first + Zeros(8)
    ensures Fields(first, time, root)[40..] == time + root && Fields(first, time, root)[48..] == root
  {
  }

  function WorkHeader(hidden: Hash, root: Hash, time: u32): Header {
    Fields(hidden, LeBytes(time, 8), root)
  }

  function StandardLeaf(commitment: Hash, extra: Bytes): Bytes {
    Zeros(4) + commitment + Zeros(4) + extra
  }

  predicate IsHidden(h: Hash) {
    forall i :: 0 <= i < HIDDEN ==> h[i] == 0
  }

  function StandardWork(hidden: Hash, commitment: Hash, extra: Bytes, time: u32): Result<Header> {
    if |extra| == EXTRA && IsHidden(hidden)
    then Success(WorkHeader(hidden, HashOf(StandardLeaf(commitment, extra)), time))
    else Failure
  }

  /** The worker's change of the time field. */
  function WithTime(h: Header, time: u32): Header {
    h[..40] + LeBytes(time, 8) + h[48..]
  }

  method StoreTime(header: array<byte>, time: u32)
    requires header.Length == 80
    modifies header
    ensures header[..] == WithTime(old(header[..]), time)
  {
    ghost var before := header[..];
    var b := StoreLe(time);
    forall i | 0 <= i < 8 {
      header[40 + i] := b[i];
    }
    assert header[..40] == before[..40] && header[40..48] == b && header[48..] == before[48..];
    assert header[..] == header[..40] + header[40..48] + header[48..];
  }

  method WorkHeaderOf(hidden: Hash, root: Hash, time: u32) returns (r: Header)
    ensures r == WorkHeader(hidden, root, time)
  {
    var h := new byte[80](_ => 0);
    forall i | 0 <= i < 32 {
      h[i] := hidden[i];
    }
    assert h[..40] == hidden + Zeros(8);
    StoreTime(h, time);
    assert h[..48] == hidden + Zeros(8) + LeBytes(time, 8);
    forall i | 0 <= i < 32 {
      h[48 + i] := root[i];
    }
    assert h[..48] == hidden + Zeros(8) + LeBytes(time, 8) && h[48..] == root;
    assert h[..] == h[..48] + h[48..];
    r := h[..];
  }

  method RootOf(leaf: Bytes) returns (root: Hash)
    requires |leaf| <= BLOCK
    ensures root == HashOf(leaf)
  {
    hide HashOf;
    var r := Blake2b256(leaf);
    root := r.value;
  }

  method StandardWorkOf(hidden: Hash, commitment: Hash, extra: Bytes, time: u32) returns (r: Result<Header>)
    ensures r == StandardWork(hidden, commitment, extra, time)
  {
    hide HashOf, WorkHeader, IsHidden;
    if |extra| != EXTRA || !IsHidden(hidden) {
      return Failure;
    }
    var leaf := Zeros(4);
    leaf := leaf + commitment;
    leaf := leaf + Zeros(4);
    leaf := leaf + extra;
    var root := RootOf(leaf);
    var h := WorkHeaderOf(hidden, root, time);
    return Success(h);
  }

  /** Overwriting the time of a standard header gives the standard header of that time. */
  lemma RetimedIsStandard(hidden: Hash, commitment: Hash, extra: Bytes, time: u32, later: u32)
    requires StandardWork(hidden, commitment, extra, time).Success?
    ensures StandardWork(hidden, commitment, extra, later)
            == Success(WithTime(StandardWork(hidden, commitment, extra, time).value, later))
  {
    hide HashOf;
    var root := HashOf(StandardLeaf(commitment, extra));
    FieldsAt(hidden, LeBytes(time, 8), root);
  }

  lemma {:induction false} UpperZero(v: nat, n: nat)
    requires v == 0
    ensures LeBytes(v, n) == Zeros(n)
  {
    if n != 0 {
      UpperZero(0, n - 1);
      assert LeBytes(v, n)[1..] == Zeros(n - 1) == Zeros(n)[1..];
    }
  }

  lemma {:induction false} LeBytesHalves(v: nat, m: nat, n: nat)
    requires v < Pow256(m)
    ensures LeBytes(v, m + n) == LeBytes(v, m) + Zeros(n)
  {
    if m == 0 {
      UpperZero(v, n);
      assert LeBytes(v, 0) + Zeros(n) == Zeros(n);
    } else {
      LeBytesHalves(v / 256, m - 1, n);
      assert LeBytes(v, m + n)[1..] == LeBytes(v / 256, m - 1) + Zeros(n);
    }
  }

  /** The 52 bytes under the root: the commitment at 4, the extranonce at 40, zeros before each. */
  predicate IsLeaf(leaf: Bytes, commitment: Hash, extra: Bytes) {
    && |leaf| == 52 && leaf[4..36] == commitment && leaf[40..52] == extra
    && leaf[..4] == Zeros(4) && leaf[36..40] == Zeros(4)
  }

  /** The positions determine the leaf. */
  lemma LeafBytes(leaf: Bytes, commitment: Hash, extra: Bytes)
    requires IsLeaf(leaf, commitment, extra)
    ensures leaf == Zeros(4) + commitment + Zeros(4) + extra
  {
    assert leaf == leaf[..4] + leaf[4..36] + leaf[36..40] + leaf[40..52];
  }

  lemma StandardLeafAt(commitment: Hash, extra: Bytes)
    requires |extra| == EXTRA
    ensures IsLeaf(StandardLeaf(commitment, extra), commitment, extra)
  {
  }

  /**
    Field by field, a standard header with a 32-bit nonce: the upper nonce and time halves stay zero, and the
    root is the hash of the leaf. There is one exactly for twelve bytes of extranonce and a previous hash below 2^208.
   */
  lemma StandardLayout(hidden: Hash, commitment: Hash, extra: Bytes, time: u32, nonce: u32) returns (leaf: Bytes)
    ensures StandardWork(hidden, commitment, extra, time).Success? <==> |extra| == 12 && Be(hidden) < Pow256(26)
    ensures StandardWork(hidden, commitment, extra, time).Success? ==>
              && IsLeaf(leaf, commitment, extra)
              && WithNonce(StandardWork(hidden, commitment, extra, time).value, nonce)
                 == hidden + (LeBytes(nonce, 4) + Zeros(4)) + (LeBytes(time, 4) + Zeros(4)) + HashOf(leaf)
  {
    HiddenIsSmall(hidden);
    leaf := StandardLeaf(commitment, extra);
    if StandardWork(hidden, commitment, extra, time).Success? {
      StandardLeafAt(commitment, extra);
      StandardFields(hidden, commitment, extra, time, nonce);
    }
  }

  lemma {:induction false} LeadingZeros(b: Bytes, n: nat)
    requires n <= |b|
    ensures (forall i :: 0 <= i < n ==> b[i] == 0) <==> Be(b) < Pow256(|b| - n)
    decreases n
  {
    if n > 0 {
      BeHead(b);
      LeadingZeros(b[1..], n - 1);
      assert forall i :: 1 <= i < n ==> b[i] == b[1..][i - 1];
      var low, p := Pow256(|b| - n), Pow256(|b| - 1);
      Pow256Add(|b| - n, n - 1);
      AtLeast(low, Pow256(n - 1));
      if b[0] > 0 {
        AtLeast(p, b[0]);
      }
    }
  }

  lemma AtLeast(x: nat, y: nat)
    requires y >= 1
    ensures x * y >= x && y * x >= x
  {
  }

  /** A hidden previous hash, as a number. */
  lemma HiddenIsSmall(h: Hash)
    ensures IsHidden(h) <==> Be(h) < Pow256(26)
  {
    LeadingZeros(h, HIDDEN);
  }

  lemma StandardFields(hidden: Hash, commitment: Hash, extra: Bytes, time: u32, nonce: u32)
    requires StandardWork(hidden, commitment, extra, time).Success?
    ensures WithNonce(StandardWork(hidden, commitment, extra, time).value, nonce)
            == hidden + (LeBytes(nonce, 4) + Zeros(4)) + (LeBytes(time, 4) + Zeros(4))
               + HashOf(StandardLeaf(commitment, extra))
  {
    hide HashOf, LeBytes;
    Pow256Values();
    hide Pow256;
    LeBytesHalves(nonce, 4, 4);
    LeBytesHalves(time, 4, 4);
    FieldsAt(hidden, LeBytes(time, 8), HashOf(StandardLeaf(commitment, extra)));
  }

  // ---------- SV1 Sia jobs ----------

  function SiaLeaf(coinbase: Bytes, en1: Bytes, en2: Bytes): Bytes {
    [0] + coinbase + en1 + en2
  }

  predicate SiaLayout(prev: Bytes, c1: Bytes, c2: Bytes, en1: Bytes, en2: Bytes, time: Bytes) {
    |prev| == 32 && |c1| == 39 && c2 == [] && |en1| + |en2| == EXTRA && |time| == 8
  }

  function SiaHeader(prev: Bytes, c1: Bytes, c2: Bytes, en1: Bytes, en2: Bytes, time: Bytes): Header
    requires SiaLayout(prev, c1, c2, en1, en2, time)
  {
    hide HashOf;
    Fields(prev, time, HashOf(SiaLeaf(c1, en1, en2)))
  }

  function SiaWork(prev: string, c1: string, c2: string, en1: string, en2: string, time: string): Result<Header> {
    var p :- Hex.Unhex(prev);
    var a :- Hex.Unhex(c1);
    var b :- Hex.Unhex(c2);
    var e1 :- Hex.Unhex(en1);
    var e2 :- Hex.Unhex(en2);
    var t :- Hex.Unhex(time);
    if SiaLayout(p, a, b, e1, e2, t) then Success(SiaHeader(p, a, b, e1, e2, t)) else Failure
  }

  /** The 52 bytes under an SV1 root: a zero, the coinbase, the two extranonces. */
  predicate IsSiaLeaf(leaf: Bytes, coinbase: Bytes, en1: Bytes, en2: Bytes) {
    && |coinbase| == 39 && |en1| + |en2| == 12 && |leaf| == 52
    && leaf[0] == 0 && leaf[1..40] == coinbase && leaf[40..40 + |en1|] == en1 && leaf[40 + |en1|..] == en2
  }

  lemma SiaLeafAt(coinbase: Bytes, en1: Bytes, en2: Bytes)
    requires |coinbase| == 39 && |en1| + |en2| == EXTRA
    ensures IsSiaLeaf(SiaLeaf(coinbase, en1, en2), coinbase, en1, en2)
  {
  }

  /** What a successful header says about its texts: every field of it, and the leaf under its root. */
  lemma SiaShape(prev: string, c1: string, c2: string, en1: string, en2: string, time: string)
    requires SiaWork(prev, c1, c2, en1, en2, time).Success?
    ensures Hex.Unhex(c1).Success? && Hex.Unhex(en1).Success? && Hex.Unhex(en2).Success?
    ensures Hex.Unhex(c2) == Success([])
    ensures var (a, e1, e2) := (Hex.Unhex(c1).value, Hex.Unhex(en1).value, Hex.Unhex(en2).value);
            var h := SiaWork(prev, c1, c2, en1, en2, time).value;
            && Hex.Unhex(prev) == Success(h[..32]) && h[32..40] == Zeros(8) && Hex.Unhex(time) == Success(h[40..48])
            && IsSiaLeaf(SiaLeaf(a, e1, e2), a, e1, e2) && h[48..] == HashOf(SiaLeaf(a, e1, e2))
  {
    hide Hex.Unhex, HashOf, SiaLeaf;
    var p, a, e1, e2, t := Hex.Unhex(prev), Hex.Unhex(c1), Hex.Unhex(en1), Hex.Unhex(en2), Hex.Unhex(time);
    var f := Fields(p.value, t.value, HashOf(SiaLeaf(a.value, e1.value, e2.value)));
    SiaLeafAt(a.value, e1.value, e2.value);
    FieldsAt(p.value, t.value, HashOf(SiaLeaf(a.value, e1.value, e2.value)));
    assert f[32..40] == f[..40][32..] && f[40..48] == f[40..][..8];
    hide Fields, IsSiaLeaf;
  }

  lemma SiaLeafEnd(coinbase: Bytes, en1: Bytes, en2: Bytes)
    requires |coinbase| == 39 && |en1| == 4
    ensures |SiaLeaf(coinbase, en1, en2)| == 44 + |en2| && SiaLeaf(coinbase, en1, en2)[44..] == en2
  {
  }

  method SiaWorkOf(prev: string, c1: string, c2: string, en1: string, en2: string, time: string)
    returns (r: Result<Header>)
    ensures r == SiaWork(prev, c1, c2, en1, en2, time)
  {
    hide HashOf, Fields, Hex.Unhex;
    var p :- Hex.Decode(prev);
    var a :- Hex.Decode(c1);
    var b :- Hex.Decode(c2);
    var e1 :- Hex.Decode(en1);
    var e2 :- Hex.Decode(en2);
    var t :- Hex.Decode(time);
    if !SiaLayout(p, a, b, e1, e2, t) {
      return Failure;
    }
    var leaf: Bytes := [0];
    leaf := leaf + a;
    leaf := leaf + e1;
    leaf := leaf + e2;
    var root := RootOf(leaf);
    var w := Assemble(p, t, root);
    return Success(w);
  }

  method Assemble(p: Bytes, t: Bytes, root: Hash) returns (w: Header)
    requires |p| == 32 && |t| == 8
    ensures w == Fields(p, t, root)
  {
    var h := new byte[80](_ => 0);
    forall i | 0 <= i < 32 {
      h[i] := p[i];
    }
    forall i | 0 <= i < 8 {
      h[40 + i] := t[i];
    }
    forall i | 0 <= i < 32 {
      h[48 + i] := root[i];
    }
    assert h[..32] == p && h[32..40] == Zeros(8) && h[40..48] == t && h[48..] == root;
    assert h[..] == h[..32] + h[32..40] + h[40..48] + h[48..];
    w := h[..];
  }

  /** With fixed field sizes, different extranonces make different leaves. */
  lemma LeafDeterminesExtranonce(c1: Bytes, d1: Bytes, a1: Bytes, b1: Bytes, a2: Bytes, b2: Bytes)
    requires |c1| == |d1| && |a1| == |b1| && |a2| == |b2|
    requires SiaLeaf(c1, a1, a2) == SiaLeaf(d1, b1, b2)
    ensures c1 == d1 && a1 == b1 && a2 == b2
  {
    var x, y := SiaLeaf(c1, a1, a2), SiaLeaf(d1, b1, b2);
    var i, j := 1 + |c1|, 1 + |c1| + |a1|;
    assert x[1..i] == c1 && x[i..j] == a1 && x[j..] == a2;
    assert y[1..i] == d1 && y[i..j] == b1 && y[j..] == b2;
  }
}
