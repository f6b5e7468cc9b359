/**
  BLAKE2b with a 32-byte digest and no key, as RFC 7693 defines it, and the one-block scalar
  implementation. The round structure is written once for any word type and any mixing function,
  so that each device's variant is an instance of it.
 */
module Blake2b {
  import opened Base
  import opened Bits

  const BLOCK := 128
  const ROUNDS := 12
  const PARAMETER: u64 := 0x01010020

  function IV(): (iv: seq<u64>)
    ensures |iv| == 8
  {
    [0x6a09e667f3bcc908, 0xbb67ae8584caa73b, 0x3c6ef372fe94f82b, 0xa54ff53a5f1d36f1,
     0x510e527fade682d1, 0x9b05688c2b3e6c1f, 0x1f83d9abfb41bd6b, 0x5be0cd19137e2179]
  }

  type Row = s: seq<nat> | |s| == 16 && forall i :: 0 <= i < 16 ==> s[i] < 16
    witness seq(16, i => 0)

  /** Message word schedule, section 2.7 of RFC 7693. */
  const S0: Row := [0, 1, 2, 3, 4, 5, 6, 7, 8, 9, 10, 11, 12, 13, 14, 15]
  const S1: Row := [14, 10, 4, 8, 9, 15, 13, 6, 1, 12, 0, 2, 11, 7, 5, 3]
  const S2: Row := [11, 8, 12, 0, 5, 2, 15, 13, 10, 14, 3, 6, 7, 1, 9, 4]
  const S3: Row := [7, 9, 3, 1, 13, 12, 11, 14, 2, 6, 5, 10, 4, 0, 15, 8]
  const S4: Row := [9, 0, 5, 7, 2, 4, 10, 15, 14, 1, 11, 12, 6, 8, 3, 13]
  const S5: Row := [2, 12, 6, 10, 0, 11, 8, 3, 4, 13, 7, 5, 15, 14, 1, 9]
  const S6: Row := [12, 5, 1, 15, 14, 13, 4, 10, 0, 7, 6, 3, 9, 2, 8, 11]
  const S7: Row := [13, 11, 7, 14, 12, 1, 3, 9, 5, 0, 15, 4, 8, 6, 2, 10]
  const S8: Row := [6, 15, 14, 9, 11, 3, 0, 8, 12, 2, 13, 7, 1, 4, 10, 5]
  const S9: Row := [10, 2, 8, 4, 7, 6, 1, 5, 15, 11, 9, 14, 3, 12, 13, 0]

  function Sigma(r: nat): Row
    requires r < 10
  {
    if r == 0 then S0 else if r == 1 then S1 else if r == 2 then S2 else if r == 3 then S3
    else if r == 4 then S4 else if r == 5 then S5 else if r == 6 then S6 else if r == 7 then S7
    else if r == 8 then S8 else S9
  }

  // ---------- What the constants are ----------

  const PRIMES := [2, 3, 5, 7, 11, 13, 17, 19]

  /** Word i is the first 64 bits of the fraction of the square root of the i-th prime (section 2.6 of RFC 7693). */
  lemma InitialIsRoot(i: nat)
    requires i < 8
    ensures var x := (1 + i / 2) * TWO64 + IV()[i];
            x * x <= PRIMES[i] * (TWO64 * TWO64) < (x + 1) * (x + 1)
  {
    if i < 4 {
      if i == 0 {
      } else if i == 1 {
      } else if i == 2 {
      }
    } else if i == 4 {
    } else if i == 5 {
    } else if i == 6 {
    }
  }

  /** The parameter block: 32 bytes of digest, no key, fanout and depth one (section 2.5). */
  lemma ParameterBlock()
    ensures LeBytes(PARAMETER, 8) == [32, 0, 1, 1, 0, 0, 0, 0]
  {
    assert LeBytes(0, 4) == [0, 0, 0, 0];
    assert LeBytes(1, 5) == [1, 0, 0, 0, 0];
    assert LeBytes(0x101, 6) == [1, 1, 0, 0, 0, 0];
    assert LeBytes(0x1_0100, 7) == [0, 1, 1, 0, 0, 0, 0];
  }

  predicate Holds(s: Row, k: nat) {
    || s[0] == k || s[1] == k || s[2] == k || s[3] == k || s[4] == k || s[5] == k || s[6] == k || s[7] == k
    || s[8] == k || s[9] == k || s[10] == k || s[11] == k || s[12] == k || s[13] == k || s[14] == k || s[15] == k
  }

  lemma Rows0(k: nat)
    requires k < 16
    ensures Holds(S0, k) && Holds(S1, k)
  {
  }

  lemma Rows2(k: nat)
    requires k < 16
    ensures Holds(S2, k) && Holds(S3, k)
  {
  }

  lemma Rows4(k: nat)
    requires k < 16
    ensures Holds(S4, k) && Holds(S5, k)
  {
  }

  lemma Rows6(k: nat)
    requires k < 16
    ensures Holds(S6, k) && Holds(S7, k)
  {
  }

  lemma Rows8(k: nat)
    requires k < 16
    ensures Holds(S8, k) && Holds(S9, k)
  {
  }

  /** Every row of the schedule uses each message word, so each of them once. */
  lemma SigmaPermutes(r: nat, k: nat)
    requires r < 10 && k < 16
    ensures Holds(Sigma(r), k)
  {
    hide S0, S1, S2, S3, S4, S5, S6, S7, S8, S9, Holds;
    Rows0(k);
    Rows2(k);
    Rows4(k);
    Rows6(k);
    Rows8(k);
  }

  // ---------- The shape of a round ----------

  datatype Quad<W> = Quad(a: W, b: W, c: W, d: W)

  type Mixer<!W> = (W, W, W, W, W, W) -> Quad<W>

  /** Mix four words of v in place, one from each row of the state. */
  function At<W>(g: Mixer<W>, v: seq<W>, a: nat, b: nat, c: nat, d: nat, x: W, y: W): (r: seq<W>)
    requires |v| == 16 && a < 4 <= b < 8 <= c < 12 <= d < 16
    ensures |r| == 16
  {
    var q := g(v[a], v[b], v[c], v[d], x, y);
    v[a := q.a][b := q.b][c := q.c][d := q.d]
  }

  function Columns<W>(g: Mixer<W>, v: seq<W>, m: seq<W>, s: Row): (r: seq<W>)
    requires |v| == 16 && |m| == 16
    ensures |r| == 16
  {
    var v := At(g, v, 0, 4, 8, 12, m[s[0]], m[s[1]]);
    var v := At(g, v, 1, 5, 9, 13, m[s[2]], m[s[3]]);
    var v := At(g, v, 2, 6, 10, 14, m[s[4]], m[s[5]]);
    At(g, v, 3, 7, 11, 15, m[s[6]], m[s[7]])
  }

  function Diagonals<W>(g: Mixer<W>, v: seq<W>, m: seq<W>, s: Row): (r: seq<W>)
    requires |v| == 16 && |m| == 16
    ensures |r| == 16
  {
    var v := At(g, v, 0, 5, 10, 15, m[s[8]], m[s[9]]);
    var v := At(g, v, 1, 6, 11, 12, m[s[10]], m[s[11]]);
    var v := At(g, v, 2, 7, 8, 13, m[s[12]], m[s[13]]);
    At(g, v, 3, 4, 9, 14, m[s[14]], m[s[15]])
  }

  /** The state after n rounds. */
  function Rounds<W>(g: Mixer<W>, v: seq<W>, m: seq<W>, n: nat): (r: seq<W>)
    requires |v| == 16 && |m| == 16
    ensures |r| == 16
    decreases n
  {
    if n == 0 then v
    else
      var s := Sigma((n - 1) % 10);
      Diagonals(g, Columns(g, Rounds(g, v, m, n - 1), m, s), m, s)
  }

  // ---------- RFC 7693 ----------

  /** Section 3.1. */
  function Mix(a: u64, b: u64, c: u64, d: u64, x: u64, y: u64): Quad<u64> {
    var a := Add(Add(a, b), x);
    var d := Rotr(Xor64(d, a), 32);
    var c := Add(c, d);
    var b := Rotr(Xor64(b, c), 24);
    var a := Add(Add(a, b), y);
    var d := Rotr(Xor64(d, a), 16);
    var c := Add(c, d);
    var b := Rotr(Xor64(b, c), 63);
    Quad(a, b, c, d)
  }

  /** The local vector at the start of section 3.2, with t bytes compressed so far. */
  function LocalVector(h: seq<u64>, t: nat, last: bool): (v: seq<u64>)
    requires |h| == 8
    ensures |v| == 16
  {
    var v := h + IV();
    v[12 := Xor64(v[12], t % TWO64)]
     [13 := Xor64(v[13], (t / TWO64) % TWO64)]
     [14 := if last then Xor64(v[14], TWO64 - 1) else v[14]]
  }

  function Fold(h: seq<u64>, v: seq<u64>): (r: seq<u64>)
    requires |h| == 8 && |v| == 16
    ensures |r| == 8
  {
    seq(8, i requires 0 <= i < 8 => Xor64(Xor64(h[i], v[i]), v[i + 8]))
  }

  /** Section 3.2. */
  function Compress(h: seq<u64>, m: seq<u64>, t: nat, last: bool): (r: seq<u64>)
    requires |h| == 8 && |m| == 16
    ensures |r| == 8
  {
    Fold(h, Rounds(Mix, LocalVector(h, t, last), m, ROUNDS))
  }

  function Words(block: Bytes): (m: seq<u64>)
    requires |block| == BLOCK
    ensures |m| == 16
  {
    Pow256Values();
    seq(16, i requires 0 <= i < 16 => Le(block[8 * i..8 * i + 8]))
  }

  function Pad(data: Bytes): (block: Bytes)
    requires |data| <= BLOCK
    ensures |block| == BLOCK
  {
    data + Zeros(BLOCK - |data|)
  }

  function Initial(): (h: seq<u64>)
    ensures |h| == 8
  {
    IV()[0 := Xor64(IV()[0], PARAMETER)]
  }

  /** Section 3.3: all blocks but the last, then the padded last one. */
  function Absorb(h: seq<u64>, data: Bytes, offset: nat): (r: seq<u64>)
    requires |h| == 8
    ensures |r| == 8
    decreases |data|
  {
    if |data| <= BLOCK then Compress(h, Words(Pad(data)), offset + |data|, true)
    else Absorb(Compress(h, Words(data[..BLOCK]), offset + BLOCK, false), data[BLOCK..], offset + BLOCK)
  }

  /** The first n words of h as bytes. */
  function FirstWords(h: seq<u64>, n: nat): (b: Bytes)
    requires n <= |h|
    ensures |b| == 8 * n
  {
    if n == 0 then [] else FirstWords(h, n - 1) + LeBytes(h[n - 1], 8)
  }

  function Digest(h: seq<u64>): (d: Hash)
    requires |h| >= 4
  {
    FirstWords(h, 4)
  }

  function HashOf(data: Bytes): Hash {
    Digest(Absorb(Initial(), data, 0))
  }

  // ---------- The scalar implementation ----------

  /** The vector the one-block code starts from. */
  function OneBlockVector(size: u64): (v: seq<u64>)
    ensures |v| == 16
  {
    var v := Initial() + IV();
    v[12 := Xor64(v[12], size)][14 := Not64(v[14])]
  }

  lemma OneBlock(data: Bytes)
    requires |data| <= BLOCK
    ensures OneBlockVector(|data|) == LocalVector(Initial(), |data|, true)
    ensures HashOf(data) == Digest(Fold(Initial(), Rounds(Mix, OneBlockVector(|data|), Words(Pad(data)), ROUNDS)))
  {
    hide Rounds, Words, IV;
    XorZero(IV()[5]);
    assert (Initial() + IV())[13] == IV()[5];
  }

  method LoadLe(p: Bytes) returns (x: u64)
    requires |p| == 8
    ensures x == Le(p)
  {
    Pow256Values();
    var v: nat := 0;
    var i := 8;
    assert p[8..] == [];
    while i > 0
      invariant 0 <= i <= 8 && v == Le(p[i..])
    {
      i := i - 1;
      assert p[i..][1..] == p[i + 1..];
      v := v * 256 + p[i];
    }
    assert p[0..] == p;
    x := v;
  }

  method StoreLe(x: u64) returns (p: Bytes)
    ensures p == LeBytes(x, 8)
  {
    p := [];
    var v: nat := x;
    for i := 0 to 8
      invariant |p| == i && p + LeBytes(v, 8 - i) == LeBytes(x, 8)
    {
      var low, rest := [v % 256], LeBytes(v / 256, 7 - i);
      assert p + (low + rest) == (p + low) + rest;
      p := p + low;
      v := v / 256;
    }
  }

  method MixAt(v: array<u64>, a: nat, b: nat, c: nat, d: nat, x: u64, y: u64)
    requires v.Length == 16 && a < 4 <= b < 8 <= c < 12 <= d < 16
    modifies v
    ensures v[..] == At(Mix, old(v[..]), a, b, c, d, x, y)
  {
    v[a] := Add(Add(v[a], v[b]), x);
    v[d] := Rotr(Xor64(v[d], v[a]), 32);
    v[c] := Add(v[c], v[d]);
    v[b] := Rotr(Xor64(v[b], v[c]), 24);
    v[a] := Add(Add(v[a], v[b]), y);
    v[d] := Rotr(Xor64(v[d], v[a]), 16);
    v[c] := Add(v[c], v[d]);
    v[b] := Rotr(Xor64(v[b], v[c]), 63);
  }

  method ColumnsAt(v: array<u64>, m: array<u64>, s: Row)
    requires v.Length == 16 && m.Length == 16 && v != m
    modifies v
    ensures v[..] == Columns(Mix, old(v[..]), m[..], s)
  {
    hide At;
    MixAt(v, 0, 4, 8, 12, m[s[0]], m[s[1]]);
    MixAt(v, 1, 5, 9, 13, m[s[2]], m[s[3]]);
    MixAt(v, 2, 6, 10, 14, m[s[4]], m[s[5]]);
    MixAt(v, 3, 7, 11, 15, m[s[6]], m[s[7]]);
  }

  method DiagonalsAt(v: array<u64>, m: array<u64>, s: Row)
    requires v.Length == 16 && m.Length == 16 && v != m
    modifies v
    ensures v[..] == Diagonals(Mix, old(v[..]), m[..], s)
  {
    hide At;
    MixAt(v, 0, 5, 10, 15, m[s[8]], m[s[9]]);
    MixAt(v, 1, 6, 11, 12, m[s[10]], m[s[11]]);
    MixAt(v, 2, 7, 8, 13, m[s[12]], m[s[13]]);
    MixAt(v, 3, 4, 9, 14, m[s[14]], m[s[15]]);
  }

  method LoadBlock(block: Bytes, m: array<u64>)
    requires |block| == BLOCK && m.Length == 16
    modifies m
    ensures m[..] == Words(block)
  {
    for i := 0 to 16
      invariant forall k :: 0 <= k < i ==> m[k] == Le(block[8 * k..8 * k + 8])
    {
      m[i] := LoadLe(block[8 * i..8 * i + 8]);
    }
  }

  method StartVector(size: u64, h: array<u64>, v: array<u64>)
    requires h.Length == 8 && v.Length == 16
    modifies h, v
    ensures h[..] == Initial() && v[..] == OneBlockVector(size)
  {
    hide IV;
    var iv := IV();
    for i := 0 to 8
      invariant forall k :: 0 <= k < i ==> h[k] == iv[k] && v[k + 8] == iv[k]
    {
      h[i] := iv[i];
      v[i + 8] := iv[i];
    }
    h[0] := Xor64(h[0], PARAMETER);
    for i := 0 to 8
      invariant h[..] == Initial()
      invariant forall k :: 0 <= k < i ==> v[k] == h[k]
      invariant forall k :: 8 <= k < 16 ==> v[k] == iv[k - 8]
    {
      v[i] := h[i];
    }
    assert v[..] == Initial() + iv;
    v[12] := Xor64(v[12], size);
    v[14] := Not64(v[14]);
  }

  /** The scalar oracle: one block only, and there it is the hash of RFC 7693. */
  method Blake2b256(b: Bytes) returns (r: Result<Hash>)
    ensures r == if |b| <= BLOCK then Success(HashOf(b)) else Failure
  {
    hide Columns, Diagonals, Words, IV, LeBytes, HashOf, OneBlockVector, Initial, Digest, Fold;
    if |b| > BLOCK {
      return Failure;
    }
    var m, v, h := new u64[16], new u64[16], new u64[8];
    LoadBlock(Pad(b), m);
    StartVector(|b|, h, v);
    ghost var words, start := m[..], v[..];
    for n := 0 to ROUNDS
      invariant m[..] == words && h[..] == Initial()
      invariant v[..] == Rounds(Mix, start, words, n)
    {
      ColumnsAt(v, m, Sigma(n % 10));
      DiagonalsAt(v, m, Sigma(n % 10));
    }
    OneBlock(b);
    var digest := Emit(h, v);
    return Success(digest);
  }

  /** The final feed-forward, written out as bytes. */
  method Emit(h: array<u64>, v: array<u64>) returns (out: Bytes)
    requires h.Length == 8 && v.Length == 16
    ensures out == Digest(Fold(h[..], v[..]))
  {
    hide LeBytes;
    ghost var f := Fold(h[..], v[..]);
    out := [];
    for i := 0 to 4
      invariant out == FirstWords(f, i)
    {
      var w := StoreLe(Xor64(Xor64(h[i], v[i]), v[i + 8]));
      out := out + w;
    }
  }
}
