/** The four-lane CPU backend. */
module Avx2 {
  import opened Base
  import opened Bits
  import opened Blake2b
  import opened RoundLaws
  import opened Scan
  import Gpu

  /** A 256-bit vector as four 64-bit lanes. */
  datatype Vec = Vec(l0: u64, l1: u64, l2: u64, l3: u64) {
    function Lane(i: nat): u64
      requires i < 4
    {
      if i == 0 then l0 else if i == 1 then l1 else if i == 2 then l2 else l3
    }
  }

  function Splat(x: u64): Vec {
    Vec(x, x, x, x)
  }

  function AddV(a: Vec, b: Vec): Vec {
    Vec(Add(a.l0, b.l0), Add(a.l1, b.l1), Add(a.l2, b.l2), Add(a.l3, b.l3))
  }

  function XorV(a: Vec, b: Vec): Vec {
    Vec(Xor64(a.l0, b.l0), Xor64(a.l1, b.l1), Xor64(a.l2, b.l2), Xor64(a.l3, b.l3))
  }

  function LaneWise(f: u64 -> u64, a: Vec): Vec {
    Vec(f(a.l0), f(a.l1), f(a.l2), f(a.l3))
  }

  /** Exchange the 32-bit halves of a lane. */
  function SwapHalves(x: u64): u64 {
    (x % 0x1_0000_0000) * 0x1_0000_0000 + x / 0x1_0000_0000
  }

  function Shuffle24(x: u64): u64 {
    ShuffleBytes(x, SHUFFLE24)
  }

  function Shuffle16(x: u64): u64 {
    ShuffleBytes(x, SHUFFLE16)
  }

  function ShiftOne(x: u64): u64 {
    ShiftsRotate(x, 63);
    Or(Shl(x, 1), Shr(x, 63))
  }

  /** The vector form of one mix. */
  function MixV(a: Vec, b: Vec, c: Vec, d: Vec, x: Vec, y: Vec): Quad<Vec> {
    var a := AddV(AddV(a, b), x);
    var d := LaneWise(SwapHalves, XorV(d, a));
    var c := AddV(c, d);
    var b := LaneWise(Shuffle24, XorV(b, c));
    var a := AddV(AddV(a, b), y);
    var d := LaneWise(Shuffle16, XorV(d, a));
    var c := AddV(c, d);
    var b := LaneWise(ShiftOne, XorV(b, c));
    Quad(a, b, c, d)
  }

  lemma LaneRotations(x: u64)
    ensures SwapHalves(x) == Rotr(x, 32) && Shuffle24(x) == Rotr(x, 24)
    ensures Shuffle16(x) == Rotr(x, 16) && ShiftOne(x) == Rotr(x, 63)
  {
    RotrValues(x);
    ShufflesRotate(x);
    ShiftsRotate(x, 63);
  }

  function LaneOf(i: nat): Vec -> u64
    requires i < 4
  {
    (v: Vec) => v.Lane(i)
  }

  function LaneOfQuad(q: Quad<Vec>, i: nat): Quad<u64>
    requires i < 4
  {
    Quad(q.a.Lane(i), q.b.Lane(i), q.c.Lane(i), q.d.Lane(i))
  }

  /** In each lane the vector mix is the mix of the standard. */
  lemma LaneMix(i: nat, a: Vec, b: Vec, c: Vec, d: Vec, x: Vec, y: Vec)
    requires i < 4
    ensures LaneOfQuad(MixV(a, b, c, d, x, y), i)
         == Mix(a.Lane(i), b.Lane(i), c.Lane(i), d.Lane(i), x.Lane(i), y.Lane(i))
  {
    hide Rotr, Xor64, Add, SwapHalves, Shuffle24, Shuffle16, ShiftOne;
    var a1 := Add(Add(a.Lane(i), b.Lane(i)), x.Lane(i));
    LaneRotations(Xor64(d.Lane(i), a1));
    var d1 := Rotr(Xor64(d.Lane(i), a1), 32);
    var c1 := Add(c.Lane(i), d1);
    LaneRotations(Xor64(b.Lane(i), c1));
    var b1 := Rotr(Xor64(b.Lane(i), c1), 24);
    var a2 := Add(Add(a1, b1), y.Lane(i));
    LaneRotations(Xor64(d1, a2));
    var d2 := Rotr(Xor64(d1, a2), 16);
    var c2 := Add(c1, d2);
    LaneRotations(Xor64(b1, c2));
  }

  lemma LaneHomomorphic(i: nat)
    requires i < 4
    ensures Homomorphic(LaneOf(i), MixV, Mix)
  {
    hide MixV, Mix;
    forall a: Vec, b: Vec, c: Vec, d: Vec, x: Vec, y: Vec
      ensures Projects(LaneOf(i), MixV, Mix, a, b, c, d, x, y)
    {
      LaneMix(i, a, b, c, d, x, y);
    }
  }

  // ---------- Four hashes at a time ----------

  /** The header words, the same in every lane. */
  function Prepare(h: Header): (m: seq<Vec>)
    ensures |m| == 16
  {
    var words := HeaderWords(h);
    seq(16, i requires 0 <= i < 16 => Splat(if i < 10 then words[i] else 0))
  }

  function Wrap(nonce: u64, i: nat): u64 {
    (nonce as int + i) % TWO64
  }

  /** Consecutive nonces, wrapping past 2^64. */
  function NonceVec(nonce: u64): Vec {
    Vec(nonce, Wrap(nonce, 1), Wrap(nonce, 2), Wrap(nonce, 3))
  }

  function StartV(): (v: seq<Vec>)
    ensures |v| == 16
  {
    var v := OneBlockVector(80);
    seq(16, i requires 0 <= i < 16 => Splat(v[i]))
  }

  lemma PreparedLane(h: Header, nonce: u64, i: nat)
    requires i < 4
    ensures Map(LaneOf(i), Prepare(h)[4 := NonceVec(nonce)]) == HeaderWords(h)[4 := Wrap(nonce, i)]
    ensures Map(LaneOf(i), StartV()) == OneBlockVector(80)
  {
    hide HeaderWords, OneBlockVector;
    Gpu.TailWordsAreZero(h);
  }

  /** Lane i of the first vectors holds the first words of d. */
  ghost predicate LaneHolds(out: seq<Vec>, i: nat, d: seq<u64>)
    requires i < 4 && |d| == 8
  {
    |out| <= 4 && forall j :: 0 <= j < |out| ==> out[j].Lane(i) == d[j]
  }

  /** The vector compression, with the feed-forward in the order the code uses. */
  method CompressV(base: seq<Vec>, nonce: u64, ghost h: Header) returns (out: seq<Vec>)
    requires base == Prepare(h)
    ensures |out| == 4
    ensures forall i :: 0 <= i < 4 ==> LaneHolds(out, i, HashWords(WithNonce(h, Wrap(nonce, i))))
  {
    hide Columns, Diagonals, Prepare, HashWords, StartV, Sigma, Fold, Initial, LaneHolds, WithNonce;
    var m := base[4 := NonceVec(nonce)];
    var start := StartV();
    var v := start;
    hide Rounds;
    RoundStep(MixV, start, m, 0);
    for n := 0 to ROUNDS
      invariant |v| == 16 && v == Rounds(MixV, start, m, n)
    {
      RoundStep(MixV, start, m, n);
      v := Columns(MixV, v, m, Sigma(n % 10));
      v := Diagonals(MixV, v, m, Sigma(n % 10));
    }
    out := FeedForward(v);
    forall i | 0 <= i < 4 ensures LaneHolds(out, i, HashWords(WithNonce(h, Wrap(nonce, i)))) {
      LaneHash(h, nonce, i, v);
    }
  }

  lemma LaneHash(h: Header, nonce: u64, i: nat, v: seq<Vec>)
    requires i < 4 && |v| == 16
    requires v == Rounds(MixV, StartV(), Prepare(h)[4 := NonceVec(nonce)], ROUNDS)
    ensures HashWords(WithNonce(h, Wrap(nonce, i))) == Fold(Initial(), Map(LaneOf(i), v))
  {
    hide Rounds, Homomorphic, Map, Fold, HashWords, HeaderWords, StartV, Prepare, WithNonce, OneBlockVector, Initial;
    LaneHomomorphic(i);
    PreparedLane(h, nonce, i);
    MapRounds(LaneOf(i), MixV, Mix, StartV(), Prepare(h)[4 := NonceVec(nonce)], ROUNDS);
    HeaderHash(h, Wrap(nonce, i));
  }

  method FeedForward(v: seq<Vec>) returns (out: seq<Vec>)
    requires |v| == 16
    ensures |out| == 4
    ensures forall i :: 0 <= i < 4 ==> LaneHolds(out, i, Fold(Initial(), Map(LaneOf(i), v)))
  {
    hide Xor;
    out := [];
    var iv := IV();
    for j := 0 to 4
      invariant |out| == j
      invariant forall i :: 0 <= i < 4 ==> LaneHolds(out, i, Fold(Initial(), Map(LaneOf(i), v)))
    {
      var h := Xor64(iv[j], if j == 0 then PARAMETER else 0);
      XorZero(iv[j]);
      var w := XorV(Splat(h), XorV(v[j], v[j + 8]));
      forall i | 0 <= i < 4 ensures LaneHolds(out + [w], i, Fold(Initial(), Map(LaneOf(i), v))) {
        XorAssoc(h, v[j].Lane(i), v[j + 8].Lane(i));
        assert LaneHolds(out, i, Fold(Initial(), Map(LaneOf(i), v)));
      }
      out := out + [w];
    }
  }

  // ---------- The scan ----------

  method Avx2Scan(w: Work, start: u64, count: u32) returns (r: Result<seq<u64>>)
    ensures r == if InRange(start, count) then Success(Hits(w, start, count)) else Failure
  {
    hide Hits, Prepare, Solves, HashWords, WithNonce;
    if !InRange(start, count) {
      return Failure;
    }
    var m := Prepare(w.header);
    var nonces: seq<u64> := [];
    var i := 0;
    HitsStep(w, start, 0);
    while i < count
      invariant 0 <= i && nonces == Hits(w, start, Min(i, count))
      decreases count - i
    {
      var out := CompressV(m, start + i, w.header);
      var lane := 0;
      while lane < 4 && i + lane < count
        invariant 0 <= lane <= 4 && i + lane <= count
        invariant nonces == Hits(w, start, i + lane)
      {
        assert Wrap(start + i, lane) == start + i + lane;
        assert LaneHolds(out, lane, HashWords(WithNonce(w.header, Wrap(start + i, lane))));
        var ok, hit := CheckLane(w, start + i + lane, out[0].Lane(lane));
        if !ok {
          return Failure;
        }
        HitsStep(w, start, i + lane);
        if hit {
          nonces := nonces + [start + i + lane];
        }
        lane := lane + 1;
      }
      i := i + 4;
    }
    return Success(nonces);
  }

  lemma HitsStep(w: Work, start: u64, n: nat)
    requires start + n <= TWO64
    ensures Hits(w, start, 0) == []
    ensures start + n < TWO64 ==>
              Hits(w, start, n + 1) == Hits(w, start, n) + if Solves(w, start + n) then [start + n] else []
  {
    hide Solves;
  }

  /** Prefilter one lane and validate it against the scalar oracle; the validation cannot fail. */
  method CheckLane(w: Work, nonce: u64, word: u64) returns (ok: bool, hit: bool)
    requires word == HashWords(WithNonce(w.header, nonce))[0]
    ensures ok && hit == Solves(w, nonce)
  {
    hide HashWords, Meets, Be, Le, WithNonce, HashOf, ByteSwap, TargetTop;
    PrefilterMeaning(w, nonce);
    LimitIsTargetTop(w.target);
    var top := LoadLe(w.target[..8]);
    if ByteSwap(word) > ByteSwap(top) {
      return true, false;
    }
    var digest := Blake2b256(WithNonce(w.header, nonce));
    FirstWordOf(w, nonce);
    var first := LoadLe(digest.value[..8]);
    if first != word {
      return false, false;
    }
    return true, Meets(digest.value, w.target);
  }

  lemma FirstWordOf(w: Work, nonce: u64)
    ensures Le(HashOf(WithNonce(w.header, nonce))[..8]) == HashWords(WithNonce(w.header, nonce))[0]
  {
    hide Absorb, Le, LeBytes;
    var words := HashWords(WithNonce(w.header, nonce));
    LeadingWord(words);
    Pow256Values();
    LeOfLeBytes(words[0], 8);
  }

  lemma LimitIsTargetTop(target: Hash)
    ensures Le(target[..8]) < TWO64 && ByteSwap(Le(target[..8])) == TargetTop(target)
  {
    Pow256Values();
    hide Le, Be;
    var b := target[..8];
    LeBytesOfLe(b);
    BeOfReverse(Reverse(b));
    ReverseTwice(b);
  }
}
