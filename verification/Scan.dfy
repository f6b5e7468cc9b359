/** What every backend computes: the nonces of a range whose header hash meets the target. */
module Scan {
  import opened Base
  import opened Bits
  import opened Blake2b

  datatype Work = Work(header: Header, target: Hash)

  function WithNonce(h: Header, nonce: u64): Header {
    h[..32] + LeBytes(nonce, 8) + h[40..]
  }

  predicate Meets(hash: Hash, target: Hash) {
    !LexLess(target, hash)
  }

  predicate Solves(w: Work, nonce: u64) {
    Meets(HashOf(WithNonce(w.header, nonce)), w.target)
  }

  predicate InRange(start: u64, count: u32) {
    count != 0 && start <= TWO64 - 1 - (count - 1)
  }

  /** The solving nonces among start .. start + n, ascending. */
  function Hits(w: Work, start: u64, n: nat): seq<u64>
    requires start + n <= TWO64
  {
    if n == 0 then []
    else
      var last: u64 := start + n - 1;
      Hits(w, start, n - 1) + if Solves(w, last) then [last] else []
  }

  /** A hash meets a target when it is not above it as a big-endian number. */
  lemma MeetsNumeric(hash: Hash, target: Hash)
    ensures Meets(hash, target) <==> Be(hash) <= Be(target)
  {
    LexIsNumeric(target, hash);
  }

  /** The leading 64 bits never exceed those of the target when the hash meets it. */
  lemma PrefilterSound(hash: Hash, target: Hash)
    requires Meets(hash, target)
    ensures Be(hash[..8]) <= Be(target[..8])
  {
    hide Be;
    MeetsNumeric(hash, target);
    assert hash == hash[..8] + hash[8..] && target == target[..8] + target[8..];
    BeSplit(hash[..8], hash[8..]);
    BeSplit(target[..8], target[8..]);
    if Be(hash[..8]) > Be(target[..8]) {
      LeadingDigitDecides(Be(target[..8]), Be(hash[..8]), Pow256(24), Be(target[8..]), Be(hash[8..]));
    }
  }

  ghost predicate Ascending(s: seq<u64>) {
    forall i, j :: 0 <= i < j < |s| ==> s[i] < s[j]
  }

  lemma {:induction false} HitsMembers(w: Work, start: u64, n: nat)
    requires start + n <= TWO64
    ensures forall x :: x in Hits(w, start, n) <==> start <= x < start + n && Solves(w, x)
    decreases n
  {
    hide Solves;
    if n != 0 {
      HitsMembers(w, start, n - 1);
    }
  }

  lemma {:induction false} HitsAscending(w: Work, start: u64, n: nat)
    requires start + n <= TWO64
    ensures Ascending(Hits(w, start, n))
    decreases n
  {
    hide Solves;
    if n != 0 {
      var front := Hits(w, start, n - 1);
      HitsAscending(w, start, n - 1);
      HitsMembers(w, start, n - 1);
      assert forall i :: 0 <= i < |front| ==> front[i] in front;
    }
  }

  /** The scalar loop. */
  method CpuScan(w: Work, start: u64, count: u32) returns (r: Result<seq<u64>>)
    ensures r == if InRange(start, count) then Success(Hits(w, start, count)) else Failure
  {
    hide HashOf, Meets;
    if !InRange(start, count) {
      return Failure;
    }
    var nonces: seq<u64> := [];
    var h := w.header;
    for i := 0 to count
      invariant |h| == 80 && WithNonce(h, 0) == WithNonce(w.header, 0)
      invariant nonces == Hits(w, start, i)
    {
      h := PutNonce(h, w.header, start + i);
      var digest := Blake2b256(h);
      if Meets(digest.value, w.target) {
        nonces := nonces + [start + i];
      }
    }
    return Success(nonces);
  }

  /** Overwrite bytes 32 to 40 of a header that differs from h at most there. */
  method PutNonce(header: Header, ghost h: Header, nonce: u64) returns (r: Header)
    requires WithNonce(header, 0) == WithNonce(h, 0)
    ensures r == WithNonce(h, nonce) && WithNonce(r, 0) == WithNonce(h, 0)
  {
    hide LeBytes;
    var b := StoreLe(nonce);
    r := header[..32] + b + header[40..];
    assert header[..32] == WithNonce(header, 0)[..32] == WithNonce(h, 0)[..32] == h[..32];
    assert header[40..] == WithNonce(header, 0)[40..] == WithNonce(h, 0)[40..] == h[40..];
  }

  // ---------- The words of a header hash ----------

  function HeaderWords(h: Header): (m: seq<u64>)
    ensures |m| == 16
  {
    Words(Pad(h))
  }

  function HashWords(h: Header): (d: seq<u64>)
    ensures |d| == 8
  {
    Absorb(Initial(), h, 0)
  }

  /** Only message word 4 depends on the nonce. */
  lemma NonceIsWordFour(h: Header, nonce: u64)
    ensures HeaderWords(WithNonce(h, nonce)) == HeaderWords(h)[4 := nonce]
  {
    hide Le, LeBytes, Pow256;
    var a, b := Pad(WithNonce(h, nonce)), Pad(h);
    Pow256Values();
    LeOfLeBytes(nonce, 8);
    assert a[32..40] == LeBytes(nonce, 8);
    forall i | 0 <= i < 16 && i != 4 ensures a[8 * i..8 * i + 8] == b[8 * i..8 * i + 8] {
    }
  }

  lemma HeaderHash(h: Header, nonce: u64)
    ensures HashWords(WithNonce(h, nonce))
         == Fold(Initial(), Rounds(Mix, OneBlockVector(80), HeaderWords(h)[4 := nonce], ROUNDS))
  {
    hide Rounds;
    NonceIsWordFour(h, nonce);
    OneBlock(WithNonce(h, nonce));
  }

  /** The first eight digest bytes are the first hash word, little-endian. */
  lemma {:induction false} LeadingWord(h: seq<u64>)
    requires |h| >= 4
    ensures Digest(h)[..8] == LeBytes(h[0], 8)
  {
    hide LeBytes;
    assert FirstWords(h, 1) == FirstWords(h, 0) + LeBytes(h[0], 8);
    assert FirstWords(h, 2)[..8] == FirstWords(h, 1);
    assert FirstWords(h, 3)[..8] == FirstWords(h, 2)[..8];
    assert FirstWords(h, 4)[..8] == FirstWords(h, 3)[..8];
  }

  /** Byte reversal of a word. */
  function ByteSwap(x: u64): u64 {
    Pow256Values();
    Le(Reverse(LeBytes(x, 8)))
  }

  function TargetTop(target: Hash): u64 {
    Pow256Values();
    Be(target[..8])
  }

  /** The devices' test on one word. */
  predicate Prefilter(w: Work, nonce: u64) {
    ByteSwap(HashWords(WithNonce(w.header, nonce))[0]) <= TargetTop(w.target)
  }

  /** The devices compare the leading 64 bits of the hash with those of the target. */
  lemma PrefilterMeaning(w: Work, nonce: u64)
    ensures ByteSwap(HashWords(WithNonce(w.header, nonce))[0]) == Be(HashOf(WithNonce(w.header, nonce))[..8])
    ensures Solves(w, nonce) ==> Prefilter(w, nonce)
  {
    hide Absorb, LeBytes, Be, Le;
    var words := HashWords(WithNonce(w.header, nonce));
    LeadingWord(words);
    var b := LeBytes(words[0], 8);
    BeOfReverse(Reverse(b));
    ReverseTwice(b);
    if Solves(w, nonce) {
      PrefilterSound(HashOf(WithNonce(w.header, nonce)), w.target);
    }
  }
}
