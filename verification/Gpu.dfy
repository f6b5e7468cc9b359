/**
  The GPU backends. Device arithmetic differs from the oracle in how it rotates and in starting
  from a partly mixed state; results come back through an atomic counter in no fixed order.
 */
module Gpu {
  import opened Base
  import opened Bits
  import opened Blake2b
  import opened RoundLaws
  import opened Scan

  const CAPACITY := 4096

  datatype Rotation = Shifts | Halves

  function Rotate(r: Rotation, x: u64, n: nat): u64
    requires 0 < n < 64
  {
    match r
    case Shifts => ShiftsRotate(x, n); Or(Shr(x, n), Shl(x, 64 - n))
    case Halves => HalvesRotate(x, n)
  }

  /** The device form of one mix. */
  function MixBy(r: Rotation, a: u64, b: u64, c: u64, d: u64, x: u64, y: u64): Quad<u64> {
    var a := Add(Add(a, b), x);
    var d := Rotate(r, Xor64(d, a), 32);
    var c := Add(c, d);
    var b := Rotate(r, Xor64(b, c), 24);
    var a := Add(Add(a, b), y);
    var d := Rotate(r, Xor64(d, a), 16);
    var c := Add(c, d);
    var b := Rotate(r, Xor64(b, c), 63);
    Quad(a, b, c, d)
  }

  function DeviceMix(r: Rotation): Mixer<u64> {
    (a: u64, b: u64, c: u64, d: u64, x: u64, y: u64) => MixBy(r, a, b, c, d, x, y)
  }

  lemma RotateIsRotr(r: Rotation, x: u64)
    ensures Rotate(r, x, 32) == Rotr(x, 32) && Rotate(r, x, 24) == Rotr(x, 24)
    ensures Rotate(r, x, 16) == Rotr(x, 16) && Rotate(r, x, 63) == Rotr(x, 63)
  {
    hide Rotr, Or, Shl, Shr, HalvesRotate;
    ShiftsRotate(x, 32);
    ShiftsRotate(x, 24);
    ShiftsRotate(x, 16);
    ShiftsRotate(x, 63);
    HalvesRotateIsRotr(x);
  }

  /** Both device rotations give the mixing function of the standard. */
  lemma MixesAgree(r: Rotation, a: u64, b: u64, c: u64, d: u64, x: u64, y: u64)
    ensures MixBy(r, a, b, c, d, x, y) == Mix(a, b, c, d, x, y)
  {
    hide Rotate, Rotr, Xor64, Add;
    var a1 := Add(Add(a, b), x);
    RotateIsRotr(r, Xor64(d, a1));
    var d1 := Rotr(Xor64(d, a1), 32);
    var c1 := Add(c, d1);
    RotateIsRotr(r, Xor64(b, c1));
    var b1 := Rotr(Xor64(b, c1), 24);
    var a2 := Add(Add(a1, b1), y);
    RotateIsRotr(r, Xor64(d1, a2));
    var d2 := Rotr(Xor64(d1, a2), 16);
    var c2 := Add(c1, d2);
    RotateIsRotr(r, Xor64(b1, c2));
  }

  lemma DeviceMixIsMix(r: Rotation)
    ensures Homomorphic(Identity, DeviceMix(r), Mix)
  {
    hide MixBy, Mix;
    forall a: u64, b: u64, c: u64, d: u64, x: u64, y: u64
      ensures Projects(Identity, DeviceMix(r), Mix, a, b, c, d, x, y)
    {
      MixesAgree(r, a, b, c, d, x, y);
    }
  }

  // ---------- Hashing on the device ----------

  datatype Params = Params(m: seq<u64>, target: u64, initial: seq<u64>)

  /** What the host uploads for a job. */
  function ParamsOf(w: Work): (p: Params)
    ensures |p.m| == 10 && |p.initial| == 16
  {
    Params(HeaderWords(w.header)[..10], TargetTop(w.target),
           Hoisted(Mix, OneBlockVector(80), HeaderWords(w.header)))
  }

  lemma TailWordsAreZero(h: Header)
    ensures forall i :: 10 <= i < 16 ==> HeaderWords(h)[i] == 0
  {
    hide Le;
    LeOfZeros(8);
    forall i | 10 <= i < 16 ensures HeaderWords(h)[i] == 0 {
      assert Pad(h)[8 * i..8 * i + 8] == Zeros(8);
    }
  }

  lemma {:induction false} LeOfZeros(n: nat)
    ensures Le(Zeros(n)) == 0
  {
    if n != 0 {
      LeOfZeros(n - 1);
      assert Zeros(n)[1..] == Zeros(n - 1);
    }
  }

  /** A kernel variant: how it rotates, whether it starts from the uploaded state, how it forms the nonce. */
  datatype Variant = Variant(rotation: Rotation, precompute: bool, uniform: bool)

  predicate Uploaded(p: Params) {
    |p.m| == 10 && |p.initial| == 16
  }

  /** The message block of a thread: the uploaded words, its nonce as word 4, zeros. */
  function DeviceMessage(p: Params, nonce: u64): (m: seq<u64>)
    requires Uploaded(p)
    ensures |m| == 16
  {
    (p.m + Zeros64(6))[4 := nonce]
  }

  /** The column step of round n; in round 0 of a precomputing variant only the third column is left to do. */
  function DeviceColumns(p: Params, k: Variant, n: nat, v: seq<u64>, m: seq<u64>): (c: seq<u64>)
    requires Uploaded(p) && |v| == 16 && |m| == 16
    ensures |c| == 16
  {
    var g, s := DeviceMix(k.rotation), Sigma(n % 10);
    if k.precompute && n == 0 then At(g, p.initial, 2, 6, 10, 14, m[s[4]], m[s[5]]) else Columns(g, v, m, s)
  }

  function DeviceRounds(p: Params, k: Variant, m: seq<u64>, n: nat): (v: seq<u64>)
    requires Uploaded(p) && |m| == 16
    ensures |v| == 16
  {
    if n == 0 then OneBlockVector(80)
    else
      Diagonals(DeviceMix(k.rotation), DeviceColumns(p, k, n - 1, DeviceRounds(p, k, m, n - 1), m), m,
                Sigma((n - 1) % 10))
  }

  /** One output word; the device folds the parameter word in last. */
  function DeviceWord(v: seq<u64>, i: nat): u64
    requires |v| == 16 && i < 4
  {
    Xor64(Xor64(Xor64(IV()[i], v[i]), v[i + 8]), if i == 0 then PARAMETER else 0)
  }

  /** What a device thread computes for a nonce, in terms of the uploaded parameters alone. */
  function DeviceWords(p: Params, k: Variant, nonce: u64): (out: seq<u64>)
    requires Uploaded(p)
    ensures |out| == 4
  {
    var v := DeviceRounds(p, k, DeviceMessage(p, nonce), ROUNDS);
    [DeviceWord(v, 0), DeviceWord(v, 1), DeviceWord(v, 2), DeviceWord(v, 3)]
  }

  /** One thread's hash: four words, from the uploaded parameters and a nonce. */
  method Hash80(p: Params, k: Variant, nonce: u64) returns (out: seq<u64>)
    requires Uploaded(p)
    ensures out == DeviceWords(p, k, nonce)
  {
    hide At, Columns, Diagonals, DeviceMix, DeviceColumns, OneBlockVector, Sigma, DeviceWord;
    var m := (p.m + Zeros64(6))[4 := nonce];
    var v := OneBlockVector(80);
    for n := 0 to ROUNDS
      invariant v == DeviceRounds(p, k, m, n)
    {
      v := MixColumns(p, k, n, v, m);
      v := Diagonals(DeviceMix(k.rotation), v, m, Sigma(n % 10));
    }
    hide DeviceRounds;
    out := [];
    for i := 0 to 4
      invariant out == DeviceWords(p, k, nonce)[..i]
    {
      out := out + [DeviceWord(v, i)];
    }
  }

  method MixColumns(p: Params, k: Variant, n: nat, v: seq<u64>, m: seq<u64>) returns (c: seq<u64>)
    requires Uploaded(p) && |v| == 16 && |m| == 16
    ensures c == DeviceColumns(p, k, n, v, m)
  {
    hide At, DeviceMix;
    var g, s := DeviceMix(k.rotation), Sigma(n % 10);
    if k.precompute && n == 0 {
      return At(g, p.initial, 2, 6, 10, 14, m[s[4]], m[s[5]]);
    }
    c := At(g, v, 0, 4, 8, 12, m[s[0]], m[s[1]]);
    c := At(g, c, 1, 5, 9, 13, m[s[2]], m[s[3]]);
    c := At(g, c, 2, 6, 10, 14, m[s[4]], m[s[5]]);
    c := At(g, c, 3, 7, 11, 15, m[s[6]], m[s[7]]);
  }

  /** The host fills the parameters word by word and mixes three columns in place. */
  method BuildParams(w: Work) returns (p: Params)
    ensures p == ParamsOf(w)
  {
    hide At, HeaderWords, OneBlockVector, Initial;
    var m := HeaderWords(w.header);
    var h, v := new u64[8], new u64[16];
    StartVector(80, h, v);
    MixAt(v, 0, 4, 8, 12, m[0], m[1]);
    MixAt(v, 1, 5, 9, 13, m[2], m[3]);
    MixAt(v, 3, 7, 11, 15, m[6], m[7]);
    p := Params(m[..10], TargetTop(w.target), v[..]);
  }

  function Zeros64(n: nat): (z: seq<u64>)
    ensures |z| == n
  {
    seq(n, i => 0)
  }

  lemma MessageWords(w: Work, nonce: u64)
    ensures DeviceMessage(ParamsOf(w), nonce) == HeaderWords(w.header)[4 := nonce]
  {
    hide HeaderWords, Hoisted, OneBlockVector, Be;
    TailWordsAreZero(w.header);
  }

  /** The host mixes with the standard rotation, the device with its own. */
  lemma SameHoisted(r: Rotation, v: seq<u64>, m: seq<u64>)
    requires |v| == 16 && |m| == 16
    ensures Hoisted(Mix, v, m) == Hoisted(DeviceMix(r), v, m)
  {
    hide At, Homomorphic, Mix;
    var g := DeviceMix(r);
    DeviceMixIsMix(r);
    var v1 := At(g, v, 0, 4, 8, 12, m[0], m[1]);
    var v2 := At(g, v1, 1, 5, 9, 13, m[2], m[3]);
    SameAt(g, v, 0, 4, 8, 12, m[0], m[1]);
    SameAt(g, v1, 1, 5, 9, 13, m[2], m[3]);
    SameAt(g, v2, 3, 7, 11, 15, m[6], m[7]);
  }

  lemma SameAt(g: Mixer<u64>, v: seq<u64>, a: nat, b: nat, c: nat, d: nat, x: u64, y: u64)
    requires Homomorphic(Identity, g, Mix) && |v| == 16 && a < 4 <= b < 8 <= c < 12 <= d < 16
    ensures At(g, v, a, b, c, d, x, y) == At(Mix, v, a, b, c, d, x, y)
  {
    hide Mix;
    assert Projects(Identity, g, Mix, v[a], v[b], v[c], v[d], x, y);
  }

  lemma ParameterLast(h: u64, x: u64, y: u64)
    ensures Xor64(Xor64(Xor64(h, x), y), PARAMETER) == Xor64(Xor64(Xor64(h, PARAMETER), x), y)
    ensures Xor64(Xor64(Xor64(h, x), y), 0) == Xor64(Xor64(h, x), y)
  {
    hide Xor;
    XorZero(Xor64(Xor64(h, x), y));
    XorAssoc(h, x, y);
    XorAssoc(h, Xor64(x, y), PARAMETER);
    XorComm(Xor64(x, y), PARAMETER);
    XorAssoc(h, PARAMETER, Xor64(x, y));
    XorAssoc(Xor64(h, PARAMETER), x, y);
  }

  /** Uploaded state and local rotation change nothing: the first column step is the reference one. */
  lemma FirstColumnsAgree(w: Work, k: Variant, nonce: u64)
    ensures var p := ParamsOf(w); var m := DeviceMessage(p, nonce);
            DeviceColumns(p, k, 0, OneBlockVector(80), m) == Columns(DeviceMix(k.rotation), OneBlockVector(80), m, Sigma(0))
  {
    hide At, HeaderWords, OneBlockVector, DeviceMix, Columns, DeviceMessage;
    var m := DeviceMessage(ParamsOf(w), nonce);
    MessageWords(w, nonce);
    SameHoisted(k.rotation, OneBlockVector(80), HeaderWords(w.header));
    HoistingSound(DeviceMix(k.rotation), OneBlockVector(80), m, HeaderWords(w.header));
    hide Hoisted;
  }

  lemma {:induction false} RoundsAgree(w: Work, k: Variant, nonce: u64, n: nat)
    ensures var p := ParamsOf(w); var m := DeviceMessage(p, nonce);
            DeviceRounds(p, k, m, n) == Rounds(DeviceMix(k.rotation), OneBlockVector(80), m, n)
  {
    hide Columns, Diagonals, DeviceMix, OneBlockVector, DeviceMessage, Sigma, ParamsOf;
    var m := DeviceMessage(ParamsOf(w), nonce);
    RoundStep(DeviceMix(k.rotation), OneBlockVector(80), m, 0);
    if n != 0 {
      RoundsAgree(w, k, nonce, n - 1);
      RoundStep(DeviceMix(k.rotation), OneBlockVector(80), m, n - 1);
      FirstColumnsAgree(w, k, nonce);
      hide Rounds;
    }
  }

  lemma WordAgrees(v: seq<u64>, i: nat)
    requires |v| == 16 && i < 4
    ensures DeviceWord(v, i) == Fold(Initial(), v)[i]
  {
    hide Xor, IV;
    ParameterLast(IV()[i], v[i], v[i + 8]);
  }

  /** Whatever the variant, a device thread computes the hash words of the header with its nonce. */
  lemma DeviceHash(w: Work, k: Variant, nonce: u64)
    ensures DeviceWords(ParamsOf(w), k, nonce) == HashWords(WithNonce(w.header, nonce))[..4]
  {
    hide DeviceRounds, Rounds, DeviceMix, OneBlockVector, Homomorphic, HeaderWords, HashWords, DeviceWord, Fold,
         Initial, ParamsOf, DeviceMessage;
    var m := DeviceMessage(ParamsOf(w), nonce);
    var v := DeviceRounds(ParamsOf(w), k, m, ROUNDS);
    RoundsAgree(w, k, nonce, ROUNDS);
    DeviceMixIsMix(k.rotation);
    SameRounds(DeviceMix(k.rotation), Mix, OneBlockVector(80), m, ROUNDS);
    MessageWords(w, nonce);
    HeaderHash(w.header, nonce);
    WordAgrees(v, 0);
    WordAgrees(v, 1);
    WordAgrees(v, 2);
    WordAgrees(v, 3);
  }

  // ---------- The scan kernel ----------

  /** One unit of device work: thread thread of block block, its k-th nonce. */
  datatype Item = Item(block: nat, k: nat, thread: nat)

  /** Launch geometry: threads per block, nonces per thread, and the range size. */
  datatype Grid = Grid(dim: nat, roll: nat, count: u32) {
    ghost predicate Valid() {
      dim > 0 && roll > 0 && count > 0
    }

    function Blocks(): nat
      requires dim > 0 && roll > 0
    {
      (count + roll * dim - 1) / (roll * dim)
    }

    ghost predicate Has(i: Item)
      requires Valid()
    {
      i.block < Blocks() && i.k < roll && i.thread < dim
    }
  }

  /** The offset an item works on: consecutive threads take consecutive offsets. */
  function Offset(g: Grid, i: Item): nat {
    i.block * (g.dim * g.roll) + i.thread + i.k * g.dim
  }

  function ItemOf(g: Grid, offset: nat): Item
    requires g.dim > 0 && g.roll > 0
  {
    var tile := g.dim * g.roll;
    QuotientIsNat(offset, tile);
    QuotientIsNat(offset % tile, g.dim);
    Item(offset / tile, (offset % tile) / g.dim, (offset % tile) % g.dim)
  }

  /** Every offset of the range belongs to exactly one item of the launch. */
  lemma OffsetsCovered(g: Grid, offset: nat)
    requires g.Valid() && offset < g.count
    ensures g.Has(ItemOf(g, offset)) && Offset(g, ItemOf(g, offset)) == offset
  {
    var tile := g.dim * g.roll;
    var i := ItemOf(g, offset);
    assert offset == i.block * tile + offset % tile;
    var rest := offset % tile;
    assert rest == i.k * g.dim + i.thread;
    assert rest < g.roll * g.dim;
    SwapDigits(rest, g.dim, g.roll);
    BlocksSuffice(g, offset, i.block);
  }

  lemma BlocksSuffice(g: Grid, offset: nat, block: nat)
    requires g.Valid() && offset < g.count && block * (g.dim * g.roll) <= offset
    ensures block < g.Blocks()
  {
    var tile := g.roll * g.dim;
    assert g.dim * g.roll == tile;
    var top := g.count + tile - 1;
    assert top == (top / tile) * tile + top % tile;
    assert g.Blocks() * tile > top - tile;
    assert block * tile < g.Blocks() * tile;
    LessFromProduct(block, g.Blocks(), tile);
  }

  lemma OffsetsUnique(g: Grid, i: Item, j: Item)
    requires g.Valid() && g.Has(i) && g.Has(j) && Offset(g, i) == Offset(g, j)
    ensures i == j
  {
    var tile := g.dim * g.roll;
    var x, y := i.k * g.dim + i.thread, j.k * g.dim + j.thread;
    InTile(g, i);
    InTile(g, j);
    SameDigits(i.block, x, j.block, y, tile);
    SameDigits(i.k, i.thread, j.k, j.thread, g.dim);
  }

  lemma InTile(g: Grid, i: Item)
    requires g.Valid() && g.Has(i)
    ensures i.k * g.dim + i.thread < g.dim * g.roll
  {
    LeadingDigitDecides(i.k, g.roll, g.dim, i.thread, 0);
  }

  /** The kernel keeps the high half of the nonce fixed when the range cannot cross a 2^32 boundary. */
  function NonceAt(start: u64, count: u32, offset: nat, uniform: bool): u64
    requires InRange(start, count) && offset < count
  {
    var low: u32 := start % 0x1_0000_0000;
    if uniform && low <= 0xffff_ffff - (count - 1)
    then (start - low) + (low + offset) % 0x1_0000_0000
    else start + offset
  }

  lemma NonceAtIsPlain(start: u64, count: u32, offset: nat, uniform: bool)
    requires InRange(start, count) && offset < count
    ensures NonceAt(start, count, offset, uniform) == start + offset
  {
  }

  datatype Buffer = Buffer(count: nat, nonces: seq<u64>)

  /** What one item offers to the counter: its nonce, if it lies in the range and its own hash word passes. */
  function DeviceOffer(p: Params, k: Variant, start: u64, g: Grid, i: Item): Option<u64>
    requires Uploaded(p) && InRange(start, g.count)
  {
    hide DeviceWords;
    if Offset(g, i) >= g.count then None
    else
      var nonce := NonceAt(start, g.count, Offset(g, i), k.uniform);
      if ByteSwap(DeviceWords(p, k, nonce)[0]) <= p.target then Some(nonce) else None
  }

  function DeviceOffers(p: Params, k: Variant, start: u64, g: Grid, order: seq<Item>): (o: seq<Option<u64>>)
    requires Uploaded(p) && InRange(start, g.count)
    ensures |o| == |order|
  {
    seq(|order|, n requires 0 <= n < |order| => DeviceOffer(p, k, start, g, order[n]))
  }

  /** One item of the kernel, up to its visit to the counter. */
  method KernelItem(p: Params, k: Variant, start: u64, g: Grid, i: Item) returns (o: Option<u64>)
    requires Uploaded(p) && InRange(start, g.count)
    ensures o == DeviceOffer(p, k, start, g, i)
  {
    hide DeviceWords;
    var offset := Offset(g, i);
    if offset >= g.count {
      return None;
    }
    var nonce := NonceAt(start, g.count, offset, k.uniform);
    var h := Hash80(p, k, nonce);
    o := if ByteSwap(h[0]) <= p.target then Some(nonce) else None;
  }

  /** The same with the hash of the oracle. */
  function Offer(w: Work, start: u64, g: Grid, i: Item, uniform: bool): Option<u64>
    requires InRange(start, g.count)
  {
    if Offset(g, i) >= g.count then None
    else
      var nonce := NonceAt(start, g.count, Offset(g, i), uniform);
      if Prefilter(w, nonce) then Some(nonce) else None
  }

  function Offers(w: Work, start: u64, g: Grid, order: seq<Item>, uniform: bool): (o: seq<Option<u64>>)
    requires InRange(start, g.count)
    ensures |o| == |order|
  {
    seq(|order|, n requires 0 <= n < |order| => Offer(w, start, g, order[n], uniform))
  }

  lemma DeviceOfferAgrees(w: Work, k: Variant, start: u64, g: Grid, i: Item)
    requires InRange(start, g.count)
    ensures DeviceOffer(ParamsOf(w), k, start, g, i) == Offer(w, start, g, i, k.uniform)
  {
    hide DeviceWords, HashWords, Offset, NonceAt, ByteSwap, TargetTop, Hoisted, HeaderWords, OneBlockVector,
         WithNonce;
    if Offset(g, i) < g.count {
      DeviceHash(w, k, NonceAt(start, g.count, Offset(g, i), k.uniform));
    }
  }

  /** The device offers exactly what the oracle would. */
  lemma DeviceOffersAgree(w: Work, k: Variant, start: u64, g: Grid, order: seq<Item>)
    requires InRange(start, g.count)
    ensures DeviceOffers(ParamsOf(w), k, start, g, order) == Offers(w, start, g, order, k.uniform)
  {
    hide DeviceOffer, Offer, ParamsOf;
    forall n | 0 <= n < |order|
      ensures DeviceOffer(ParamsOf(w), k, start, g, order[n]) == Offer(w, start, g, order[n], k.uniform)
    {
      DeviceOfferAgrees(w, k, start, g, order[n]);
    }
  }

  /** The hit buffer after the offers, in the order in which they reach the atomic counter. */
  function Execute(offers: seq<Option<u64>>): (b: Buffer)
    ensures |b.nonces| == CAPACITY
  {
    if offers == [] then Buffer(0, Zeros64(CAPACITY))
    else
      var b := Execute(offers[..|offers| - 1]);
      match offers[|offers| - 1]
      case None => b
      case Some(nonce) =>
        Buffer(b.count + 1, if b.count < CAPACITY then b.nonces[b.count := nonce] else b.nonces)
  }

  function Reported(offers: seq<Option<u64>>): seq<u64> {
    if offers == [] then []
    else
      Reported(offers[..|offers| - 1])
      + match offers[|offers| - 1] case None => [] case Some(nonce) => [nonce]
  }

  /** The counter counts every report and the buffer keeps the first 4096. */
  lemma {:induction false} BufferHoldsReported(offers: seq<Option<u64>>)
    ensures var b, r := Execute(offers), Reported(offers);
            b.count == |r| && b.nonces[..Min(b.count, CAPACITY)] == r[..Min(b.count, CAPACITY)]
  {
    if offers != [] {
      BufferHoldsReported(offers[..|offers| - 1]);
    }
  }

  ghost predicate Distinct(s: seq<u64>) {
    forall i, j :: 0 <= i < j < |s| ==> s[i] != s[j]
  }

  ghost predicate NoRepeat(offers: seq<Option<u64>>) {
    forall n, m :: 0 <= n < m < |offers| && offers[n].Some? ==> offers[n] != offers[m]
  }

  lemma {:induction false} ReportedElements(offers: seq<Option<u64>>)
    ensures forall x :: x in Reported(offers) <==> Some(x) in offers
    ensures NoRepeat(offers) ==> Distinct(Reported(offers))
  {
    if offers != [] {
      var front, last := offers[..|offers| - 1], offers[|offers| - 1];
      ReportedElements(front);
      assert offers == front + [last];
      if NoRepeat(offers) && last.Some? {
        assert last !in front;
        var r := Reported(front);
        assert forall i :: 0 <= i < |r| ==> r[i] in r;
      }
    }
  }

  // ---------- Every order of arrival ----------

  /** Each item of the launch runs exactly once, in any order. */
  ghost predicate Schedule(g: Grid, order: seq<Item>)
    requires g.Valid()
  {
    && (forall n :: 0 <= n < |order| ==> g.Has(order[n]))
    && (forall i :: g.Has(i) ==> i in order)
    && (forall n, m :: 0 <= n < m < |order| ==> order[n] != order[m])
  }

  ghost predicate Candidate(w: Work, start: u64, count: u32, x: u64) {
    start <= x < start + count && Prefilter(w, x)
  }

  lemma OffersMeaning(w: Work, start: u64, g: Grid, order: seq<Item>, uniform: bool)
    requires g.Valid() && InRange(start, g.count) && Schedule(g, order)
    ensures forall x: u64 :: Some(x) in Offers(w, start, g, order, uniform) <==> Candidate(w, start, g.count, x)
    ensures NoRepeat(Offers(w, start, g, order, uniform))
  {
    hide Prefilter, NonceAt, Offset, ItemOf;
    var offers := Offers(w, start, g, order, uniform);
    forall n | 0 <= n < |order|
      ensures offers[n].Some? <==> Offset(g, order[n]) < g.count && Prefilter(w, start + Offset(g, order[n]))
      ensures offers[n].Some? ==> offers[n].value == start + Offset(g, order[n])
    {
      if Offset(g, order[n]) < g.count {
        NonceAtIsPlain(start, g.count, Offset(g, order[n]), uniform);
      }
    }
    forall x: u64 | Candidate(w, start, g.count, x) ensures Some(x) in offers {
      OffsetsCovered(g, x - start);
      var n :| 0 <= n < |order| && order[n] == ItemOf(g, x - start);
      assert offers[n] == Some(x);
    }
    forall n, m | 0 <= n < m < |offers| && offers[n].Some? ensures offers[n] != offers[m] {
      if offers[n] == offers[m] {
        OffsetsUnique(g, order[n], order[m]);
      }
    }
  }

  /**
    Whatever the variant and the order, the buffer holds exactly the candidates, each once, unless it
    overflowed.
   */
  lemma KernelResult(w: Work, k: Variant, start: u64, g: Grid, order: seq<Item>) returns (reported: seq<u64>)
    requires g.Valid() && InRange(start, g.count) && Schedule(g, order)
    ensures Distinct(reported)
    ensures forall x :: x in reported <==> Candidate(w, start, g.count, x)
    ensures var b := Execute(DeviceOffers(ParamsOf(w), k, start, g, order));
            b.count == |reported| && (b.count <= 4096 ==> b.nonces[..b.count] == reported)
  {
    hide Candidate, Offers, DeviceOffers, Execute, ParamsOf, Schedule;
    var offers := DeviceOffers(ParamsOf(w), k, start, g, order);
    reported := Reported(offers);
    DeviceOffersAgree(w, k, start, g, order);
    OffersMeaning(w, start, g, order, k.uniform);
    ReportedElements(offers);
    BufferHoldsReported(offers);
  }

  // ---------- The host re-check ----------

  function Solving(w: Work, s: seq<u64>): seq<u64> {
    if s == [] then []
    else Solving(w, s[..|s| - 1]) + if Solves(w, s[|s| - 1]) then [s[|s| - 1]] else []
  }

  lemma {:induction false} SolvingElements(w: Work, s: seq<u64>)
    ensures forall x :: x in Solving(w, s) <==> x in s && Solves(w, x)
    ensures Distinct(s) ==> Distinct(Solving(w, s))
  {
    hide Solves;
    if s != [] {
      var front, last := s[..|s| - 1], s[|s| - 1];
      SolvingElements(w, front);
      assert s == front + [last];
      if Distinct(s) {
        assert last !in front;
        var r := Solving(w, front);
        assert forall i :: 0 <= i < |r| ==> r[i] in r;
      }
    }
  }

  lemma SolvingStep(w: Work, s: seq<u64>, i: nat)
    requires i < |s|
    ensures Solving(w, s[..i + 1]) == Solving(w, s[..i]) + if Solves(w, s[i]) then [s[i]] else []
  {
    hide Solves;
    assert s[..i + 1][..i] == s[..i];
  }

  lemma SolvingNone(w: Work)
    ensures Solving(w, []) == []
  {
    hide Solves;
  }

  lemma {:induction false} DistinctMultiset(s: seq<u64>)
    requires Distinct(s)
    ensures forall x :: multiset(s)[x] == if x in s then 1 else 0
  {
    if s != [] {
      var front, last := s[..|s| - 1], s[|s| - 1];
      DistinctMultiset(front);
      assert s == front + [last];
      assert last !in front;
    }
  }

  /** Keeping the solving candidates of a complete report gives the hits of the range. */
  lemma RecheckGivesHits(w: Work, start: u64, count: u32, reported: seq<u64>)
    requires InRange(start, count) && Distinct(reported)
    requires forall x :: x in reported <==> Candidate(w, start, count, x)
    ensures Distinct(Solving(w, reported))
    ensures forall x :: x in Solving(w, reported) <==> x in Hits(w, start, count)
    ensures multiset(Solving(w, reported)) == multiset(Hits(w, start, count))
  {
    hide Solves, Prefilter, Solving, Hits;
    var r, h := Solving(w, reported), Hits(w, start, count);
    SolvingElements(w, reported);
    HitsMembers(w, start, count);
    HitsAscending(w, start, count);
    forall x | x in h ensures x in r {
      PrefilterMeaning(w, x);
    }
    DistinctMultiset(r);
    DistinctMultiset(h);
  }

  /** The CUDA host loop over a finished buffer. */
  method CudaCollect(w: Work, start: u64, g: Grid, ghost k: Variant, ghost order: seq<Item>, b: Buffer)
    returns (r: Result<seq<u64>>)
    requires g.Valid() && InRange(start, g.count) && Schedule(g, order)
    requires b == Execute(DeviceOffers(ParamsOf(w), k, start, g, order))
    ensures b.count > 4096 <==> r.Failure?
    ensures r.Success? ==> multiset(r.value) == multiset(Hits(w, start, g.count))
  {
    hide Candidate, HashOf, Meets, Execute, DeviceOffers, ParamsOf, Hits, Solving, Schedule;
    ghost var reported := KernelResult(w, k, start, g, order);
    if b.count > CAPACITY {
      return Failure;
    }
    RecheckGivesHits(w, start, g.count, reported);
    var nonces: seq<u64> := [];
    SolvingNone(w);
    assert reported[..0] == [];
    for i := 0 to b.count
      invariant nonces == Solving(w, reported[..i])
    {
      var n := b.nonces[i];
      assert n == reported[i] && n in reported;
      SolvingStep(w, reported, i);
      var digest := Blake2b256(WithNonce(w.header, n));
      CandidateTop(w, start, g.count, n);
      if Be(digest.value[..8]) > TargetTop(w.target) {
        return Failure;
      }
      if Meets(digest.value, w.target) {
        nonces := nonces + [n];
      }
    }
    assert reported[..b.count] == reported;
    return Success(nonces);
  }

  /** The host's re-check of a candidate never fails. */
  lemma CandidateTop(w: Work, start: u64, count: u32, x: u64)
    requires Candidate(w, start, count, x)
    ensures Be(HashOf(WithNonce(w.header, x))[..8]) <= TargetTop(w.target)
  {
    PrefilterMeaning(w, x);
  }

  // ---------- Sorting ----------

  function Insert(x: u64, s: seq<u64>): (r: seq<u64>)
    ensures multiset(r) == multiset(s) + multiset{x}
  {
    if s == [] then [x]
    else if x <= s[0] then [x] + s
    else
      assert s == [s[0]] + s[1..];
      [s[0]] + Insert(x, s[1..])
  }

  function Sort(s: seq<u64>): (r: seq<u64>)
    ensures multiset(r) == multiset(s)
  {
    if s == [] then []
    else
      assert s == [s[0]] + s[1..];
      Insert(s[0], Sort(s[1..]))
  }

  ghost predicate Ordered(s: seq<u64>) {
    forall i, j :: 0 <= i < j < |s| ==> s[i] <= s[j]
  }

  lemma {:induction false} InsertOrdered(x: u64, s: seq<u64>)
    requires Ordered(s)
    ensures Ordered(Insert(x, s))
  {
    if s != [] && x > s[0] {
      var tail := s[1..];
      InsertOrdered(x, tail);
      var r := Insert(x, tail);
      forall i | 0 <= i < |r| ensures s[0] <= r[i] {
        assert r[i] in multiset(r);
        assert r[i] == x || r[i] in tail;
      }
    }
  }

  lemma {:induction false} SortOrdered(s: seq<u64>)
    ensures Ordered(Sort(s))
  {
    if s != [] {
      SortOrdered(s[1..]);
      InsertOrdered(s[0], Sort(s[1..]));
    }
  }

  lemma LastIsLargest(s: seq<u64>, x: u64)
    requires Ordered(s) && x in s
    ensures x <= s[|s| - 1]
  {
  }

  lemma DropLast(s: seq<u64>)
    requires s != []
    ensures multiset(s[..|s| - 1]) == multiset(s) - multiset{s[|s| - 1]}
  {
    assert s == s[..|s| - 1] + [s[|s| - 1]];
  }

  lemma LastsAgree(s: seq<u64>, t: seq<u64>)
    requires Ordered(s) && Ordered(t) && multiset(s) == multiset(t) && s != []
    ensures |s| == |t| && s[|s| - 1] == t[|s| - 1]
  {
    hide Ordered;
    assert |s| == |multiset(s)| == |multiset(t)| == |t|;
    var n := |s| - 1;
    assert s[n] in multiset(t) && t[n] in multiset(s);
    LastIsLargest(t, s[n]);
    LastIsLargest(s, t[n]);
  }

  lemma DropBoth(s: seq<u64>, t: seq<u64>)
    requires multiset(s) == multiset(t) && s != [] && |s| == |t| && s[|s| - 1] == t[|s| - 1]
    ensures multiset(s[..|s| - 1]) == multiset(t[..|t| - 1])
  {
    DropLast(s);
    DropLast(t);
  }

  lemma JoinLast(s: seq<u64>, t: seq<u64>)
    requires s != [] && |s| == |t| && s[|s| - 1] == t[|s| - 1] && s[..|s| - 1] == t[..|t| - 1]
    ensures s == t
  {
    assert s == s[..|s| - 1] + [s[|s| - 1]] && t == t[..|t| - 1] + [t[|t| - 1]];
  }

  lemma FrontOrdered(s: seq<u64>)
    requires s != [] && Ordered(s)
    ensures Ordered(s[..|s| - 1])
  {
  }

  /** An ordered list is determined by its elements. */
  lemma {:induction false} SortedIsUnique(s: seq<u64>, t: seq<u64>)
    requires Ordered(s) && Ordered(t) && multiset(s) == multiset(t)
    ensures s == t
    decreases |s|
  {
    hide Ordered;
    if s == [] {
      assert |t| == |multiset(t)| == 0;
    } else {
      LastsAgree(s, t);
      DropBoth(s, t);
      FrontOrdered(s);
      FrontOrdered(t);
      SortedIsUnique(s[..|s| - 1], t[..|t| - 1]);
      JoinLast(s, t);
    }
  }

  lemma NextLarger(nonces: seq<u64>, i: nat)
    requires 0 < i < |Sort(nonces)| && Ascending(Sort(nonces)[..i]) && Sort(nonces)[i - 1] != Sort(nonces)[i]
    ensures Ascending(Sort(nonces)[..i + 1])
  {
    SortOrdered(nonces);
    hide Sort;
    var s := Sort(nonces);
    assert s[..i + 1] == s[..i] + [s[i]];
    assert s[i - 1] <= s[i];
    assert forall k :: 0 <= k < i - 1 ==> s[..i][k] < s[..i][i - 1];
  }

  lemma ShortAscends(s: seq<u64>)
    ensures Ascending(s[..Min(1, |s|)])
  {
  }

  lemma EqualNeighbours(s: seq<u64>, i: nat)
    requires 0 < i < |s| && s[i - 1] == s[i]
    ensures !Ascending(s)
  {
  }

  /** Sort the results and look for equal neighbours: it fails exactly when there are duplicates. */
  method SortAndCheck(nonces: seq<u64>) returns (r: Result<seq<u64>>)
    ensures r.Success? <==> Ascending(Sort(nonces))
    ensures r.Success? ==> r.value == Sort(nonces)
  {
    hide Sort, Ascending;
    var sorted := Sort(nonces);
    ShortAscends(sorted);
    var i := 1;
    while i < |sorted|
      invariant 0 < i
      invariant Ascending(sorted[..Min(i, |sorted|)])
    {
      if sorted[i - 1] == sorted[i] {
        EqualNeighbours(sorted, i);
        return Failure;
      }
      NextLarger(nonces, i);
      i := i + 1;
    }
    assert sorted[..|sorted|] == sorted;
    return Success(sorted);
  }

  /** The OpenCL host loop: range check, re-check, sort, duplicate check. */
  method OpenClCollect(w: Work, start: u64, g: Grid, ghost k: Variant, ghost order: seq<Item>, b: Buffer)
    returns (r: Result<seq<u64>>)
    requires g.Valid() && InRange(start, g.count) && Schedule(g, order)
    requires b == Execute(DeviceOffers(ParamsOf(w), k, start, g, order))
    ensures r == if b.count > 4096 then Failure else Success(Hits(w, start, g.count))
  {
    hide Candidate, HashOf, Meets, Execute, DeviceOffers, ParamsOf, Hits, Sort, Solving, Schedule;
    ghost var reported := KernelResult(w, k, start, g, order);
    if b.count > CAPACITY {
      return Failure;
    }
    RecheckGivesHits(w, start, g.count, reported);
    var nonces: seq<u64> := [];
    SolvingNone(w);
    assert reported[..0] == [];
    for i := 0 to b.count
      invariant nonces == Solving(w, reported[..i])
    {
      var n := b.nonces[i];
      assert n == reported[i] && n in reported;
      SolvingStep(w, reported, i);
      CandidateInRange(w, start, g.count, n);
      if n < start || n - start >= g.count {
        return Failure;
      }
      var digest := Blake2b256(WithNonce(w.header, n));
      CandidateTop(w, start, g.count, n);
      if Be(digest.value[..8]) > TargetTop(w.target) {
        return Failure;
      }
      if Meets(digest.value, w.target) {
        nonces := nonces + [n];
      }
    }
    assert reported[..b.count] == reported;
    SortOrdered(nonces);
    HitsAscending(w, start, g.count);
    SortedIsUnique(Sort(nonces), Hits(w, start, g.count));
    r := SortAndCheck(nonces);
  }

  lemma CandidateInRange(w: Work, start: u64, count: u32, x: u64)
    requires Candidate(w, start, count, x)
    ensures start <= x < start + count
  {
  }

  /**
    A whole CUDA scan: for every launch geometry and every order in which the device's items reach the
    atomic counter, the result is the hits of the range, each once; it fails exactly on an invalid range
    or when more candidates were counted than the buffer holds.
   */
  method CudaScan(w: Work, start: u64, g: Grid, ghost k: Variant, ghost order: seq<Item>, b: Buffer)
    returns (r: Result<seq<u64>>)
    requires g.dim > 0 && g.roll > 0
    requires InRange(start, g.count) ==> Schedule(g, order) && b == Execute(DeviceOffers(ParamsOf(w), k, start, g, order))
    ensures r.Failure? <==> !InRange(start, g.count) || b.count > 4096
    ensures r.Success? ==> multiset(r.value) == multiset(Hits(w, start, g.count))
  {
    hide DeviceOffers, ParamsOf, Execute, Schedule, Hits;
    if !InRange(start, g.count) {
      return Failure;
    }
    r := CudaCollect(w, start, g, k, order, b);
  }

  /** A whole OpenCL scan, one nonce per item: exactly the ascending list of the scalar loop. */
  method OpenClScan(w: Work, start: u64, g: Grid, ghost k: Variant, ghost order: seq<Item>, b: Buffer)
    returns (r: Result<seq<u64>>)
    requires g.dim > 0 && g.roll > 0
    requires InRange(start, g.count) ==> Schedule(g, order) && b == Execute(DeviceOffers(ParamsOf(w), k, start, g, order))
    ensures r == if !InRange(start, g.count) || b.count > 4096 then Failure
                 else Success(Hits(w, start, g.count))
  {
    hide DeviceOffers, ParamsOf, Execute, Schedule, Hits;
    if !InRange(start, g.count) {
      return Failure;
    }
    r := OpenClCollect(w, start, g, k, order, b);
  }

  /** The buffer overflows exactly when the range holds more than 4096 candidates. */
  lemma OverflowMeansCandidates(w: Work, k: Variant, start: u64, g: Grid, order: seq<Item>) returns (all: set<u64>)
    requires g.Valid() && InRange(start, g.count) && Schedule(g, order)
    ensures forall x: u64 :: x in all <==> Candidate(w, start, g.count, x)
    ensures Execute(DeviceOffers(ParamsOf(w), k, start, g, order)).count == |all|
  {
    hide Execute, DeviceOffers, ParamsOf, Candidate, Schedule;
    var reported := KernelResult(w, k, start, g, order);
    all := Members(reported);
    DistinctSize(reported);
  }

  function Members(s: seq<u64>): set<u64> {
    set x | x in s
  }

  lemma {:induction false} DistinctSize(s: seq<u64>)
    requires Distinct(s)
    ensures |Members(s)| == |s|
  {
    if s == [] {
      assert Members(s) == {};
    } else {
      var front, last := s[..|s| - 1], s[|s| - 1];
      DistinctSize(front);
      assert s == front + [last] && last !in front;
      assert Members(s) == Members(front) + {last};
    }
  }
}
