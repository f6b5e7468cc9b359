/**
  Framing over an authenticated cipher. The cipher of one direction is idealised: sealing adds a
  16-byte tag, is indexed by a message counter, and opening accepts exactly what was sealed.
 */
module Framing {
  import opened Base

  const MAX_PAYLOAD := 1024 * 1024
  const CHUNK := 65519
  const TAG := 16
  const HEADER := 6
  const BUFFER_LIMIT := MAX_PAYLOAD + 4096
  const FLOOD_LIMIT := 1024

  datatype Frame = Frame(extension: u16, kind: byte, payload: Bytes)

  datatype Cipher = Cipher(seal: (nat, Bytes) -> Bytes, open: (nat, Bytes) -> Option<Bytes>) {
    ghost predicate Ideal() {
      (forall n, p :: Seals(n, p)) && (forall n, x :: Opens(n, x))
    }

    /** Message n sealed with content p is 16 bytes longer and opens to p. */
    ghost predicate Seals(n: nat, p: Bytes) {
      |seal(n, p)| == |p| + TAG && open(n, seal(n, p)) == Some(p)
    }

    /** Nothing else opens. */
    ghost predicate Opens(n: nat, x: Bytes) {
      open(n, x).Some? ==> x == seal(n, open(n, x).value)
    }
  }

  function PlainSeal(n: nat, p: Bytes): Bytes {
    p + Zeros(TAG)
  }

  function PlainOpen(n: nat, x: Bytes): Option<Bytes> {
    if |x| >= TAG && x[|x| - TAG..] == Zeros(TAG) then Some(x[..|x| - TAG]) else None
  }

  lemma PlainIsIdeal()
    ensures Cipher(PlainSeal, PlainOpen).Ideal()
  {
    var c := Cipher(PlainSeal, PlainOpen);
    forall n: nat, p: Bytes ensures c.Seals(n, p) {
      assert (p + Zeros(TAG))[|p|..] == Zeros(TAG);
    }
  }

  // ---------- Sending ----------

  function HeaderOf(f: Frame): (h: Bytes)
    ensures |h| == HEADER
  {
    LeBytes(f.extension, 2) + [f.kind] + LeBytes(|f.payload|, 3)
  }

  /** The payload cut into full chunks and a non-empty remainder. */
  function Chunks(p: Bytes): seq<Bytes> {
    if p == [] then []
    else if |p| <= CHUNK then [p]
    else [p[..CHUNK]] + Chunks(p[CHUNK..])
  }

  function SealAll(c: Cipher, n: nat, parts: seq<Bytes>): Bytes
    decreases |parts|
  {
    if parts == [] then [] else c.seal(n, parts[0]) + SealAll(c, n + 1, parts[1..])
  }

  /** Cipher messages used by one frame. */
  function Units(f: Frame): nat {
    1 + |Chunks(f.payload)|
  }

  function EncodeFrame(c: Cipher, n: nat, f: Frame): Bytes {
    c.seal(n, HeaderOf(f)) + SealAll(c, n + 1, Chunks(f.payload))
  }

  function EncodeAll(c: Cipher, n: nat, fs: seq<Frame>): Bytes
    decreases |fs|
  {
    if fs == [] then [] else EncodeFrame(c, n, fs[0]) + EncodeAll(c, n + Units(fs[0]), fs[1..])
  }

  // ---------- Receiving ----------

  /** Receiver state: messages opened so far, the frame being assembled, and unread input. */
  datatype Dec = Dec(count: nat, incoming: Option<Frame>, remaining: nat, input: Bytes)

  function Start(n: nat, input: Bytes): Dec {
    Dec(n, None, 0, input)
  }

  function Need(d: Dec): nat {
    if d.incoming.None? then HEADER + TAG else Min(d.remaining, CHUNK) + TAG
  }

  ghost predicate Ready(d: Dec) {
    d.incoming.Some? ==> d.remaining > 0
  }

  datatype Read = Starved | Bad | Took(next: Dec, frame: Option<Frame>)

  /** Open one cipher message if it is complete. */
  function ReadUnit(c: Cipher, d: Dec): Read {
    if |d.input| < Need(d) then Starved
    else
      var rest := d.input[Need(d)..];
      match c.open(d.count, d.input[..Need(d)])
      case None => Bad
      case Some(p) =>
        if d.incoming.Some? then
          var f := d.incoming.value.(payload := d.incoming.value.payload + p);
          var left := d.remaining - Min(d.remaining, CHUNK);
          if left == 0 then Took(Start(d.count + 1, rest), Some(f))
          else Took(Dec(d.count + 1, Some(f), left, rest), None)
        else if |p| != HEADER then Bad
        else
          var n := Le(p[3..6]);
          var ext := Le(p[0..2]);
          Pow256Small();
          var f := Frame(ext, p[2], []);
          if n > MAX_PAYLOAD then Bad
          else if n == 0 then Took(Start(d.count + 1, rest), Some(f))
          else Took(Dec(d.count + 1, Some(f), n, rest), None)
  }

  lemma Pow256Small()
    ensures Pow256(2) == 0x1_0000 && Pow256(3) == 0x100_0000
  {
    assert Pow256(1) == 256 * Pow256(0);
  }

  /** Open every complete cipher message in the input. */
  function Drain(c: Cipher, d: Dec): Result<(Dec, seq<Frame>)>
    decreases |d.input|
  {
    match ReadUnit(c, d)
    case Starved => Success((d, []))
    case Bad => Failure
    case Took(next, f) => Prepend(Completed(f), Drain(c, next))
  }

  /** One read from the socket. */
  function ReadSegment(c: Cipher, d: Dec, b: Bytes): Result<(Dec, seq<Frame>)> {
    if |d.input| + |b| > BUFFER_LIMIT then Failure
    else
      var (e, fs) :- Drain(c, d.(input := d.input + b));
      if |fs| > FLOOD_LIMIT then Failure else Success((e, fs))
  }

  /** Successive reads; the frames of all of them in order. */
  function ReceiveAll(c: Cipher, d: Dec, segments: seq<Bytes>): Result<(Dec, seq<Frame>)>
    decreases |segments|
  {
    if segments == [] then Success((d, []))
    else
      var (d1, fs) :- ReadSegment(c, d, segments[0]);
      var (e, rest) :- ReceiveAll(c, d1, segments[1..]);
      Success((e, fs + rest))
  }

  function Concat(segments: seq<Bytes>): Bytes {
    if segments == [] then [] else segments[0] + Concat(segments[1..])
  }

  // ---------- Resumption ----------

  function Feed(d: Dec, more: Bytes): Dec {
    d.(input := d.input + more)
  }

  lemma ReadUnitMore(c: Cipher, d: Dec, more: Bytes)
    requires !ReadUnit(c, d).Starved?
    ensures ReadUnit(c, Feed(d, more))
         == match ReadUnit(c, d) case Took(e, f) => Took(Feed(e, more), f) case other => other
  {
    var n := Need(d);
    assert (d.input + more)[..n] == d.input[..n];
    assert (d.input + more)[n..] == d.input[n..] + more;
  }

  function Prepend(fs: seq<Frame>, r: Result<(Dec, seq<Frame>)>): Result<(Dec, seq<Frame>)> {
    match r
    case Failure => Failure
    case Success((e, gs)) => Success((e, fs + gs))
  }

  lemma PrependTwice(fs: seq<Frame>, gs: seq<Frame>, r: Result<(Dec, seq<Frame>)>)
    ensures Prepend(fs, Prepend(gs, r)) == Prepend(fs + gs, r)
    ensures Prepend([], r) == r
  {
    if r.Success? {
      assert fs + (gs + r.value.1) == (fs + gs) + r.value.1;
      assert [] + r.value.1 == r.value.1;
    }
  }

  function Completed(f: Option<Frame>): seq<Frame> {
    if f.Some? then [f.value] else []
  }

  /** Draining is resumable: what has been read never needs to be read again. */
  lemma {:induction false} DrainResumes(c: Cipher, d: Dec, more: Bytes)
    requires Drain(c, d).Success?
    ensures var (e, fs) := Drain(c, d).value;
            Drain(c, Feed(d, more)) == Prepend(fs, Drain(c, Feed(e, more)))
    decreases |d.input|
  {
    var (e, fs) := Drain(c, d).value;
    var tail := Drain(c, Feed(e, more));
    if ReadUnit(c, d).Starved? {
      PrependTwice([], [], tail);
    } else {
      ReadUnitMore(c, d, more);
      var Took(next, f) := ReadUnit(c, d);
      DrainResumes(c, next, more);
      var (_, gs) := Drain(c, next).value;
      PrependTwice(Completed(f), gs, tail);
    }
  }

  lemma {:induction false} FailureIsFinal(c: Cipher, d: Dec, more: Bytes)
    requires Drain(c, d).Failure?
    ensures Drain(c, Feed(d, more)).Failure?
    decreases |d.input|
  {
    ReadUnitMore(c, d, more);
    if ReadUnit(c, d).Took? {
      FailureIsFinal(c, ReadUnit(c, d).next, more);
    }
  }

  /** Draining stops only when the next cipher message is incomplete. */
  lemma {:induction false} DrainStarves(c: Cipher, d: Dec)
    requires Drain(c, d).Success? && Ready(d)
    ensures var e := Drain(c, d).value.0; |e.input| < Need(e) && Ready(e)
    decreases |d.input|
  {
    if ReadUnit(c, d).Took? {
      DrainStarves(c, ReadUnit(c, d).next);
    }
  }

  // ---------- Round trip ----------

  /** Chunks are full except the last, none is empty, and together they are the payload. */
  lemma {:induction false} ChunkShape(p: Bytes)
    ensures |Chunks(p)| == (|p| + 65518) / 65519
    ensures Concat(Chunks(p)) == p
    ensures forall i :: 0 <= i < |Chunks(p)| ==> 0 < |Chunks(p)[i]| <= 65519
    ensures forall i :: 0 <= i < |Chunks(p)| - 1 ==> |Chunks(p)[i]| == 65519
    decreases |p|
  {
    if |p| > CHUNK {
      ChunkShape(p[CHUNK..]);
      var tail := Chunks(p[CHUNK..]);
      assert p == p[..CHUNK] + p[CHUNK..];
      assert Chunks(p)[1..] == tail;
      assert |tail| > 0;
    } else if p != [] {
      assert [p][1..] == [];
      assert Concat([p]) == p + Concat([]);
    }
  }

  lemma UnitOpens(c: Cipher, d: Dec, p: Bytes, rest: Bytes)
    requires c.Ideal() && d.input == c.seal(d.count, p) + rest && Need(d) == |p| + TAG
    ensures |d.input| >= Need(d) && d.input[Need(d)..] == rest
    ensures c.open(d.count, d.input[..Need(d)]) == Some(p)
  {
    assert c.Seals(d.count, p);
    assert d.input[..Need(d)] == c.seal(d.count, p);
  }

  lemma {:induction false} PayloadArrives(c: Cipher, n: nat, f: Frame, p: Bytes, rest: Bytes)
    requires c.Ideal() && p != []
    ensures Drain(c, Dec(n, Some(f), |p|, SealAll(c, n, Chunks(p)) + rest))
         == Prepend([f.(payload := f.payload + p)], Drain(c, Start(n + |Chunks(p)|, rest)))
    decreases |p|
  {
    var d := Dec(n, Some(f), |p|, SealAll(c, n, Chunks(p)) + rest);
    if |p| <= CHUNK {
      assert [p][1..] == [];
      assert SealAll(c, n, [p]) == c.seal(n, p) + SealAll(c, n + 1, []);
      assert d.input == c.seal(n, p) + rest;
      UnitOpens(c, d, p, rest);
    } else {
      ChunkArrives(c, n, f, p, rest);
      var head, tail := p[..CHUNK], p[CHUNK..];
      var g := f.(payload := f.payload + head);
      var last := Drain(c, Start(n + |Chunks(p)|, rest));
      PayloadArrives(c, n + 1, g, tail, rest);
      assert g.payload + tail == f.payload + p;
      PrependTwice([], [], Prepend([f.(payload := f.payload + p)], last));
    }
  }

  lemma ChunkArrives(c: Cipher, n: nat, f: Frame, p: Bytes, rest: Bytes)
    requires c.Ideal() && |p| > CHUNK
    ensures |Chunks(p)| == 1 + |Chunks(p[CHUNK..])|
    ensures ReadUnit(c, Dec(n, Some(f), |p|, SealAll(c, n, Chunks(p)) + rest))
         == Took(Dec(n + 1, Some(f.(payload := f.payload + p[..CHUNK])), |p| - CHUNK,
                     SealAll(c, n + 1, Chunks(p[CHUNK..])) + rest), None)
  {
    var d := Dec(n, Some(f), |p|, SealAll(c, n, Chunks(p)) + rest);
    var more := SealAll(c, n + 1, Chunks(p[CHUNK..])) + rest;
    assert Chunks(p)[1..] == Chunks(p[CHUNK..]);
    assert d.input == c.seal(n, p[..CHUNK]) + more;
    UnitOpens(c, d, p[..CHUNK], more);
  }

  lemma HeaderParses(f: Frame)
    requires |f.payload| <= MAX_PAYLOAD
    ensures var h := HeaderOf(f); Le(h[0..2]) == f.extension && h[2] == f.kind && Le(h[3..6]) == |f.payload|
  {
    var h := HeaderOf(f);
    Pow256Small();
    LeOfLeBytes(f.extension, 2);
    LeOfLeBytes(|f.payload|, 3);
    assert h[0..2] == LeBytes(f.extension, 2);
    assert h[3..6] == LeBytes(|f.payload|, 3);
  }

  lemma FrameArrives(c: Cipher, n: nat, f: Frame, rest: Bytes)
    requires c.Ideal() && |f.payload| <= MAX_PAYLOAD
    ensures Drain(c, Start(n, EncodeFrame(c, n, f) + rest))
         == Prepend([f], Drain(c, Start(n + Units(f), rest)))
  {
    var d := Start(n, EncodeFrame(c, n, f) + rest);
    var more := SealAll(c, n + 1, Chunks(f.payload)) + rest;
    assert d.input == c.seal(n, HeaderOf(f)) + more;
    UnitOpens(c, d, HeaderOf(f), more);
    HeaderParses(f);
    var bare := f.(payload := []);
    if f.payload == [] {
      assert more == rest;
      assert bare == f;
    } else {
      PayloadArrives(c, n + 1, bare, f.payload, rest);
      assert [] + f.payload == f.payload;
      assert ReadUnit(c, d) == Took(Dec(n + 1, Some(bare), |f.payload|, more), None);
      PrependTwice([], [], Drain(c, ReadUnit(c, d).next));
    }
  }

  ghost predicate Sendable(fs: seq<Frame>) {
    forall i :: 0 <= i < |fs| ==> |fs[i].payload| <= 1_048_576
  }

  function TotalUnits(fs: seq<Frame>): nat {
    if fs == [] then 0 else Units(fs[0]) + TotalUnits(fs[1..])
  }

  lemma EncodeCons(c: Cipher, n: nat, f: Frame, fs: seq<Frame>)
    ensures EncodeAll(c, n, [f] + fs) == EncodeFrame(c, n, f) + EncodeAll(c, n + Units(f), fs)
    ensures TotalUnits([f] + fs) == Units(f) + TotalUnits(fs)
  {
    var all := [f] + fs;
    assert all[0] == f && all[1..] == fs;
  }

  /** Decoding undoes encoding, and both cipher counters end at the same value. */
  lemma {:induction false} RoundTrip(c: Cipher, n: nat, fs: seq<Frame>, rest: Bytes)
    requires c.Ideal() && Sendable(fs)
    ensures Drain(c, Start(n, EncodeAll(c, n, fs) + rest))
         == Prepend(fs, Drain(c, Start(n + TotalUnits(fs), rest)))
    decreases |fs|
  {
    hide EncodeFrame, Units, ReadUnit;
    if fs == [] {
      assert EncodeAll(c, n, fs) + rest == rest;
      PrependTwice([], [], Drain(c, Start(n, rest)));
    } else {
      var f, tail, n' := fs[0], fs[1..], n + Units(fs[0]);
      var more := EncodeAll(c, n', tail) + rest;
      assert fs == [f] + tail;
      EncodeCons(c, n, f, tail);
      assert EncodeAll(c, n, fs) + rest == EncodeFrame(c, n, f) + more;
      var last := Drain(c, Start(n + TotalUnits(fs), rest));
      calc {
        Drain(c, Start(n, EncodeFrame(c, n, f) + more));
        { FrameArrives(c, n, f, more); }
        Prepend([f], Drain(c, Start(n', more)));
        { RoundTrip(c, n', tail, rest); }
        Prepend([f], Prepend(tail, last));
        { PrependTwice([f], tail, last); }
        Prepend(fs, last);
      }
    }
  }

  // ---------- One reading per input ----------

  /** out, sealed in counter order from the receiver's position on, is where the input begins. */
  ghost predicate Encoded(c: Cipher, d: Dec, out: seq<Frame>) {
    match d.incoming
    case None => EncodeAll(c, d.count, out) <= d.input
    case Some(f) =>
      out == []
      || (f.payload <= out[0].payload && f.(payload := out[0].payload) == out[0]
          && var p := out[0].payload[|f.payload|..];
             |p| == d.remaining
             && SealAll(c, d.count, Chunks(p)) + EncodeAll(c, d.count + |Chunks(p)|, out[1..]) <= d.input)
  }

  lemma OpenedIsSealed(c: Cipher, d: Dec) returns (p: Bytes, rest: Bytes)
    requires c.Ideal() && ReadUnit(c, d).Took?
    ensures |p| == Need(d) - TAG && d.input == c.seal(d.count, p) + rest
    ensures c.open(d.count, d.input[..Need(d)]) == Some(p) && rest == d.input[Need(d)..]
  {
    rest := d.input[Need(d)..];
    var x := d.input[..Need(d)];
    p := c.open(d.count, x).value;
    assert c.Opens(d.count, x);
    assert c.Seals(d.count, p);
    assert d.input == x + rest;
  }

  lemma PrefixBehind(x: Bytes, a: Bytes, b: Bytes)
    requires a <= b
    ensures x + a <= x + b
  {
    assert b == a + b[|a|..];
    assert x + b == (x + a) + b[|a|..];
  }

  lemma HeaderRebuilt(h: Bytes, f: Frame)
    requires |h| == HEADER && f.extension == Le(h[0..2]) && f.kind == h[2] && |f.payload| == Le(h[3..6])
    ensures HeaderOf(f) == h
  {
    LeBytesOfLe(h[0..2]);
    LeBytesOfLe(h[3..6]);
    assert h == h[0..2] + [h[2]] + h[3..6];
  }

  lemma EncodeAllHead(c: Cipher, n: nat, f: Frame, fs: seq<Frame>)
    ensures EncodeAll(c, n, [f] + fs)
         == c.seal(n, HeaderOf(f)) + (SealAll(c, n + 1, Chunks(f.payload)) + EncodeAll(c, n + Units(f), fs))
  {
    var all := [f] + fs;
    assert all[0] == f && all[1..] == fs;
  }

  lemma EncodedEmpty(c: Cipher, d: Dec, out: seq<Frame>)
    requires c.Ideal() && d.incoming.None? && ReadUnit(c, d).Took? && ReadUnit(c, d).frame.Some?
    requires Encoded(c, ReadUnit(c, d).next, out)
    ensures Encoded(c, d, [ReadUnit(c, d).frame.value] + out)
  {
    var f := ReadUnit(c, d).frame.value;
    var h, rest := OpenedIsSealed(c, d);
    HeaderRebuilt(h, f);
    EncodeAllHead(c, d.count, f, out);
    assert SealAll(c, d.count + 1, []) + EncodeAll(c, d.count + 1, out) == EncodeAll(c, d.count + 1, out);
    PrefixBehind(c.seal(d.count, h), EncodeAll(c, d.count + 1, out), rest);
  }

  lemma EncodedHeader(c: Cipher, d: Dec, out: seq<Frame>)
    requires c.Ideal() && d.incoming.None? && ReadUnit(c, d).Took? && ReadUnit(c, d).frame.None?
    requires Encoded(c, ReadUnit(c, d).next, out)
    ensures Encoded(c, d, out)
  {
    if out != [] {
      var h, rest := OpenedIsSealed(c, d);
      var f, tail := out[0], out[1..];
      assert out == [f] + tail;
      assert f.payload[0..] == f.payload;
      HeaderRebuilt(h, f);
      EncodeAllHead(c, d.count, f, tail);
      PrefixBehind(c.seal(d.count, h),
                   SealAll(c, d.count + 1, Chunks(f.payload)) + EncodeAll(c, d.count + Units(f), tail), rest);
    }
  }

  lemma EncodedLastChunk(c: Cipher, d: Dec, out: seq<Frame>)
    requires c.Ideal() && Ready(d) && d.incoming.Some? && d.remaining <= CHUNK && ReadUnit(c, d).Took?
    requires Encoded(c, ReadUnit(c, d).next, out)
    ensures Encoded(c, d, Completed(ReadUnit(c, d).frame) + out)
  {
    var Took(next, done) := ReadUnit(c, d);
    var p, rest := OpenedIsSealed(c, d);
    var f := done.value;
    assert ([f] + out)[1..] == out;
    assert f.payload[|d.incoming.value.payload|..] == p;
    var one := [p];
    assert Chunks(p) == one && one[1..] == [];
    assert SealAll(c, d.count, one) == c.seal(d.count, p) + SealAll(c, d.count + 1, []);
    PrefixBehind(c.seal(d.count, p), EncodeAll(c, d.count + 1, out), rest);
    assert SealAll(c, d.count, one) == c.seal(d.count, p);
  }

  lemma EncodedChunk(c: Cipher, d: Dec, out: seq<Frame>)
    requires c.Ideal() && d.incoming.Some? && d.remaining > CHUNK && ReadUnit(c, d).Took?
    requires Encoded(c, ReadUnit(c, d).next, out)
    ensures Encoded(c, d, out)
  {
    if out != [] {
      var next := ReadUnit(c, d).next;
      var head, rest := OpenedIsSealed(c, d);
      var before := d.incoming.value.payload;
      var tail := out[0].payload[|before + head|..];
      var p := out[0].payload[|before|..];
      assert before <= before + head <= out[0].payload;
      assert p == head + tail;
      assert p[..CHUNK] == head && p[CHUNK..] == tail;
      assert Chunks(p) == [head] + Chunks(tail);
      assert Chunks(p)[1..] == Chunks(tail);
      var after := EncodeAll(c, d.count + |Chunks(p)|, out[1..]);
      assert SealAll(c, d.count, Chunks(p)) + after
          == c.seal(d.count, head) + (SealAll(c, d.count + 1, Chunks(tail)) + after);
      PrefixBehind(c.seal(d.count, head), SealAll(c, d.count + 1, Chunks(tail)) + after, rest);
    }
  }

  /** On any input at all, the frames reported encode back to the bytes they were read from. */
  lemma {:induction false} Reencodes(c: Cipher, d: Dec)
    requires c.Ideal() && Ready(d) && Drain(c, d).Success?
    ensures Encoded(c, d, Drain(c, d).value.1)
    decreases |d.input|
  {
    if ReadUnit(c, d).Took? {
      var next := ReadUnit(c, d).next;
      Reencodes(c, next);
      var out := Drain(c, next).value.1;
      assert [] + out == out;
      if d.incoming.None? && ReadUnit(c, d).frame.Some? {
        EncodedEmpty(c, d, out);
      } else if d.incoming.None? {
        EncodedHeader(c, d, out);
      } else if d.remaining <= CHUNK {
        EncodedLastChunk(c, d, out);
      } else {
        EncodedChunk(c, d, out);
      }
    }
  }

  /** What a decoder holds never promises a frame of more than a mebibyte. */
  predicate Bounded(d: Dec) {
    d.incoming.Some? ==> |d.incoming.value.payload| + d.remaining <= 1_048_576
  }

  lemma UnitBounded(c: Cipher, d: Dec)
    requires c.Ideal() && Ready(d) && Bounded(d) && ReadUnit(c, d).Took?
    ensures var Took(next, done) := ReadUnit(c, d);
            Bounded(next) && Ready(next) && (done.Some? ==> |done.value.payload| <= 1_048_576)
  {
    var p, rest := OpenedIsSealed(c, d);
  }

  /** On any input at all, no frame reported or begun is larger than that: a larger header fails the stream. */
  lemma {:induction false} FramesAreBounded(c: Cipher, d: Dec)
    requires c.Ideal() && Ready(d) && Bounded(d) && Drain(c, d).Success?
    ensures Bounded(Drain(c, d).value.0) && Sendable(Drain(c, d).value.1)
    decreases |d.input|
  {
    if ReadUnit(c, d).Took? {
      UnitBounded(c, d);
      hide ReadUnit, Bounded;
      FramesAreBounded(c, ReadUnit(c, d).next);
    }
  }

  // ---------- Fragmentation ----------

  /** How many of the frames are complete within the first m bytes of their encoding. */
  function Arrived(c: Cipher, n: nat, fs: seq<Frame>, m: nat): (k: nat)
    ensures k <= |fs|
    decreases |fs|
  {
    if fs == [] || |EncodeFrame(c, n, fs[0])| > m then 0
    else 1 + Arrived(c, n + Units(fs[0]), fs[1..], m - |EncodeFrame(c, n, fs[0])|)
  }

  /** The first m bytes of the encoding of fs hold its first k frames and no further one. */
  ghost predicate Fits(c: Cipher, n: nat, fs: seq<Frame>, m: nat, k: nat)
    requires k <= |fs|
  {
    var size := |EncodeAll(c, n, fs[..k])|;
    && size <= m
    && (k < |fs| ==> m < size + |EncodeFrame(c, n + TotalUnits(fs[..k]), fs[k])|)
    && (k == |fs| ==> m == size)
  }

  lemma FitsCons(c: Cipher, n: nat, f: Frame, fs: seq<Frame>, m: nat, k: nat)
    requires k <= |fs| && Fits(c, n + Units(f), fs, m, k)
    ensures Fits(c, n, [f] + fs, m + |EncodeFrame(c, n, f)|, k + 1)
  {
    assert ([f] + fs)[..k + 1] == [f] + fs[..k];
    EncodeCons(c, n, f, fs[..k]);
  }

  lemma {:induction false} ArrivedFits(c: Cipher, n: nat, fs: seq<Frame>, m: nat)
    requires m <= |EncodeAll(c, n, fs)|
    ensures Fits(c, n, fs, m, Arrived(c, n, fs, m))
    decreases |fs|
  {
    hide EncodeFrame, Units;
    var k := Arrived(c, n, fs, m);
    if k == 0 {
      assert fs[..0] == [];
    } else {
      var f, tail := fs[0], fs[1..];
      var m' := m - |EncodeFrame(c, n, f)|;
      assert [f] + tail == fs;
      EncodeCons(c, n, f, tail);
      ArrivedFits(c, n + Units(f), tail, m');
      FitsCons(c, n, f, tail, m', k - 1);
    }
  }

  lemma EncodeAtLeast(c: Cipher, n: nat, fs: seq<Frame>)
    ensures fs != [] ==> |EncodeFrame(c, n, fs[0])| <= |EncodeAll(c, n, fs)|
  {
  }

  /** Part of one frame yields nothing yet, and no failure. */
  lemma PartialFrame(c: Cipher, n: nat, fs: seq<Frame>, m: nat)
    requires c.Ideal() && Sendable(fs) && m <= |EncodeAll(c, n, fs)| && Arrived(c, n, fs, m) == 0
    ensures var r := Drain(c, Start(n, EncodeAll(c, n, fs)[..m])); r.Success? && r.value.1 == []
  {
    var all := EncodeAll(c, n, fs);
    var d := Start(n, all[..m]);
    assert Feed(d, all[m..]) == Start(n, all) by {
      assert all[..m] + all[m..] == all;
    }
    WholeStream(c, n, fs);
    if Drain(c, d).Failure? {
      FailureIsFinal(c, d, all[m..]);
    }
    var out := Drain(c, d).value.1;
    DrainResumes(c, d, all[m..]);
    assert out <= fs;
    Reencodes(c, d);
    EncodeAtLeast(c, n, out);
  }

  lemma WholeStream(c: Cipher, n: nat, fs: seq<Frame>)
    requires c.Ideal() && Sendable(fs)
    ensures Drain(c, Start(n, EncodeAll(c, n, fs))) == Success((Start(n + TotalUnits(fs), []), fs))
  {
    RoundTrip(c, n, fs, []);
    assert EncodeAll(c, n, fs) + [] == EncodeAll(c, n, fs);
    assert fs + [] == fs;
  }

  /** What the receiver holds after the first m bytes of an honest stream. */
  function Prefix(c: Cipher, n: nat, fs: seq<Frame>, m: nat): Dec
    requires m <= |EncodeAll(c, n, fs)|
  {
    Start(n, EncodeAll(c, n, fs)[..m])
  }

  lemma PrefixCons(c: Cipher, n: nat, f: Frame, fs: seq<Frame>, m: nat)
    requires c.Ideal() && |f.payload| <= MAX_PAYLOAD && m <= |EncodeAll(c, n + Units(f), fs)|
    ensures m + |EncodeFrame(c, n, f)| <= |EncodeAll(c, n, [f] + fs)|
    ensures Drain(c, Prefix(c, n, [f] + fs, m + |EncodeFrame(c, n, f)|))
         == Prepend([f], Drain(c, Prefix(c, n + Units(f), fs, m)))
  {
    var first, rest := EncodeFrame(c, n, f), EncodeAll(c, n + Units(f), fs);
    EncodeCons(c, n, f, fs);
    assert (first + rest)[..m + |first|] == first + rest[..m];
    FrameArrives(c, n, f, rest[..m]);
  }

  /** The first m bytes of an honest stream yield exactly the frames complete within them. */
  lemma {:induction false} StreamPrefix(c: Cipher, n: nat, fs: seq<Frame>, m: nat)
    requires c.Ideal() && Sendable(fs) && m <= |EncodeAll(c, n, fs)|
    ensures Drain(c, Prefix(c, n, fs, m)).Success?
    ensures Drain(c, Prefix(c, n, fs, m)).value.1 == fs[..Arrived(c, n, fs, m)]
    decreases |fs|
  {
    hide EncodeFrame, Units;
    var k := Arrived(c, n, fs, m);
    if k == 0 {
      PartialFrame(c, n, fs, m);
    } else {
      var f, tail := fs[0], fs[1..];
      var m' := m - |EncodeFrame(c, n, f)|;
      assert fs == [f] + tail;
      EncodeCons(c, n, f, tail);
      StreamPrefix(c, n + Units(f), tail, m');
      PrefixCons(c, n, f, tail, m');
      assert fs[..k] == [f] + tail[..k - 1];
    }
  }

  // ---------- Reads of any size ----------

  ghost predicate Quiet(d: Dec) {
    Ready(d) && |d.input| < Need(d)
  }

  lemma FeedTwice(d: Dec, a: Bytes, b: Bytes)
    ensures Feed(Feed(d, a), b) == Feed(d, a + b) && Feed(d, []) == d
  {
    assert d.input + a + b == d.input + (a + b);
    assert d.input + [] == d.input;
  }

  /** No read finds too many bytes in the buffer or completes too many frames. */
  predicate WithinLimits(c: Cipher, d: Dec, segments: seq<Bytes>)
    decreases |segments|
  {
    segments == []
    || (var r := Drain(c, Feed(d, segments[0]));
        && |d.input| + |segments[0]| <= 1_052_672
        && (r.Success? ==> |r.value.1| <= 1024 && WithinLimits(c, r.value.0, segments[1..])))
  }

  /**
    Reading any stream in segments succeeds exactly when reading it at once does and no read trips a
    limit, and then gives the same.
   */
  lemma {:induction false} SegmentsJoin(c: Cipher, d: Dec, segments: seq<Bytes>)
    requires Quiet(d)
    ensures ReceiveAll(c, d, segments).Success?
            <==> Drain(c, Feed(d, Concat(segments))).Success? && WithinLimits(c, d, segments)
    ensures ReceiveAll(c, d, segments).Success? ==> Drain(c, Feed(d, Concat(segments))) == ReceiveAll(c, d, segments)
    decreases |segments|
  {
    hide ReadUnit, Drain;
    if segments == [] {
      FeedTwice(d, [], []);
      NothingYet(c, d);
    } else {
      var s, tail := segments[0], segments[1..];
      FeedTwice(d, s, Concat(tail));
      if Drain(c, Feed(d, s)).Failure? {
        FailureIsFinal(c, Feed(d, s), Concat(tail));
      } else {
        DrainStarves(c, Feed(d, s));
        SegmentsJoin(c, Drain(c, Feed(d, s)).value.0, tail);
        DrainResumes(c, Feed(d, s), Concat(tail));
      }
    }
  }

  lemma NothingYet(c: Cipher, d: Dec)
    requires Quiet(d)
    ensures Drain(c, d) == Success((d, []))
  {
  }

  /** What taking one unit does to the shape of the decoder. */
  lemma UnitTaken(c: Cipher, d: Dec)
    requires Ready(d) && ReadUnit(c, d).Took?
    ensures var Took(next, done) := ReadUnit(c, d);
            && Ready(next) && |d.input| == Need(d) + |next.input|
            && (done.Some? ==> next.incoming.None?) && (done.None? ==> next.incoming.Some?)
  {
  }

  /** A frame costs at least one sealed header; a frame already begun costs its next chunk. */
  lemma {:induction false} FrameCost(c: Cipher, d: Dec)
    requires Drain(c, d).Success? && Ready(d)
    ensures var fs := Drain(c, d).value.1;
            && (d.incoming.None? ==> (HEADER + TAG) * |fs| <= |d.input|)
            && (d.incoming.Some? && fs != [] ==> Need(d) + (HEADER + TAG) * (|fs| - 1) <= |d.input|)
    decreases |d.input|
  {
    if ReadUnit(c, d).Took? {
      UnitTaken(c, d);
      hide ReadUnit;
      FrameCost(c, ReadUnit(c, d).next);
    }
  }

  /** One socket read of at most 8192 bytes completes at most 373 frames and leaves less than 65535 bytes. */
  lemma ReadBudget(c: Cipher, d: Dec, b: Bytes)
    requires Quiet(d) && |b| <= 8192 && Drain(c, Feed(d, b)).Success?
    ensures ReadSegment(c, d, b) == Drain(c, Feed(d, b))
    ensures |Drain(c, Feed(d, b)).value.1| <= 373
    ensures Quiet(Drain(c, Feed(d, b)).value.0) && |Drain(c, Feed(d, b)).value.0.input| < 65535
  {
    FrameCost(c, Feed(d, b));
    DrainStarves(c, Feed(d, b));
  }

  lemma {:induction false} SmallReadsSucceed(c: Cipher, d: Dec, segments: seq<Bytes>)
    requires Quiet(d) && Drain(c, Feed(d, Concat(segments))).Success?
    requires forall i :: 0 <= i < |segments| ==> |segments[i]| <= 8192
    ensures ReceiveAll(c, d, segments).Success?
    decreases |segments|
  {
    hide ReadUnit, Drain;
    if segments != [] {
      var s, tail := segments[0], segments[1..];
      FeedTwice(d, s, Concat(tail));
      if Drain(c, Feed(d, s)).Failure? {
        FailureIsFinal(c, Feed(d, s), Concat(tail));
      }
      ReadBudget(c, d, s);
      DrainResumes(c, Feed(d, s), Concat(tail));
      SmallReadsSucceed(c, Drain(c, Feed(d, s)).value.0, tail);
    }
  }

  // ---------- Exactly when an honest stream is delivered ----------

  /** Bytes of a frame on the wire. */
  function FrameSize(f: Frame): nat {
    22 + |f.payload| + 16 * ((|f.payload| + 65518) / 65519)
  }

  /** How many of the frames are complete within the first m bytes. */
  function CompletedBy(fs: seq<Frame>, m: nat): (k: nat)
    ensures k <= |fs|
  {
    if fs == [] || FrameSize(fs[0]) > m then 0 else 1 + CompletedBy(fs[1..], m - FrameSize(fs[0]))
  }

  /** How many of the first m bytes belong to a header or chunk that is not complete yet. */
  function Leftover(fs: seq<Frame>, m: nat): nat
    decreases |fs|
  {
    if fs != [] && FrameSize(fs[0]) <= m then Leftover(fs[1..], m - FrameSize(fs[0]))
    else if m < 22 then m
    else (m - 22) % 65535
  }

  /** The reads that continue an honest stream after m bytes stay within both limits. */
  predicate ReadsFit(fs: seq<Frame>, m: nat, segments: seq<Bytes>)
    decreases |segments|
  {
    segments == []
    || (var n := m + |segments[0]|;
        && Leftover(fs, m) + |segments[0]| <= 1_052_672
        && CompletedBy(fs, n) - CompletedBy(fs, m) <= 1024
        && ReadsFit(fs, n, segments[1..]))
  }

  lemma {:induction false} SealedSize(c: Cipher, n: nat, parts: seq<Bytes>)
    requires c.Ideal()
    ensures |SealAll(c, n, parts)| == |Concat(parts)| + TAG * |parts|
    decreases |parts|
  {
    if parts != [] {
      assert c.Seals(n, parts[0]);
      SealedSize(c, n + 1, parts[1..]);
    }
  }

  lemma EncodedSize(c: Cipher, n: nat, f: Frame)
    requires c.Ideal()
    ensures |EncodeFrame(c, n, f)| == FrameSize(f)
  {
    hide Chunks;
    assert c.Seals(n, HeaderOf(f));
    SealedSize(c, n + 1, Chunks(f.payload));
    ChunkShape(f.payload);
  }

  lemma {:induction false} ArrivedIsCompleted(c: Cipher, n: nat, fs: seq<Frame>, m: nat)
    requires c.Ideal()
    ensures Arrived(c, n, fs, m) == CompletedBy(fs, m)
    decreases |fs|
  {
    hide EncodeFrame, FrameSize, Units;
    if fs != [] {
      EncodedSize(c, n, fs[0]);
      if FrameSize(fs[0]) <= m {
        ArrivedIsCompleted(c, n + Units(fs[0]), fs[1..], m - FrameSize(fs[0]));
      }
    }
  }

  lemma WholeChunkFirst(c: Cipher, n: nat, f: Frame, p: Bytes, b: nat)
    requires c.Ideal() && |p| > CHUNK && CHUNK + TAG <= b <= |SealAll(c, n, Chunks(p))|
    ensures b - CHUNK - TAG <= |SealAll(c, n + 1, Chunks(p[CHUNK..]))|
    ensures |SealAll(c, n, Chunks(p))| == CHUNK + TAG + |SealAll(c, n + 1, Chunks(p[CHUNK..]))|
    ensures ReadUnit(c, Dec(n, Some(f), |p|, SealAll(c, n, Chunks(p))[..b]))
            == Took(Dec(n + 1, Some(f.(payload := f.payload + p[..CHUNK])), |p| - CHUNK,
                        SealAll(c, n + 1, Chunks(p[CHUNK..]))[..b - CHUNK - TAG]), None)
  {
    var head, tail := p[..CHUNK], p[CHUNK..];
    var all, more := SealAll(c, n, Chunks(p)), SealAll(c, n + 1, Chunks(tail));
    assert Chunks(p)[1..] == Chunks(tail);
    assert c.Seals(n, head);
    assert all == c.seal(n, head) + more;
    var rest := more[..b - CHUNK - TAG];
    assert all[..b] == c.seal(n, head) + rest;
    UnitOpens(c, Dec(n, Some(f), |p|, all[..b]), head, rest);
  }

  lemma LessOneChunk(b: nat)
    requires b >= CHUNK + TAG
    ensures (b - CHUNK - TAG) % (CHUNK + TAG) == b % (CHUNK + TAG)
  {
  }

  lemma LastChunkSize(c: Cipher, n: nat, p: Bytes)
    requires c.Ideal() && 0 < |p| <= CHUNK
    ensures |SealAll(c, n, Chunks(p))| == |p| + TAG
  {
    assert [p][1..] == [];
    assert c.Seals(n, p);
    assert SealAll(c, n, [p]) == c.seal(n, p) + SealAll(c, n + 1, []);
  }

  /** Part of a payload: whole chunks are taken, the rest stays. */
  lemma {:induction false} PartOfPayload(c: Cipher, n: nat, f: Frame, p: Bytes, b: nat)
    requires c.Ideal() && p != [] && b < |SealAll(c, n, Chunks(p))|
    ensures var r := Drain(c, Dec(n, Some(f), |p|, SealAll(c, n, Chunks(p))[..b]));
            r.Success? && |r.value.0.input| == b % (CHUNK + TAG)
    decreases |p|
  {
    hide SealAll, Chunks;
    if |p| <= CHUNK {
      LastChunkSize(c, n, p);
    } else if b >= CHUNK + TAG {
      WholeChunkFirst(c, n, f, p, b);
      hide ReadUnit;
      LessOneChunk(b);
      PartOfPayload(c, n + 1, f.(payload := f.payload + p[..CHUNK]), p[CHUNK..], b - CHUNK - TAG);
    }
  }

  /** Part of a frame: what stays unread is the incomplete header or chunk. */
  lemma PartOfFrame(c: Cipher, n: nat, f: Frame, m: nat)
    requires c.Ideal() && |f.payload| <= MAX_PAYLOAD && m < |EncodeFrame(c, n, f)|
    ensures var r := Drain(c, Start(n, EncodeFrame(c, n, f)[..m]));
            r.Success? && |r.value.0.input| == if m < HEADER + TAG then m else (m - HEADER - TAG) % (CHUNK + TAG)
  {
    var all := EncodeFrame(c, n, f);
    var h := HeaderOf(f);
    if m >= HEADER + TAG {
      assert c.Seals(n, h);
      var more := SealAll(c, n + 1, Chunks(f.payload));
      var b := m - HEADER - TAG;
      assert all == c.seal(n, h) + more;
      assert all[..m] == c.seal(n, h) + more[..b];
      UnitOpens(c, Start(n, all[..m]), h, more[..b]);
      HeaderParses(f);
      assert f.payload != [];
      PartOfPayload(c, n + 1, f.(payload := []), f.payload, b);
    }
  }

  lemma {:induction false} LeftoverIsUnread(c: Cipher, n: nat, fs: seq<Frame>, m: nat)
    requires c.Ideal() && Sendable(fs) && m <= |EncodeAll(c, n, fs)|
    ensures Drain(c, Prefix(c, n, fs, m)).Success?
    ensures |Drain(c, Prefix(c, n, fs, m)).value.0.input| == Leftover(fs, m)
    decreases |fs|
  {
    hide EncodeFrame, FrameSize, Drain, Units;
    if fs == [] {
      NothingYet(c, Prefix(c, n, fs, m));
    } else {
      var f, tail := fs[0], fs[1..];
      EncodedSize(c, n, f);
      assert fs == [f] + tail;
      EncodeCons(c, n, f, tail);
      if FrameSize(f) <= m {
        LeftoverIsUnread(c, n + Units(f), tail, m - FrameSize(f));
        PrefixCons(c, n, f, tail, m - FrameSize(f));
      } else {
        assert EncodeAll(c, n, fs)[..m] == EncodeFrame(c, n, f)[..m];
        PartOfFrame(c, n, f, m);
      }
    }
  }

  /** After m bytes of an honest stream: what is unread, and that more bytes continue it. */
  lemma Continues(c: Cipher, fs: seq<Frame>, m: nat, s: Bytes)
    requires c.Ideal() && Sendable(fs) && m + |s| <= |EncodeAll(c, 0, fs)|
    requires EncodeAll(c, 0, fs)[m..m + |s|] == s
    ensures Drain(c, Prefix(c, 0, fs, m)).Success? && Drain(c, Prefix(c, 0, fs, m + |s|)).Success?
    ensures var d := Drain(c, Prefix(c, 0, fs, m)).value.0; var r := Drain(c, Feed(d, s));
            && Quiet(d) && |d.input| == Leftover(fs, m) && r.Success?
            && r.value.0 == Drain(c, Prefix(c, 0, fs, m + |s|)).value.0
            && |r.value.1| == CompletedBy(fs, m + |s|) - CompletedBy(fs, m)
  {
    hide EncodeAll, Drain, Leftover, CompletedBy, Arrived;
    var all := EncodeAll(c, 0, fs);
    StreamPrefix(c, 0, fs, m);
    StreamPrefix(c, 0, fs, m + |s|);
    ArrivedIsCompleted(c, 0, fs, m);
    ArrivedIsCompleted(c, 0, fs, m + |s|);
    LeftoverIsUnread(c, 0, fs, m);
    assert all[..m] + s == all[..m + |s|];
    DrainResumes(c, Prefix(c, 0, fs, m), s);
    DrainStarves(c, Prefix(c, 0, fs, m));
  }

  lemma {:induction false} LimitsAreSizes(c: Cipher, fs: seq<Frame>, m: nat, segments: seq<Bytes>)
    requires c.Ideal() && Sendable(fs) && m + |Concat(segments)| <= |EncodeAll(c, 0, fs)|
    requires EncodeAll(c, 0, fs)[m..m + |Concat(segments)|] == Concat(segments)
    ensures Drain(c, Prefix(c, 0, fs, m)).Success?
    ensures WithinLimits(c, Drain(c, Prefix(c, 0, fs, m)).value.0, segments) <==> ReadsFit(fs, m, segments)
    decreases |segments|
  {
    hide EncodeAll, Drain, Leftover, CompletedBy;
    if segments == [] {
      Continues(c, fs, m, []);
    } else {
      var all, s, tail := EncodeAll(c, 0, fs), segments[0], segments[1..];
      var whole := s + Concat(tail);
      assert all[m..m + |s|] == whole[..|s|] == s;
      assert all[m + |s|..m + |s| + |Concat(tail)|] == whole[|s|..] == Concat(tail);
      Continues(c, fs, m, s);
      LimitsAreSizes(c, fs, m + |s|, tail);
    }
  }

  /**
    Any frames within the size limit, any cut of any prefix of their encoding into segments: the receiver
    succeeds if and only if every read fits the buffer together with what was left over and completes at
    most 1024 frames, and then it has returned exactly the frames complete within that prefix.
   */
  lemma Fragmentation(c: Cipher, fs: seq<Frame>, m: nat, segments: seq<Bytes>)
    requires c.Ideal() && Sendable(fs)
    requires m <= |EncodeAll(c, 0, fs)| && Concat(segments) == EncodeAll(c, 0, fs)[..m]
    ensures var r := ReceiveAll(c, Start(0, []), segments);
            && (r.Success? <==> ReadsFit(fs, 0, segments))
            && (r.Success? ==> r.value.1 == fs[..CompletedBy(fs, m)] && |r.value.0.input| == Leftover(fs, m))
  {
    hide EncodeAll, Drain, Leftover, CompletedBy, WithinLimits, ReadsFit, ReceiveAll, Arrived;
    var all := EncodeAll(c, 0, fs);
    SegmentsJoin(c, Start(0, []), segments);
    assert [] + Concat(segments) == Concat(segments);
    StreamPrefix(c, 0, fs, m);
    ArrivedIsCompleted(c, 0, fs, m);
    LeftoverIsUnread(c, 0, fs, m);
    assert all[0..0 + |Concat(segments)|] == Concat(segments);
    LimitsAreSizes(c, fs, 0, segments);
    assert Prefix(c, 0, fs, 0) == Start(0, []);
    NothingYet(c, Start(0, []));
  }

  /** Reads of the miner's own size never trip a limit on an honest stream. */
  lemma HonestDelivery(c: Cipher, fs: seq<Frame>, m: nat, segments: seq<Bytes>)
    requires c.Ideal() && Sendable(fs)
    requires m <= |EncodeAll(c, 0, fs)| && Concat(segments) == EncodeAll(c, 0, fs)[..m]
    requires forall i :: 0 <= i < |segments| ==> |segments[i]| <= 8192
    ensures ReceiveAll(c, Start(0, []), segments).Success?
    ensures ReceiveAll(c, Start(0, []), segments).value.1 == fs[..CompletedBy(fs, m)]
    ensures ReadsFit(fs, 0, segments)
  {
    hide EncodeAll, Drain, ReadsFit, ReceiveAll, CompletedBy, Leftover;
    StreamPrefix(c, 0, fs, m);
    assert [] + Concat(segments) == Concat(segments);
    SmallReadsSucceed(c, Start(0, []), segments);
    Fragmentation(c, fs, m, segments);
  }

  function Heartbeats(n: nat): (fs: seq<Frame>)
    ensures |fs| == n
  {
    seq(n, i => Frame(0, 0, []))
  }

  /** A read within the buffer limit can still fail: more than 1024 empty frames in one read, from 22550 bytes on. */
  lemma FloodInOneRead(c: Cipher, k: nat)
    requires c.Ideal() && 1025 <= k <= 47848
    ensures var b := EncodeAll(c, 0, Heartbeats(k));
            22550 <= |b| == 22 * k <= 1_052_672 && ReceiveAll(c, Start(0, []), [b]).Failure?
  {
    var fs := Heartbeats(k);
    var b := EncodeAll(c, 0, fs);
    HeartbeatSize(c, 0, k);
    WholeStream(c, 0, fs);
    assert [] + b == b;
    hide EncodeAll, Drain, Heartbeats;
  }

  lemma {:induction false} HeartbeatSize(c: Cipher, n: nat, k: nat)
    requires c.Ideal()
    ensures |EncodeAll(c, n, Heartbeats(k))| == 22 * k
    decreases k
  {
    if k != 0 {
      hide EncodeFrame;
      EncodedSize(c, n, Frame(0, 0, []));
      assert Heartbeats(k)[1..] == Heartbeats(k - 1);
      HeartbeatSize(c, n + 1, k - 1);
    }
  }

  /** Once a whole number of frames has arrived, both ends have used the same number of messages. */
  lemma CountersAgree(c: Cipher, fs: seq<Frame>, segments: seq<Bytes>)
    requires c.Ideal() && Sendable(fs) && Concat(segments) == EncodeAll(c, 0, fs)
    ensures if ReadsFit(fs, 0, segments)
            then ReceiveAll(c, Start(0, []), segments) == Success((Start(TotalUnits(fs), []), fs))
            else ReceiveAll(c, Start(0, []), segments).Failure?
  {
    hide EncodeAll, Drain, Leftover, CompletedBy, WithinLimits, ReadsFit, ReceiveAll;
    var all := EncodeAll(c, 0, fs);
    assert all[..|all|] == all;
    Fragmentation(c, fs, |all|, segments);
    SegmentsJoin(c, Start(0, []), segments);
    assert [] + Concat(segments) == Concat(segments);
    WholeStream(c, 0, fs);
  }

  // ---------- The connection object ----------

  /** One connection owns both cipher counters; a failure is permanent. */
  class Noise {
    const outbound: Cipher
    const inbound: Cipher
    var ready: bool
    var failed: bool
    var sent: nat
    var taken: nat
    var input: Bytes
    var incoming: Option<Frame>
    var remaining: nat

    ghost function Decoder(): Dec
      reads this`taken, this`incoming, this`remaining, this`input
    {
      Dec(taken, incoming, remaining, input)
    }

    ghost predicate Valid()
      reads this
    {
      !failed ==> Ready(Decoder()) && (incoming.None? ==> remaining == 0)
    }

    constructor (outbound: Cipher, inbound: Cipher)
      ensures Valid() && !ready && !failed && sent == 0 && Decoder() == Start(0, [])
      ensures this.outbound == outbound && this.inbound == inbound
    {
      this.outbound, this.inbound := outbound, inbound;
      ready, failed, sent, taken := false, false, 0, 0;
      input, incoming, remaining := [], None, 0;
    }

    /** The handshake answer; authentic is the verdict of the certificate check. */
    method Finish(authentic: bool) returns (ok: bool)
      requires Valid()
      modifies this`ready, this`failed
      ensures Valid()
      ensures ok == (!old(ready) && !old(failed) && authentic)
      ensures if ok then ready && !failed else failed && ready == old(ready)
    {
      ok := !ready && !failed && authentic;
      if ok {
        ready := true;
      } else {
        failed := true;
      }
    }

    method Encode(f: Frame) returns (r: Result<Bytes>)
      requires Valid()
      modifies this`sent
      ensures Valid()
      ensures if |f.payload| <= MAX_PAYLOAD && ready && !failed
              then r == Success(EncodeFrame(outbound, old(sent), f)) && sent == old(sent) + Units(f)
              else r == Failure && sent == old(sent)
    {
      if |f.payload| > MAX_PAYLOAD || !ready || failed {
        return Failure;
      }
      var out := outbound.seal(sent, HeaderOf(f));
      sent := sent + 1;
      var i := 0;
      assert f.payload[0..] == f.payload;
      while i < |f.payload|
        invariant 0 <= i && sent > old(sent)
        invariant i < |f.payload| ==>
                    && sent + |Chunks(f.payload[i..])| == old(sent) + Units(f)
                    && out + SealAll(outbound, sent, Chunks(f.payload[i..])) == EncodeFrame(outbound, old(sent), f)
        invariant i >= |f.payload| ==>
                    sent == old(sent) + Units(f) && out == EncodeFrame(outbound, old(sent), f)
        decreases |f.payload| - i
      {
        ghost var p := f.payload[i..];
        var part := f.payload[i..i + Min(CHUNK, |f.payload| - i)];
        ghost var before := out;
        if |p| > CHUNK {
          assert p[CHUNK..] == f.payload[i + CHUNK..] && p[..CHUNK] == part;
          assert Chunks(p)[1..] == Chunks(p[CHUNK..]);
        } else {
          assert part == p && Chunks(p) == [p] && Chunks(p)[1..] == [];
          assert SealAll(outbound, sent, Chunks(p)) == outbound.seal(sent, p) + [];
        }
        out := out + outbound.seal(sent, part);
        sent := sent + 1;
        i := i + CHUNK;
        if |p| > CHUNK {
          assert out + SealAll(outbound, sent, Chunks(p[CHUNK..]))
              == before + (outbound.seal(sent - 1, part) + SealAll(outbound, sent, Chunks(p[CHUNK..])));
        }
      }
      return Success(out);
    }

    /** The part of the input not yet opened, as decoder state. */
    ghost function Cursor(consumed: nat): Dec
      requires consumed <= |input|
      reads this
    {
      Dec(taken, incoming, remaining, input[consumed..])
    }

    /** Between calls and between loop iterations: live, and no frame without payload to come. */
    ghost predicate Live()
      reads this
    {
      ready && !failed && Ready(Decoder()) && (incoming.None? ==> remaining == 0)
    }

    /** Authenticate and parse the header at consumed. */
    method ReadHeader(consumed: nat, ghost out: seq<Frame>, ghost start: Dec) returns (ok: bool)
      requires Live() && incoming.None? && consumed + HEADER + TAG <= |input|
      requires Reached(inbound, start, out, Cursor(consumed))
      modifies this`failed, this`taken, this`remaining, this`incoming
      ensures failed == !ok
      ensures !ok ==> Drain(inbound, start).Failure?
      ensures ok ==> incoming.Some?
      ensures ok && remaining > 0 ==>
                Live() && Reached(inbound, start, out, Cursor(consumed + HEADER + TAG))
      ensures ok && remaining == 0 ==>
                Reached(inbound, start, out + [incoming.value], Start(taken, input[consumed + HEADER + TAG..]))
    {
      hide ReadUnit, Drain, Prepend;
      ghost var d := Cursor(consumed);
      var x := input[consumed..consumed + HEADER + TAG];
      assert d.input[..HEADER + TAG] == x;
      assert d.input[HEADER + TAG..] == input[consumed + HEADER + TAG..];
      var h := inbound.open(taken, x);
      HeaderUnit(inbound, d, h, out, start);
      if h.None? || |h.value| != HEADER {
        failed := true;
        return false;
      }
      taken := taken + 1;
      var n := h.value[3] as int + 0x100 * (h.value[4] as int) + 0x1_0000 * (h.value[5] as int);
      if n > MAX_PAYLOAD {
        failed := true;
        return false;
      }
      remaining := n;
      incoming := Some(Frame(h.value[0] as int + 0x100 * (h.value[1] as int), h.value[2], []));
      return true;
    }

    /** Authenticate the next n payload bytes at consumed. */
    method ReadChunk(consumed: nat, n: nat, ghost out: seq<Frame>, ghost start: Dec) returns (ok: bool)
      requires Live() && incoming.Some? && n == Min(remaining, CHUNK) && consumed + n + TAG <= |input|
      requires Reached(inbound, start, out, Cursor(consumed))
      modifies this`failed, this`taken, this`remaining, this`incoming
      ensures failed == !ok
      ensures !ok ==> Drain(inbound, start).Failure?
      ensures ok ==> incoming.Some?
      ensures ok && remaining > 0 ==> Live() && Reached(inbound, start, out, Cursor(consumed + n + TAG))
      ensures ok && remaining == 0 ==>
                Reached(inbound, start, out + [incoming.value], Start(taken, input[consumed + n + TAG..]))
    {
      hide ReadUnit, Drain, Prepend;
      ghost var d := Cursor(consumed);
      var x := input[consumed..consumed + n + TAG];
      assert d.input[..n + TAG] == x;
      assert d.input[n + TAG..] == input[consumed + n + TAG..];
      var p := inbound.open(taken, x);
      ChunkUnit(inbound, d, p, out, start);
      if p.None? {
        failed := true;
        return false;
      }
      taken := taken + 1;
      incoming := Some(incoming.value.(payload := incoming.value.payload + p.value));
      remaining := remaining - n;
      return true;
    }

    /** Open every complete message of the input. */
    method TakeFrames() returns (ok: bool, out: seq<Frame>, consumed: nat)
      requires Live()
      modifies this`failed, this`taken, this`remaining, this`incoming
      ensures failed == !ok
      ensures !ok ==> Drain(inbound, old(Decoder())).Failure?
                      || |Drain(inbound, old(Decoder())).value.1| > FLOOD_LIMIT
      ensures ok ==> Live() && consumed <= |input| && |out| <= FLOOD_LIMIT
      ensures ok ==> Drain(inbound, old(Decoder())) == Success((Cursor(consumed), out))
    {
      hide ReadUnit, Drain, Prepend;
      ghost var start := Decoder();
      ok, out, consumed := false, [], 0;
      assert Cursor(0) == start by {
        assert input[0..] == input;
      }
      PrependTwice([], [], Drain(inbound, start));
      while true
        invariant Live()
        invariant consumed <= |input| && |out| <= FLOOD_LIMIT
        invariant Reached(inbound, start, out, Cursor(consumed))
        decreases |input| - consumed
      {
        if incoming.None? {
          if |input| - consumed < HEADER + TAG {
            break;
          }
          ok := ReadHeader(consumed, out, start);
          if !ok {
            return;
          }
          consumed := consumed + HEADER + TAG;
        }
        if remaining > 0 {
          var n := Min(remaining, CHUNK);
          if |input| - consumed < n + TAG {
            break;
          }
          ok := ReadChunk(consumed, n, out, start);
          if !ok {
            return;
          }
          consumed := consumed + n + TAG;
          if remaining > 0 {
            continue;
          }
        }
        out := out + [incoming.value];
        incoming := None;
        if |out| > FLOOD_LIMIT {
          Flooded(out, Drain(inbound, Cursor(consumed)));
          ok, failed := false, true;
          return;
        }
      }
      AllTaken(inbound, Cursor(consumed), out);
      ok := true;
    }

    method Receive(b: Bytes) returns (r: Result<seq<Frame>>)
      requires Valid()
      modifies this
      ensures Valid() && ready == old(ready) && sent == old(sent)
      ensures failed == r.Failure?
      ensures r.Success? ==> old(ready) && !old(failed)
      ensures old(ready) && !old(failed) ==>
                match ReadSegment(inbound, old(Decoder()), b)
                case Failure => r.Failure?
                case Success((d, fs)) => r == Success(fs) && Decoder() == d
    {
      if !ready || failed || |input| + |b| > BUFFER_LIMIT {
        failed := true;
        return Failure;
      }
      input := input + b;
      var ok, out, consumed := TakeFrames();
      if !ok {
        return Failure;
      }
      input := input[consumed..];
      return Success(out);
    }
  }

  /** After opening some messages of start, the frames out are complete and d is what is left. */
  ghost predicate Reached(c: Cipher, start: Dec, out: seq<Frame>, d: Dec) {
    Drain(c, start) == Prepend(out, Drain(c, d))
  }

  /** What opening a header does to the invariant of the receive loop. */
  lemma HeaderUnit(c: Cipher, d: Dec, h: Option<Bytes>, out: seq<Frame>, start: Dec)
    requires d.incoming.None? && |d.input| >= HEADER + TAG
    requires h == c.open(d.count, d.input[..HEADER + TAG])
    requires Drain(c, start) == Prepend(out, Drain(c, d))
    ensures h.None? || |h.value| != HEADER ==> Drain(c, start).Failure?
    ensures h.Some? && |h.value| == HEADER ==>
              var p := h.value;
              var n := p[3] as int + 0x100 * (p[4] as int) + 0x1_0000 * (p[5] as int);
              var f := Frame(p[0] as int + 0x100 * (p[1] as int), p[2], []);
              var rest := d.input[HEADER + TAG..];
              if n > MAX_PAYLOAD then Drain(c, start).Failure?
              else if n == 0 then Drain(c, start) == Prepend(out + [f], Drain(c, Dec(d.count + 1, None, 0, rest)))
              else Drain(c, start) == Prepend(out, Drain(c, Dec(d.count + 1, Some(f), n, rest)))
  {
    hide Drain, Prepend;
    UnfoldDrain(c, d);
    if h.Some? && |h.value| == HEADER {
      HeaderFields(h.value);
    }
    if ReadUnit(c, d).Took? {
      DrainUnit(c, d, ReadUnit(c, d).next, ReadUnit(c, d).frame, out, start);
      assert out + [] == out;
    } else {
      PrependFailure(out);
    }
  }

  /** What opening a chunk does to the invariant of the receive loop. */
  lemma ChunkUnit(c: Cipher, d: Dec, p: Option<Bytes>, out: seq<Frame>, start: Dec)
    requires d.incoming.Some? && Ready(d) && |d.input| >= Need(d)
    requires p == c.open(d.count, d.input[..Need(d)])
    requires Drain(c, start) == Prepend(out, Drain(c, d))
    ensures p.None? ==> Drain(c, start).Failure?
    ensures p.Some? ==>
              var f := d.incoming.value.(payload := d.incoming.value.payload + p.value);
              var left := d.remaining - Min(d.remaining, CHUNK);
              var rest := d.input[Need(d)..];
              if left == 0 then Drain(c, start) == Prepend(out + [f], Drain(c, Dec(d.count + 1, None, 0, rest)))
              else Drain(c, start) == Prepend(out, Drain(c, Dec(d.count + 1, Some(f), left, rest)))
  {
    hide Drain, Prepend;
    UnfoldDrain(c, d);
    if ReadUnit(c, d).Took? {
      DrainUnit(c, d, ReadUnit(c, d).next, ReadUnit(c, d).frame, out, start);
      assert out + [] == out;
    } else {
      PrependFailure(out);
    }
  }

  lemma UnfoldDrain(c: Cipher, d: Dec)
    ensures ReadUnit(c, d).Bad? ==> Drain(c, d).Failure?
    ensures ReadUnit(c, d).Took? ==>
              Drain(c, d) == Prepend(Completed(ReadUnit(c, d).frame), Drain(c, ReadUnit(c, d).next))
  {
  }

  lemma PrependFailure(out: seq<Frame>)
    ensures Prepend(out, Failure).Failure?
  {
  }

  lemma Flooded(out: seq<Frame>, r: Result<(Dec, seq<Frame>)>)
    requires |out| > FLOOD_LIMIT
    ensures Prepend(out, r).Success? ==> |Prepend(out, r).value.1| > FLOOD_LIMIT
  {
  }

  lemma AllTaken(c: Cipher, d: Dec, out: seq<Frame>)
    requires Quiet(d)
    ensures Prepend(out, Drain(c, d)) == Success((d, out))
  {
    assert out + [] == out;
  }

  lemma HeaderFields(h: Bytes)
    requires |h| == HEADER
    ensures Le(h[0..2]) == h[0] as int + 0x100 * (h[1] as int)
    ensures Le(h[3..6]) == h[3] as int + 0x100 * (h[4] as int) + 0x1_0000 * (h[5] as int)
  {
    LeOfThree(h[3], h[4], h[5]);
    LeOfTwo(h[0], h[1]);
    assert h[0..2] == [h[0], h[1]];
    assert h[3..6] == [h[3], h[4], h[5]];
  }

  lemma LeOfTwo(a: byte, b: byte)
    ensures Le([a, b]) == a as int + 0x100 * (b as int)
  {
    assert [a, b][1..] == [b] && [b][1..] == [];
  }

  lemma LeOfThree(a: byte, b: byte, c: byte)
    ensures Le([a, b, c]) == a as int + 0x100 * (b as int) + 0x1_0000 * (c as int)
  {
    LeOfTwo(b, c);
    assert [a, b, c][1..] == [b, c];
  }

  /** One opened message carries the invariant of the receive loop forward. */
  lemma DrainUnit(c: Cipher, d: Dec, next: Dec, f: Option<Frame>, out: seq<Frame>, start: Dec)
    requires ReadUnit(c, d) == Took(next, f)
    requires Drain(c, start) == Prepend(out, Drain(c, d))
    ensures Drain(c, start) == Prepend(out + Completed(f), Drain(c, next))
  {
    PrependTwice(out, Completed(f), Drain(c, next));
  }
}
