/**
  Authenticity against a peer: the cipher opens nothing but the messages the peer sealed, each at its own
  counter. Whatever bytes arrive, the frames delivered are then the first ones the peer sent.
 */
module PeerLog {
  import opened Base
  import opened Framing

  /** The contents the peer sealed for these frames, in counter order. */
  function LogOf(fs: seq<Frame>): seq<Bytes> {
    if fs == [] then [] else [HeaderOf(fs[0])] + Chunks(fs[0].payload) + LogOf(fs[1..])
  }

  ghost predicate OpensLogged(c: Cipher, log: seq<Bytes>, n: nat, x: Bytes) {
    c.open(n, x).Some? ==> n < |log| && c.open(n, x).value == log[n]
  }

  /** At counter n only the peer's n-th message opens; nothing opens after the last one. */
  ghost predicate Sealed(c: Cipher, log: seq<Bytes>) {
    forall n, x :: OpensLogged(c, log, n, x)
  }

  /** The cipher that opens exactly the logged messages under any sealing. */
  function Logged(seal: (nat, Bytes) -> Bytes, log: seq<Bytes>): Cipher {
    Cipher(seal, (n: nat, x: Bytes) => if n < |log| && x == seal(n, log[n]) then Some(log[n]) else None)
  }

  lemma LoggedIsSealed(seal: (nat, Bytes) -> Bytes, log: seq<Bytes>)
    ensures Sealed(Logged(seal, log), log)
    ensures forall n: nat :: n < |log| ==> Logged(seal, log).open(n, seal(n, log[n])) == Some(log[n])
  {
    forall n: nat, x: Bytes
      ensures OpensLogged(Logged(seal, log), log, n, x)
    {
    }
  }

  /** The receiver has consumed the log up to the frames still to come, the first of them perhaps begun. */
  ghost predicate Awaits(log: seq<Bytes>, d: Dec, rest: seq<Frame>) {
    d.count <= |log|
    && match d.incoming
       case None => log[d.count..] == LogOf(rest)
       case Some(f) =>
         && d.remaining > 0 && rest != []
         && f.payload <= rest[0].payload && f.(payload := rest[0].payload) == rest[0]
         && d.remaining == |rest[0].payload| - |f.payload|
         && log[d.count..] == Chunks(rest[0].payload[|f.payload|..]) + LogOf(rest[1..])
  }

  lemma OpenedIsNext(c: Cipher, log: seq<Bytes>, d: Dec) returns (p: Bytes)
    requires Sealed(c, log) && ReadUnit(c, d).Took? && d.count <= |log|
    ensures d.count < |log| && p == log[d.count] && log[d.count..] == [p] + log[d.count + 1..]
    ensures |d.input| >= Need(d) && c.open(d.count, d.input[..Need(d)]) == Some(p)
  {
    var x := d.input[..Need(d)];
    assert OpensLogged(c, log, d.count, x);
    p := log[d.count];
  }

  lemma NextHeader(log: seq<Bytes>, n: nat, p: Bytes, rest: seq<Frame>)
    requires n < |log| && log[n..] == LogOf(rest) && log[n..] == [p] + log[n + 1..]
    ensures rest != [] && p == HeaderOf(rest[0])
    ensures log[n + 1..] == Chunks(rest[0].payload) + LogOf(rest[1..])
  {
    hide Chunks, HeaderOf;
    var f := rest[0];
    var all := [HeaderOf(f)] + (Chunks(f.payload) + LogOf(rest[1..]));
    assert LogOf(rest) == all;
    assert all[0] == HeaderOf(f) && all[1..] == Chunks(f.payload) + LogOf(rest[1..]);
    assert ([p] + log[n + 1..])[0] == p && ([p] + log[n + 1..])[1..] == log[n + 1..];
  }

  lemma HeaderStep(c: Cipher, log: seq<Bytes>, d: Dec, rest: seq<Frame>)
    requires Sealed(c, log) && Sendable(rest) && d.incoming.None? && Awaits(log, d, rest) && ReadUnit(c, d).Took?
    ensures rest != []
    ensures var Took(next, done) := ReadUnit(c, d);
            if done.Some? then done == Some(rest[0]) && Awaits(log, next, rest[1..]) else Awaits(log, next, rest)
  {
    var p := OpenedIsNext(c, log, d);
    NextHeader(log, d.count, p, rest);
    HeaderParses(rest[0]);
    hide HeaderOf, LogOf;
    var f := rest[0];
    if f.payload == [] {
      assert Chunks(f.payload) + LogOf(rest[1..]) == LogOf(rest[1..]);
    } else {
      assert f.payload[0..] == f.payload;
    }
  }

  lemma ChunksHead(p: Bytes)
    requires p != []
    ensures Chunks(p) == [p[..Min(|p|, CHUNK)]] + Chunks(p[Min(|p|, CHUNK)..])
  {
    if |p| <= CHUNK {
      assert p[..|p|] == p && p[|p|..] == [];
    }
  }

  lemma NextChunk(p: Bytes, more: seq<Bytes>, x: Bytes, after: seq<Bytes>)
    requires p != [] && Chunks(p) + more == [x] + after
    ensures x == p[..Min(|p|, CHUNK)] && after == Chunks(p[Min(|p|, CHUNK)..]) + more
  {
    hide Chunks;
    ChunksHead(p);
    var first, tail := p[..Min(|p|, CHUNK)], Chunks(p[Min(|p|, CHUNK)..]) + more;
    var all := [first] + tail;
    assert Chunks(p) + more == all;
    assert all[0] == first && all[1..] == tail;
    assert ([x] + after)[0] == x && ([x] + after)[1..] == after;
  }

  lemma ChunkStep(c: Cipher, log: seq<Bytes>, d: Dec, rest: seq<Frame>)
    requires Sealed(c, log) && d.incoming.Some? && Awaits(log, d, rest) && ReadUnit(c, d).Took?
    ensures rest != []
    ensures var Took(next, done) := ReadUnit(c, d);
            if done.Some? then done == Some(rest[0]) && Awaits(log, next, rest[1..]) else Awaits(log, next, rest)
  {
    hide LogOf;
    var x := OpenedIsNext(c, log, d);
    var f := d.incoming.value;
    var whole := rest[0].payload;
    var p := whole[|f.payload|..];
    var k := Min(|p|, CHUNK);
    NextChunk(p, LogOf(rest[1..]), x, log[d.count + 1..]);
    hide Chunks;
    assert whole == f.payload + p && p == x + p[k..];
    var g := f.payload + x;
    assert g <= whole && whole[|g|..] == p[k..];
    if k == |p| {
      assert g == whole;
      assert Chunks([]) == [] && Chunks(p[k..]) + LogOf(rest[1..]) == LogOf(rest[1..]);
    }
  }

  lemma {:induction false} DeliversNext(c: Cipher, log: seq<Bytes>, d: Dec, rest: seq<Frame>)
    requires Sealed(c, log) && Sendable(rest) && Awaits(log, d, rest) && Drain(c, d).Success?
    ensures var (e, out) := Drain(c, d).value; out <= rest && Awaits(log, e, rest[|out|..])
    decreases |d.input|
  {
    hide Awaits, Sealed, ReadUnit;
    if ReadUnit(c, d).Took? {
      if d.incoming.None? {
        HeaderStep(c, log, d, rest);
      } else {
        ChunkStep(c, log, d, rest);
      }
      var Took(next, done) := ReadUnit(c, d);
      var left := if done.Some? then rest[1..] else rest;
      TookShrinks(c, d);
      DeliversNext(c, log, next, left);
      var (e, out) := Drain(c, next).value;
      assert rest == Completed(done) + left;
      assert Completed(done) + out <= rest;
      assert rest[|Completed(done) + out|..] == left[|out|..];
    } else {
      assert rest[0..] == rest;
    }
  }

  lemma TookShrinks(c: Cipher, d: Dec)
    ensures ReadUnit(c, d).Took? ==> |ReadUnit(c, d).next.input| < |d.input|
  {
  }

  /**
    Whatever bytes an attacker puts on the wire and however they are cut: as long as the receiver has not
    failed, what it delivered is a prefix of the frames the peer sealed.
   */
  lemma Genuine(c: Cipher, fs: seq<Frame>, segments: seq<Bytes>)
    requires Sealed(c, LogOf(fs)) && Sendable(fs) && ReceiveAll(c, Start(0, []), segments).Success?
    ensures ReceiveAll(c, Start(0, []), segments).value.1 <= fs
  {
    assert LogOf(fs)[0..] == LogOf(fs);
    GenuineFrom(c, LogOf(fs), Start(0, []), fs, segments);
  }

  lemma {:induction false} GenuineFrom(c: Cipher, log: seq<Bytes>, d: Dec, rest: seq<Frame>, segments: seq<Bytes>)
    requires Sealed(c, log) && Sendable(rest) && Awaits(log, d, rest) && ReceiveAll(c, d, segments).Success?
    ensures var (e, out) := ReceiveAll(c, d, segments).value; out <= rest && Awaits(log, e, rest[|out|..])
    decreases |segments|
  {
    hide Drain, Sealed;
    if segments == [] {
      hide Awaits;
      assert rest[0..] == rest;
    } else {
      var fed := Feed(d, segments[0]);
      assert Awaits(log, fed, rest);
      hide Awaits;
      DeliversNext(c, log, fed, rest);
      var (e, out) := ReadSegment(c, d, segments[0]).value;
      GenuineFrom(c, log, e, rest[|out|..], segments[1..]);
      var more := ReceiveAll(c, e, segments[1..]).value.1;
      assert out + more <= rest;
      assert rest[|out|..][|more|..] == rest[|out + more|..];
    }
  }
}
