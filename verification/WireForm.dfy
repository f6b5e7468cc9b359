/** The frames of both directions by byte offset, independent of how they are encoded or read. */
module WireForm {
  import opened Base
  import F = Framing
  import opened Codec

  predicate U32At(p: Bytes, i: nat, v: u32) {
    i + 4 <= |p| && Le(p[i..i + 4]) == v
  }

  predicate BytesAt(p: Bytes, i: nat, b: Bytes) {
    i + |b| <= |p| && p[i..i + |b|] == b
  }

  /** A length byte and as many bytes. */
  predicate TextAt(p: Bytes, i: nat, b: Bytes) {
    i + 1 + |b| <= |p| && p[i] == |b| && BytesAt(p, i + 1, b)
  }

  /** A 256-bit number, least significant byte first, that is not zero. */
  predicate TargetAt(p: Bytes, i: nat, t: Hash) {
    i + 32 <= |p| && Le(p[i..i + 32]) == Be(t) > 0
  }

  predicate TimeAt(p: Bytes, i: nat, t: Option<u32>) {
    i < |p| && if t.None? then p[i] == 0 else p[i] == 1 && U32At(p, i + 1, t.value)
  }

  function Room(t: Option<u32>): nat {
    if t.None? then 0 else 4
  }

  /** What a pool's message looks like. */
  predicate OnWire(m: Message, f: F.Frame) {
    var p := f.payload;
    f.extension == (if f.kind in {0x15, 0x18, 0x1c, 0x1d, 0x20, 0x21} then 0x8000 else 0)
    && match m
       case SetupSuccess(v, flags) => f.kind == 0x01 && |p| == 6 && Le(p[..2]) == v && U32At(p, 2, flags)
       case OpenSuccess(r, c, t, x, g) =>
         f.kind == 0x11 && |x| <= 32 && |p| == 45 + |x|
         && U32At(p, 0, r) && U32At(p, 4, c) && TargetAt(p, 8, t) && TextAt(p, 40, x) && U32At(p, 41 + |x|, g)
       case NewJob(c, j, t, v, root) =>
         var n := Room(t);
         f.kind == 0x15 && |p| == 45 + n
         && U32At(p, 0, c) && U32At(p, 4, j) && TimeAt(p, 8, t) && U32At(p, 9 + n, v) && BytesAt(p, 13 + n, root)
       case PrevHash(c, j, h, t, n) =>
         f.kind == 0x20 && |p| == 48
         && U32At(p, 0, c) && U32At(p, 4, j) && BytesAt(p, 8, h) && U32At(p, 40, t) && U32At(p, 44, n)
       case Target(c, t) => f.kind == 0x21 && |p| == 36 && U32At(p, 0, c) && TargetAt(p, 4, t)
       case Accepted(c, s, n, d) =>
         f.kind == 0x1c && |p| == 20
         && U32At(p, 0, c) && U32At(p, 4, s) && U32At(p, 8, n) && Le(p[12..20]) == d
       case Rejected(c, s, reason) =>
         f.kind == 0x1d && |reason| <= 255 && |p| == 9 + |reason|
         && U32At(p, 0, c) && U32At(p, 4, s) && TextAt(p, 8, reason)
       case Error(kind, r, reason) =>
         f.kind == kind && kind in {0x02, 0x12, 0x18} && |reason| <= 255 && |p| == 5 + |reason|
         && U32At(p, 0, r) && TextAt(p, 4, reason)
  }

  // ---------- Fields and concatenation ----------

  lemma IntAt(p: Bytes, i: nat, v: nat, n: nat)
    requires i + n <= |p| && v < Pow256(n)
    ensures Le(p[i..i + n]) == v <==> p[i..i + n] == LeBytes(v, n)
  {
    LeOfLeBytes(v, n);
    LeBytesOfLe(p[i..i + n]);
  }

  lemma U32Is(p: Bytes, i: nat, v: u32)
    ensures U32At(p, i, v) <==> BytesAt(p, i, Int32(v))
  {
    Pow256Values();
    if i + 4 <= |p| {
      IntAt(p, i, v, 4);
    }
  }

  lemma TextIs(p: Bytes, i: nat, b: Bytes)
    requires |b| <= 255
    ensures TextAt(p, i, b) <==> BytesAt(p, i, Text(b))
  {
    if i + 1 + |b| <= |p| {
      var s := p[i..i + 1 + |b|];
      assert s[0] == p[i] && s[1..] == p[i + 1..i + 1 + |b|];
      assert s == [s[0]] + s[1..];
    }
  }

  lemma TimeIs(p: Bytes, i: nat, t: Option<u32>)
    ensures TimeAt(p, i, t) <==> BytesAt(p, i, OptionalTime(t))
  {
    if t.Some? {
      U32Is(p, i + 1, t.value);
      Joined(p, i, [1], Int32(t.value));
    }
  }

  lemma {:induction false} ZeroNumber(b: Bytes)
    ensures Be(b) > 0 <==> exists i :: 0 <= i < |b| && b[i] != 0
    decreases |b|
  {
    if b != [] {
      var front := b[..|b| - 1];
      ZeroNumber(front);
      if Be(front) > 0 {
        var i :| 0 <= i < |front| && front[i] != 0;
        assert b[i] != 0;
      }
      if i :| 0 <= i < |b| && b[i] != 0 && b[|b| - 1] == 0 {
        assert front[i] != 0;
      }
    }
  }

  lemma TargetIs(p: Bytes, i: nat, t: Hash)
    ensures TargetAt(p, i, t) <==> BytesAt(p, i, Reverse(t)) && Nonzero(t)
  {
    ZeroNumber(t);
    if i + 32 <= |p| {
      var s := p[i..i + 32];
      BeOfReverse(s);
      ReverseTwice(s);
      ReverseTwice(t);
      if Be(Reverse(s)) == Be(t) {
        BeInjective(Reverse(s), t);
      }
      hide Be, Le;
    }
  }

  /** Two fields next to each other are one. */
  lemma Joined(p: Bytes, i: nat, a: Bytes, b: Bytes)
    ensures BytesAt(p, i, a + b) <==> BytesAt(p, i, a) && BytesAt(p, i + |a|, b)
  {
    if i + |a| + |b| <= |p| {
      var s := p[i..i + |a| + |b|];
      assert s[..|a|] == p[i..i + |a|] && s[|a|..] == p[i + |a|..i + |a| + |b|];
      assert s == s[..|a|] + s[|a|..];
    }
  }

  lemma Filled(p: Bytes, b: Bytes)
    ensures p == b <==> |p| == |b| && BytesAt(p, 0, b)
  {
    assert p[0..] == p;
  }

  /** Four fields in a row, the last made of what is left. */
  lemma Row(p: Bytes, a: Bytes, b: Bytes, c: Bytes, d: Bytes)
    ensures p == a + (b + (c + d)) <==>
              && |p| == |a| + |b| + |c| + |d| && BytesAt(p, 0, a) && BytesAt(p, |a|, b)
              && BytesAt(p, |a| + |b|, c) && BytesAt(p, |a| + |b| + |c|, d)
  {
    Filled(p, a + (b + (c + d)));
    Joined(p, 0, a, b + (c + d));
    Joined(p, |a|, b, c + d);
    Joined(p, |a| + |b|, c, d);
    hide BytesAt;
  }

  // ---------- From the pool ----------

  lemma OpenOnWire(m: Message, p: Bytes)
    requires m.OpenSuccess? && |m.prefix| <= 32 && Nonzero(m.target)
    ensures p == PayloadOf(m) <==> OnWire(m, F.Frame(0, 0x11, p))
  {
    var x, g := m.prefix, Int32(m.group);
    Row(p, Int32(m.request), Int32(m.channel), Reverse(m.target), Text(x) + g);
    Joined(p, 40, Text(x), g);
    U32Is(p, 0, m.request);
    U32Is(p, 4, m.channel);
    TargetIs(p, 8, m.target);
    TextIs(p, 40, x);
    U32Is(p, 41 + |x|, m.group);
    hide BytesAt, U32At, TargetAt, TextAt, Nonzero, LeBytes, Reverse;
  }

  lemma JobOnWire(m: Message, p: Bytes)
    requires m.NewJob?
    ensures p == PayloadOf(m) <==> OnWire(m, F.Frame(CHANNEL_BIT, 0x15, p))
  {
    var n, t, v := Room(m.ntime), OptionalTime(m.ntime), Int32(m.version32);
    Row(p, Int32(m.channel), Int32(m.job), t, v + m.root);
    Joined(p, 9 + n, v, m.root);
    U32Is(p, 0, m.channel);
    U32Is(p, 4, m.job);
    TimeIs(p, 8, m.ntime);
    U32Is(p, 9 + n, m.version32);
    hide BytesAt, U32At, TimeAt, LeBytes;
  }

  lemma PrevHashOnWire(m: Message, p: Bytes)
    requires m.PrevHash?
    ensures p == PayloadOf(m) <==> OnWire(m, F.Frame(CHANNEL_BIT, 0x20, p))
  {
    Row(p, Int32(m.channel), Int32(m.job), m.hash, Int32(m.time) + Int32(m.nbits));
    Joined(p, 40, Int32(m.time), Int32(m.nbits));
    U32Is(p, 0, m.channel);
    U32Is(p, 4, m.job);
    U32Is(p, 40, m.time);
    U32Is(p, 44, m.nbits);
    hide BytesAt, U32At, LeBytes;
  }

  lemma AckOnWire(m: Message, p: Bytes)
    requires m.Accepted?
    ensures p == PayloadOf(m) <==> OnWire(m, F.Frame(CHANNEL_BIT, 0x1c, p))
  {
    Pow256Values();
    Row(p, Int32(m.channel), Int32(m.last), Int32(m.count), LeBytes(m.difficulty, 8));
    U32Is(p, 0, m.channel);
    U32Is(p, 4, m.last);
    U32Is(p, 8, m.count);
    if |p| == 20 {
      IntAt(p, 12, m.difficulty, 8);
    }
    hide U32At, LeBytes;
  }

  lemma ShortOnWire(m: Message, p: Bytes)
    requires Sendable(m) && (m.SetupSuccess? || m.Target? || m.Rejected? || m.Error?)
    ensures p == PayloadOf(m) <==> OnWire(m, F.Frame(ExtensionFor(KindOf(m)), KindOf(m), p))
  {
    Pow256Values();
    Filled(p, PayloadOf(m));
    match m {
      case SetupSuccess(v, flags) =>
        Joined(p, 0, LeBytes(v, 2), Int32(flags));
        U32Is(p, 2, flags);
        if |p| == 6 {
          IntAt(p, 0, v, 2);
        }
        hide U32At, LeBytes;
      case Target(c, t) =>
        Joined(p, 0, Int32(c), Reverse(t));
        U32Is(p, 0, c);
        TargetIs(p, 4, t);
        hide BytesAt, U32At, TargetAt, Nonzero, LeBytes, Reverse;
      case Rejected(c, s, reason) =>
        Joined(p, 0, Int32(c), Int32(s) + Text(reason));
        Joined(p, 4, Int32(s), Text(reason));
        U32Is(p, 0, c);
        U32Is(p, 4, s);
        TextIs(p, 8, reason);
        hide BytesAt, U32At, TextAt, LeBytes;
      case Error(_, r, reason) =>
        Joined(p, 0, Int32(r), Text(reason));
        U32Is(p, 0, r);
        TextIs(p, 4, reason);
        hide BytesAt, U32At, TextAt, LeBytes;
    }
  }

  lemma WireIsSendable(m: Message, f: F.Frame)
    requires OnWire(m, f)
    ensures Sendable(m) && f.kind == KindOf(m) && f.extension == ExtensionFor(f.kind)
  {
    match m {
      case OpenSuccess(_, _, t, _, _) => TargetIs(f.payload, 8, t);
      case Target(_, t) => TargetIs(f.payload, 4, t);
      case _ =>
    }
    hide U32At, TextAt, TargetAt, TimeAt, BytesAt, Nonzero;
  }

  /** A frame decodes to a message exactly when it has that message's fields at their offsets and nothing else. */
  lemma DecodeIsWireForm(f: F.Frame, m: Message)
    ensures Decode(f) == Success(m) <==> OnWire(m, f)
  {
    DecodeIsCanonical(f, m);
    if OnWire(m, f) {
      WireIsSendable(m, f);
    }
    if Sendable(m) && f.kind == KindOf(m) && f.extension == ExtensionFor(f.kind) {
      PayloadIsWireForm(f, m);
    }
    hide OnWire, Decode, Sendable, PayloadOf;
  }

  lemma PayloadIsWireForm(f: F.Frame, m: Message)
    requires Sendable(m) && f.kind == KindOf(m) && f.extension == ExtensionFor(f.kind)
    ensures f.payload == PayloadOf(m) <==> OnWire(m, f)
  {
    hide OnWire, PayloadOf;
    match m
    case OpenSuccess(_, _, _, _, _) => OpenOnWire(m, f.payload);
    case NewJob(_, _, _, _, _) => JobOnWire(m, f.payload);
    case PrevHash(_, _, _, _, _) => PrevHashOnWire(m, f.payload);
    case Accepted(_, _, _, _) => AckOnWire(m, f.payload);
    case _ => ShortOnWire(m, f.payload);
  }

  // ---------- To the pool ----------

  /** A share: channel, sequence, job, nonce, time and version, four bytes each. */
  predicate IsSubmit(f: F.Frame, c: u32, s: u32, j: u32, n: u32, t: u32, v: u32) {
    var p := f.payload;
    && f.extension == 0x8000 && f.kind == 0x1a && |p| == 24
    && U32At(p, 0, c) && U32At(p, 4, s) && U32At(p, 8, j) && U32At(p, 12, n) && U32At(p, 16, t) && U32At(p, 20, v)
  }

  lemma SubmitOnWire(f: F.Frame, c: u32, s: u32, j: u32, n: u32, t: u32, v: u32)
    ensures f == SubmitStandard(c, s, j, n, t, v) <==> IsSubmit(f, c, s, j, n, t, v)
  {
    var p := f.payload;
    Row(p, Int32(c), Int32(s), Int32(j), Int32(n) + (Int32(t) + Int32(v)));
    Joined(p, 12, Int32(n), Int32(t) + Int32(v));
    Joined(p, 16, Int32(t), Int32(v));
    U32Is(p, 0, c);
    U32Is(p, 4, s);
    U32Is(p, 8, j);
    U32Is(p, 12, n);
    U32Is(p, 16, t);
    U32Is(p, 20, v);
    hide BytesAt, U32At, LeBytes;
  }

  /** A request for a channel: identifier, user, nominal rate, and the easiest target the miner takes. */
  predicate IsOpen(f: F.Frame, request: u32, user: Bytes, rate: u32, maximum: Hash) {
    var (p, n) := (f.payload, 5 + |user|);
    && f.extension == 0 && f.kind == 0x10 && |p| == n + 36
    && U32At(p, 0, request) && TextAt(p, 4, user) && U32At(p, n, rate) && TargetAt(p, n + 4, maximum)
  }

  /** Bit patterns below the one of infinity are the finite numbers from zero up; one more is minus zero. */
  lemma RateIs(bits: u32)
    ensures RateOk(bits) <==> bits < 0x7f80_0000 || bits == 0x8000_0000
  {
    var e := bits / 0x80_0000;
    assert bits == 0x80_0000 * e + bits % 0x80_0000 && e < 0x200;
  }

  /** There is a request exactly for a finite rate that is not negative and a user name of at most 255 bytes. */
  lemma OpenRequestOnWire(f: F.Frame, request: u32, user: Bytes, rate: u32, maximum: Hash)
    requires Nonzero(maximum)
    ensures OpenStandard(request, user, rate, maximum) == Success(f)
            <==> (rate < 0x7f80_0000 || rate == 0x8000_0000) && |user| <= 255
                 && IsOpen(f, request, user, rate, maximum)
  {
    RateIs(rate);
    var (p, n) := (f.payload, 5 + |user|);
    if |user| <= 255 {
      Row(p, Int32(request), Text(user), Int32(rate), Reverse(maximum));
      assert Int32(request) + Text(user) + Int32(rate) + Reverse(maximum)
          == Int32(request) + (Text(user) + (Int32(rate) + Reverse(maximum)));
      U32Is(p, 0, request);
      TextIs(p, 4, user);
      U32Is(p, n, rate);
      TargetIs(p, n + 4, maximum);
    }
    hide BytesAt, U32At, TextAt, TargetAt, LeBytes, Nonzero, RateOk, Reverse;
  }
}
