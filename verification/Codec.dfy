/**
  SV2 messages on the wire. Decoding is checked against an encoder for the pool's side: it
  accepts exactly the frames that encoder can produce.
 */
module Codec {
  import opened Base
  import opened Framing
  import Bits

  datatype Message =
    | SetupSuccess(version: u16, flags: u32)
    | OpenSuccess(request: u32, channel: u32, target: Hash, prefix: Bytes, group: u32)
    | NewJob(channel: u32, job: u32, ntime: Option<u32>, version32: u32, root: Hash)
    | PrevHash(channel: u32, job: u32, hash: Hash, time: u32, nbits: u32)
    | Target(channel: u32, target: Hash)
    | Accepted(channel: u32, last: u32, count: u32, difficulty: u64)
    | Rejected(channel: u32, sequence: u32, reason: Bytes)
    | Error(kind: byte, reference: u32, reason: Bytes)

  const CHANNEL_BIT: u16 := 0x8000

  // ---------- The encoder specification ----------

  function Int32(v: u32): Bytes {
    LeBytes(v, 4)
  }

  function Text(b: Bytes): Bytes
    requires |b| <= 255
  {
    [|b|] + b
  }

  ghost predicate Nonzero(h: Hash) {
    exists i :: 0 <= i < 32 && h[i] != 0
  }

  /** Messages a pool may send. */
  ghost predicate Sendable(m: Message) {
    match m
    case OpenSuccess(_, _, t, p, _) => Nonzero(t) && |p| <= 32
    case Target(_, t) => Nonzero(t)
    case Rejected(_, _, reason) => |reason| <= 255
    case Error(kind, _, reason) => kind in {0x02, 0x12, 0x18} && |reason| <= 255
    case _ => true
  }

  function KindOf(m: Message): byte {
    match m
    case SetupSuccess(_, _) => 0x01
    case OpenSuccess(_, _, _, _, _) => 0x11
    case NewJob(_, _, _, _, _) => 0x15
    case PrevHash(_, _, _, _, _) => 0x20
    case Target(_, _) => 0x21
    case Accepted(_, _, _, _) => 0x1c
    case Rejected(_, _, _) => 0x1d
    case Error(kind, _, _) => kind
  }

  function ExtensionFor(kind: byte): u16 {
    if 0x15 <= kind <= 0x24 then CHANNEL_BIT else 0
  }

  function OptionalTime(t: Option<u32>): Bytes {
    match t case None => [0] case Some(v) => [1] + Int32(v)
  }

  function PayloadOf(m: Message): Bytes
    requires Sendable(m)
  {
    match m
    case SetupSuccess(v, f) => LeBytes(v, 2) + Int32(f)
    case OpenSuccess(r, c, t, p, g) => Int32(r) + (Int32(c) + (Reverse(t) + (Text(p) + Int32(g))))
    case NewJob(c, j, t, v, root) => Int32(c) + (Int32(j) + (OptionalTime(t) + (Int32(v) + root)))
    case PrevHash(c, j, h, t, n) => Int32(c) + (Int32(j) + (h + (Int32(t) + Int32(n))))
    case Target(c, t) => Int32(c) + Reverse(t)
    case Accepted(c, s, n, d) => Int32(c) + (Int32(s) + (Int32(n) + LeBytes(d, 8)))
    case Rejected(c, s, reason) => Int32(c) + (Int32(s) + Text(reason))
    case Error(_, r, reason) => Int32(r) + Text(reason)
  }

  function EncodeMessage(m: Message): Frame
    requires Sendable(m)
  {
    Frame(ExtensionFor(KindOf(m)), KindOf(m), PayloadOf(m))
  }

  // ---------- Reading ----------

  function TakeBytes(b: Bytes, n: nat): (r: Result<(Bytes, Bytes)>)
    ensures r.Success? ==> |r.value.0| == n
  {
    if |b| < n then Failure else Success((b[..n], b[n..]))
  }

  function TakeInt(b: Bytes, n: nat): (r: Result<(nat, Bytes)>)
    ensures r.Success? ==> r.value.0 < Pow256(n)
  {
    var (x, rest) :- TakeBytes(b, n);
    Success((Le(x), rest))
  }

  function Take32(b: Bytes): Result<(u32, Bytes)> {
    Pow256Values();
    TakeInt(b, 4)
  }

  function TakeHash(b: Bytes): Result<(Hash, Bytes)> {
    TakeBytes(b, 32)
  }

  ghost function TakeTarget(b: Bytes): Result<(Hash, Bytes)> {
    var (h, rest) :- TakeBytes(b, 32);
    if Nonzero(Reverse(h)) then Success((Reverse(h), rest)) else Failure
  }

  function TakeText(b: Bytes, max: nat): Result<(Bytes, Bytes)> {
    var (n, rest) :- TakeInt(b, 1);
    if n > max then Failure else TakeBytes(rest, n)
  }

  function TakeTime(b: Bytes): Result<(Option<u32>, Bytes)> {
    var (present, rest) :- TakeInt(b, 1);
    if present > 1 then Failure
    else if present == 0 then Success((None, rest))
    else
      var (t, rest) :- Take32(rest);
      Success((Some(t), rest))
  }

  /** The message at the start of b, with what follows it. */
  ghost function TakeMessage(kind: byte, b: Bytes): Result<(Message, Bytes)> {
    if kind == 0x01 then
      var (v, b) :- TakeInt(b, 2);
      var (f, b) :- Take32(b);
      Pow256Values();
      Success((SetupSuccess(v, f), b))
    else if kind == 0x11 then
      var (r, b) :- Take32(b);
      var (c, b) :- Take32(b);
      var (t, b) :- TakeTarget(b);
      var (p, b) :- TakeText(b, 32);
      var (g, b) :- Take32(b);
      Success((OpenSuccess(r, c, t, p, g), b))
    else if kind == 0x15 then
      var (c, b) :- Take32(b);
      var (j, b) :- Take32(b);
      var (t, b) :- TakeTime(b);
      var (v, b) :- Take32(b);
      var (root, b) :- TakeHash(b);
      Success((NewJob(c, j, t, v, root), b))
    else if kind == 0x20 then
      var (c, b) :- Take32(b);
      var (j, b) :- Take32(b);
      var (h, b) :- TakeHash(b);
      var (t, b) :- Take32(b);
      var (n, b) :- Take32(b);
      Success((PrevHash(c, j, h, t, n), b))
    else if kind == 0x21 then
      var (c, b) :- Take32(b);
      var (t, b) :- TakeTarget(b);
      Success((Target(c, t), b))
    else if kind == 0x1c then
      var (c, b) :- Take32(b);
      var (s, b) :- Take32(b);
      var (n, b) :- Take32(b);
      var (d, b) :- TakeInt(b, 8);
      Pow256Values();
      Success((Accepted(c, s, n, d), b))
    else if kind == 0x1d then
      var (c, b) :- Take32(b);
      var (s, b) :- Take32(b);
      var (reason, b) :- TakeText(b, 255);
      Success((Rejected(c, s, reason), b))
    else if kind in {0x02, 0x12, 0x18} then
      var (r, b) :- Take32(b);
      var (reason, b) :- TakeText(b, 255);
      Success((Error(kind, r, reason), b))
    else Failure
  }

  ghost function Decode(f: Frame): Result<Message> {
    if f.extension != ExtensionFor(f.kind) then Failure
    else
      var (m, rest) :- TakeMessage(f.kind, f.payload);
      if rest != [] then Failure else Success(m)
  }

  // ---------- Fields ----------

  lemma BytesField(x: Bytes, rest: Bytes)
    ensures TakeBytes(x + rest, |x|) == Success((x, rest))
  {
  }

  lemma IntField(v: nat, n: nat, rest: Bytes)
    requires v < Pow256(n)
    ensures TakeInt(LeBytes(v, n) + rest, n) == Success((v, rest))
  {
    BytesField(LeBytes(v, n), rest);
    LeOfLeBytes(v, n);
  }

  lemma IntFieldBack(b: Bytes, n: nat)
    requires TakeInt(b, n).Success?
    ensures b == LeBytes(TakeInt(b, n).value.0, n) + TakeInt(b, n).value.1
  {
    LeBytesOfLe(b[..n]);
  }

  lemma Field32(v: u32, rest: Bytes)
    ensures Take32(Int32(v) + rest) == Success((v, rest))
  {
    Pow256Values();
    IntField(v, 4, rest);
  }

  lemma Field32Back(b: Bytes)
    requires Take32(b).Success?
    ensures b == Int32(Take32(b).value.0) + Take32(b).value.1
  {
    IntFieldBack(b, 4);
  }

  lemma ByteField(v: byte, rest: Bytes)
    ensures TakeInt([v] + rest, 1) == Success((v, rest))
  {
    assert ([v] + rest)[..1] == [v];
    assert [v][1..] == [];
    assert ([v] + rest)[1..] == rest;
  }

  lemma ByteFieldBack(b: Bytes)
    requires TakeInt(b, 1).Success?
    ensures TakeInt(b, 1).value.0 < 256 && b == [TakeInt(b, 1).value.0] + TakeInt(b, 1).value.1
  {
    Pow256Values();
    assert b[..1][1..] == [];
  }

  lemma TextField(x: Bytes, max: nat, rest: Bytes)
    requires |x| <= max <= 255
    ensures TakeText(Text(x) + rest, max) == Success((x, rest))
  {
    assert Text(x) + rest == [|x|] + (x + rest);
    ByteField(|x|, x + rest);
    BytesField(x, rest);
  }

  lemma TextFieldBack(b: Bytes, max: nat)
    requires max <= 255 && TakeText(b, max).Success?
    ensures |TakeText(b, max).value.0| <= max
    ensures b == Text(TakeText(b, max).value.0) + TakeText(b, max).value.1
  {
    ByteFieldBack(b);
  }

  lemma TargetField(t: Hash, rest: Bytes)
    requires Nonzero(t)
    ensures TakeTarget(Reverse(t) + rest) == Success((t, rest))
  {
    BytesField(Reverse(t), rest);
    ReverseTwice(t);
  }

  lemma TargetFieldBack(b: Bytes)
    requires TakeTarget(b).Success?
    ensures Nonzero(TakeTarget(b).value.0) && b == Reverse(TakeTarget(b).value.0) + TakeTarget(b).value.1
  {
    ReverseTwice(b[..32]);
  }

  lemma TimeField(t: Option<u32>, rest: Bytes)
    ensures TakeTime(OptionalTime(t) + rest) == Success((t, rest))
  {
    match t
    case None => ByteField(0, rest);
    case Some(v) =>
      assert OptionalTime(t) + rest == [1] + (Int32(v) + rest);
      ByteField(1, Int32(v) + rest);
      Field32(v, rest);
  }

  lemma TimeFieldBack(b: Bytes)
    requires TakeTime(b).Success?
    ensures b == OptionalTime(TakeTime(b).value.0) + TakeTime(b).value.1
  {
    ByteFieldBack(b);
    var (present, rest) := TakeInt(b, 1).value;
    if present == 1 {
      Field32Back(rest);
      assert [1] + (Int32(Take32(rest).value.0) + Take32(rest).value.1) == [1] + Int32(Take32(rest).value.0) + Take32(rest).value.1;
    }
  }

  // ---------- Canonical decoding ----------

  lemma Ended(x: Bytes)
    ensures x + [] == x
  {
  }

  lemma HashField(h: Hash, rest: Bytes)
    ensures TakeHash(h + rest) == Success((h, rest))
  {
    BytesField(h, rest);
  }

  lemma HashFieldBack(b: Bytes)
    requires TakeHash(b).Success?
    ensures b == TakeHash(b).value.0 + TakeHash(b).value.1
  {
  }

  lemma OpenRoundTrip(m: Message)
    requires Sendable(m) && m.OpenSuccess?
    ensures TakeMessage(0x11, PayloadOf(m)) == Success((m, []))
  {
    hide Take32, TakeInt, TakeBytes, TakeText, TakeTarget, TakeTime, TakeHash, Int32, LeBytes, Text, OptionalTime,
         Nonzero, Reverse;
    var g := Int32(m.group);
    var p := Text(m.prefix) + g;
    var t := Reverse(m.target) + p;
    Field32(m.request, Int32(m.channel) + t);
    Field32(m.channel, t);
    TargetField(m.target, p);
    TextField(m.prefix, 32, g);
    Ended(g);
    Field32(m.group, []);
  }

  lemma JobRoundTrip(m: Message)
    requires m.NewJob?
    ensures TakeMessage(0x15, PayloadOf(m)) == Success((m, []))
  {
    hide Take32, TakeInt, TakeBytes, TakeText, TakeTarget, TakeTime, TakeHash, Int32, LeBytes, Text, OptionalTime,
         Nonzero, Reverse;
    var v := Int32(m.version32) + m.root;
    var t := OptionalTime(m.ntime) + v;
    Field32(m.channel, Int32(m.job) + t);
    Field32(m.job, t);
    TimeField(m.ntime, v);
    Field32(m.version32, m.root);
    Ended(m.root);
    HashField(m.root, []);
  }

  lemma PrevHashRoundTrip(m: Message)
    requires m.PrevHash?
    ensures TakeMessage(0x20, PayloadOf(m)) == Success((m, []))
  {
    hide Take32, TakeInt, TakeBytes, TakeText, TakeTarget, TakeTime, TakeHash, Int32, LeBytes, Text, OptionalTime,
         Nonzero, Reverse;
    var n := Int32(m.nbits);
    var t := Int32(m.time) + n;
    var h := m.hash + t;
    Field32(m.channel, Int32(m.job) + h);
    Field32(m.job, h);
    HashField(m.hash, t);
    Field32(m.time, n);
    Ended(n);
    Field32(m.nbits, []);
  }

  lemma AckRoundTrip(m: Message)
    requires Sendable(m) && (m.Accepted? || m.Rejected?)
    ensures TakeMessage(KindOf(m), PayloadOf(m)) == Success((m, []))
  {
    hide Take32, TakeInt, TakeBytes, TakeText, TakeTarget, TakeTime, TakeHash, Int32, LeBytes, Text, OptionalTime,
         Nonzero, Reverse;
    Pow256Values();
    match m
    case Accepted(c, s, n, d) =>
      var last := LeBytes(d, 8);
      Field32(c, Int32(s) + (Int32(n) + last));
      Field32(s, Int32(n) + last);
      Field32(n, last);
      Ended(last);
      IntField(d, 8, []);
    case Rejected(c, s, reason) =>
      var last := Text(reason);
      Field32(c, Int32(s) + last);
      Field32(s, last);
      Ended(last);
      TextField(reason, 255, []);
  }

  lemma ShortRoundTrip(m: Message)
    requires Sendable(m) && (m.SetupSuccess? || m.Target? || m.Error?)
    ensures TakeMessage(KindOf(m), PayloadOf(m)) == Success((m, []))
  {
    hide Take32, TakeInt, TakeBytes, TakeText, TakeTarget, TakeTime, TakeHash, Int32, LeBytes, Text, OptionalTime,
         Nonzero, Reverse;
    Pow256Values();
    match m
    case SetupSuccess(v, f) =>
      IntField(v, 2, Int32(f));
      Ended(Int32(f));
      Field32(f, []);
    case Target(c, t) =>
      Field32(c, Reverse(t));
      Ended(Reverse(t));
      TargetField(t, []);
    case Error(_, r, reason) =>
      Field32(r, Text(reason));
      Ended(Text(reason));
      TextField(reason, 255, []);
  }

  lemma DecodeUndoesEncode(m: Message)
    requires Sendable(m)
    ensures Decode(EncodeMessage(m)) == Success(m)
  {
    hide TakeMessage, PayloadOf;
    match m
    case OpenSuccess(_, _, _, _, _) => OpenRoundTrip(m);
    case NewJob(_, _, _, _, _) => JobRoundTrip(m);
    case PrevHash(_, _, _, _, _) => PrevHashRoundTrip(m);
    case Accepted(_, _, _, _) => AckRoundTrip(m);
    case Rejected(_, _, _) => AckRoundTrip(m);
    case _ => ShortRoundTrip(m);
  }

  lemma OpenBack(b: Bytes)
    requires TakeMessage(0x11, b).Success?
    ensures var (m, rest) := TakeMessage(0x11, b).value; m.OpenSuccess? && Sendable(m) && b == PayloadOf(m) + rest
  {
    hide Take32, TakeInt, TakeBytes, TakeText, TakeTarget, TakeTime, TakeHash, Int32, LeBytes, Text, OptionalTime,
         Nonzero, Reverse;
    Field32Back(b);
    var b1 := Take32(b).value.1;
    Field32Back(b1);
    var b2 := Take32(b1).value.1;
    TargetFieldBack(b2);
    var (t, b3) := TakeTarget(b2).value;
    TextFieldBack(b3, 32);
    var (p, b4) := TakeText(b3, 32).value;
    Field32Back(b4);
  }

  lemma JobBack(b: Bytes)
    requires TakeMessage(0x15, b).Success?
    ensures var (m, rest) := TakeMessage(0x15, b).value; m.NewJob? && Sendable(m) && b == PayloadOf(m) + rest
  {
    hide Take32, TakeInt, TakeBytes, TakeText, TakeTarget, TakeTime, TakeHash, Int32, LeBytes, Text, OptionalTime,
         Nonzero, Reverse;
    Field32Back(b);
    var b1 := Take32(b).value.1;
    Field32Back(b1);
    var b2 := Take32(b1).value.1;
    TimeFieldBack(b2);
    var b3 := TakeTime(b2).value.1;
    Field32Back(b3);
    HashFieldBack(Take32(b3).value.1);
  }

  lemma PrevHashBack(b: Bytes)
    requires TakeMessage(0x20, b).Success?
    ensures var (m, rest) := TakeMessage(0x20, b).value; m.PrevHash? && Sendable(m) && b == PayloadOf(m) + rest
  {
    hide Take32, TakeInt, TakeBytes, TakeText, TakeTarget, TakeTime, TakeHash, Int32, LeBytes, Text, OptionalTime,
         Nonzero, Reverse;
    Field32Back(b);
    var b1 := Take32(b).value.1;
    Field32Back(b1);
    var b2 := Take32(b1).value.1;
    HashFieldBack(b2);
    var b3 := TakeHash(b2).value.1;
    Field32Back(b3);
    Field32Back(Take32(b3).value.1);
  }

  lemma AckBack(kind: byte, b: Bytes)
    requires kind in {0x1c, 0x1d} && TakeMessage(kind, b).Success?
    ensures var (m, rest) := TakeMessage(kind, b).value; KindOf(m) == kind && Sendable(m) && b == PayloadOf(m) + rest
  {
    hide Take32, TakeInt, TakeBytes, TakeText, TakeTarget, TakeTime, TakeHash, Int32, LeBytes, Text, OptionalTime,
         Nonzero, Reverse;
    Pow256Values();
    Field32Back(b);
    var b1 := Take32(b).value.1;
    Field32Back(b1);
    var b2 := Take32(b1).value.1;
    if kind == 0x1c {
      Field32Back(b2);
      IntFieldBack(Take32(b2).value.1, 8);
    } else {
      TextFieldBack(b2, 255);
    }
  }

  lemma ShortBack(kind: byte, b: Bytes)
    requires kind in {0x01, 0x02, 0x12, 0x18, 0x21} && TakeMessage(kind, b).Success?
    ensures var (m, rest) := TakeMessage(kind, b).value; KindOf(m) == kind && Sendable(m) && b == PayloadOf(m) + rest
  {
    hide Take32, TakeInt, TakeBytes, TakeText, TakeTarget, TakeTime, TakeHash, Int32, LeBytes, Text, OptionalTime,
         Nonzero, Reverse;
    Pow256Values();
    if kind == 0x01 {
      IntFieldBack(b, 2);
      Field32Back(TakeInt(b, 2).value.1);
    } else {
      Field32Back(b);
      var b1 := Take32(b).value.1;
      if kind == 0x21 {
        TargetFieldBack(b1);
      } else {
        TextFieldBack(b1, 255);
      }
    }
  }

  lemma DecodeOnlyEncoded(f: Frame)
    requires Decode(f).Success?
    ensures Sendable(Decode(f).value) && EncodeMessage(Decode(f).value) == f
  {
    hide PayloadOf, Sendable;
    var (m, rest) := TakeMessage(f.kind, f.payload).value;
    Known(f.kind, f.payload);
    hide TakeMessage;
    if f.kind == 0x11 {
      OpenBack(f.payload);
    } else if f.kind == 0x15 {
      JobBack(f.payload);
    } else if f.kind == 0x20 {
      PrevHashBack(f.payload);
    } else if f.kind in {0x1c, 0x1d} {
      AckBack(f.kind, f.payload);
    } else {
      ShortBack(f.kind, f.payload);
    }
    Ended(PayloadOf(m));
  }

  lemma Known(kind: byte, b: Bytes)
    requires TakeMessage(kind, b).Success?
    ensures kind in {0x01, 0x02, 0x11, 0x12, 0x15, 0x18, 0x1c, 0x1d, 0x20, 0x21}
  {
  }

  /** Decoding accepts exactly the frames a pool can encode, and each in one way. */
  lemma DecodeIsCanonical(f: Frame, m: Message)
    ensures Decode(f) == Success(m) <==> Sendable(m) && f == EncodeMessage(m)
  {
    hide Decode, Sendable, EncodeMessage;
    if Decode(f) == Success(m) {
      DecodeOnlyEncoded(f);
    }
    if Sendable(m) && f == EncodeMessage(m) {
      DecodeUndoesEncode(m);
    }
  }

  /** A share target is a little-endian number on the wire and the same number big-endian inside. */
  lemma WireTargetNumber(m: Message)
    requires Sendable(m) && m.Target?
    ensures Le(PayloadOf(m)[4..36]) == Be(m.target) && Be(m.target) > 0
  {
    assert PayloadOf(m)[4..36] == Reverse(m.target);
    BeOfReverse(Reverse(m.target));
    ReverseTwice(m.target);
    NonzeroNumber(m.target);
  }

  lemma {:induction false} NonzeroNumber(b: Bytes)
    requires exists i :: 0 <= i < |b| && b[i] != 0
    ensures Be(b) > 0
  {
    var i :| 0 <= i < |b| && b[i] != 0;
    if i < |b| - 1 {
      assert b[..|b| - 1][i] != 0;
      NonzeroNumber(b[..|b| - 1]);
    }
  }

  // ---------- The reader object ----------

  /** A cursor over a payload; a failed read ends the connection. */
  class Reader {
    var b: Bytes

    constructor (b: Bytes)
      ensures this.b == b
    {
      this.b := b;
    }

    method Integer(n: nat) returns (r: Result<nat>)
      modifies this
      ensures match TakeInt(old(b), n)
              case Failure => r.Failure?
              case Success((v, rest)) => r == Success(v) && b == rest
    {
      if |b| < n {
        return Failure;
      }
      var v: nat, weight: nat := 0, 1;
      for i := 0 to n
        invariant b == old(b) && v == Le(b[..i]) && weight == Pow256(i)
      {
        assert b[..i + 1] == b[..i] + [b[i]];
        Bits.LeSplit(b[..i], [b[i]]);
        assert [b[i]][1..] == [];
        v := v + weight * b[i];
        weight := 256 * weight;
      }
      b := b[n..];
      return Success(v);
    }

    method U32() returns (r: Result<u32>)
      modifies this
      ensures match Take32(old(b))
              case Failure => r.Failure?
              case Success((v, rest)) => r == Success(v) && b == rest
    {
      Pow256Values();
      var v :- Integer(4);
      return Success(v);
    }

    method Raw(n: nat) returns (r: Result<Bytes>)
      modifies this
      ensures match TakeBytes(old(b), n)
              case Failure => r.Failure?
              case Success((v, rest)) => r == Success(v) && b == rest
    {
      if |b| < n {
        return Failure;
      }
      r := Success(b[..n]);
      b := b[n..];
    }

    method TargetHash() returns (r: Result<Hash>)
      modifies this
      ensures match TakeTarget(old(b))
              case Failure => r.Failure?
              case Success((v, rest)) => r == Success(v) && b == rest
    {
      var v :- Raw(32);
      var h: Hash := Reverse(v);
      for i := 0 to 32
        invariant forall k :: 0 <= k < i ==> h[k] == 0
        invariant b == old(b)[32..]
      {
        if h[i] != 0 {
          return Success(h);
        }
      }
      return Failure;
    }

    method ShortBytes(max: nat) returns (r: Result<Bytes>)
      modifies this
      ensures match TakeText(old(b), max)
              case Failure => r.Failure?
              case Success((v, rest)) => r == Success(v) && b == rest
    {
      var n :- Integer(1);
      if n > max {
        return Failure;
      }
      r := Raw(n);
    }

    method OptionalU32() returns (r: Result<Option<u32>>)
      modifies this
      ensures match TakeTime(old(b))
              case Failure => r.Failure?
              case Success((v, rest)) => r == Success(v) && b == rest
    {
      var present :- Integer(1);
      if present > 1 {
        return Failure;
      }
      if present == 0 {
        return Success(None);
      }
      var t :- U32();
      return Success(Some(t));
    }

    /** The body of one message, by type. */
    method Body(kind: byte) returns (r: Result<Message>)
      modifies this
      ensures match TakeMessage(kind, old(b))
              case Failure => r.Failure?
              case Success((m, rest)) => r == Success(m) && b == rest
    {
      hide Take32, TakeBytes, TakeText, TakeTarget, TakeTime;
      Pow256Values();
      if kind == 0x01 {
        var version :- Integer(2);
        var flags :- U32();
        return Success(SetupSuccess(version, flags));
      } else if kind == 0x11 {
        var request :- U32();
        var c :- U32();
        var t :- TargetHash();
        var p :- ShortBytes(32);
        var g :- U32();
        return Success(OpenSuccess(request, c, t, p, g));
      } else if kind == 0x15 {
        var c :- U32();
        var j :- U32();
        var t :- OptionalU32();
        var v :- U32();
        var root :- Raw(32);
        return Success(NewJob(c, j, t, v, root));
      } else if kind == 0x20 {
        var c :- U32();
        var j :- U32();
        var h :- Raw(32);
        var t :- U32();
        var n :- U32();
        return Success(PrevHash(c, j, h, t, n));
      } else if kind == 0x21 {
        var c :- U32();
        var t :- TargetHash();
        return Success(Target(c, t));
      } else if kind == 0x1c {
        var c :- U32();
        var s :- U32();
        var n :- U32();
        var d :- Integer(8);
        return Success(Accepted(c, s, n, d));
      } else if kind == 0x1d {
        var c :- U32();
        var s :- U32();
        var reason :- ShortBytes(255);
        return Success(Rejected(c, s, reason));
      } else if kind == 0x02 || kind == 0x12 || kind == 0x18 {
        var reference :- U32();
        var reason :- ShortBytes(255);
        return Success(Error(kind, reference, reason));
      }
      return Failure;
    }
  }

  method DecodeFrame(f: Frame) returns (r: Result<Message>)
    ensures r == Decode(f)
  {
    hide TakeMessage;
    if f.extension != ExtensionFor(f.kind) {
      return Failure;
    }
    var reader := new Reader(f.payload);
    var m :- reader.Body(f.kind);
    if reader.b != [] {
      return Failure;
    }
    return Success(m);
  }

  // ---------- What the miner sends ----------

  /** A nominal hash rate given by its IEEE 754 bits is finite and not negative. */
  predicate RateOk(bits: u32) {
    (bits / 0x80_0000) % 0x100 != 0xff && (bits < 0x8000_0000 || bits == 0x8000_0000)
  }

  function OpenStandard(request: u32, user: Bytes, rate: u32, maximum: Hash): Result<Frame> {
    if !RateOk(rate) || |user| > 255 then Failure
    else Success(Frame(0, 0x10, Int32(request) + Text(user) + Int32(rate) + Reverse(maximum)))
  }

  function SubmitStandard(channel: u32, sequence: u32, job: u32, nonce: u32, time: u32, version: u32): Frame {
    Frame(CHANNEL_BIT, 0x1a,
          Int32(channel) + (Int32(sequence) + (Int32(job) + (Int32(nonce) + (Int32(time) + Int32(version))))))
  }

  /** A submitted share determines every field that went into it. */
  lemma SubmitDetermines(c: u32, s: u32, j: u32, n: u32, t: u32, v: u32,
                         c': u32, s': u32, j': u32, n': u32, t': u32, v': u32)
    requires SubmitStandard(c, s, j, n, t, v) == SubmitStandard(c', s', j', n', t', v')
    ensures c == c' && s == s' && j == j' && n == n' && t == t' && v == v'
  {
    hide Take32, Int32;
    SubmitFields(c, s, j, n, t, v);
    SubmitFields(c', s', j', n', t', v');
  }

  /** Reading a submit payload field by field. */
  lemma SubmitFields(c: u32, s: u32, j: u32, n: u32, t: u32, v: u32)
    ensures Six(SubmitStandard(c, s, j, n, t, v).payload) == Success([c, s, j, n, t, v])
  {
    hide Take32, Int32;
    var last := Int32(v);
    Field32(c, Int32(s) + (Int32(j) + (Int32(n) + (Int32(t) + last))));
    Field32(s, Int32(j) + (Int32(n) + (Int32(t) + last)));
    Field32(j, Int32(n) + (Int32(t) + last));
    Field32(n, Int32(t) + last);
    Field32(t, last);
    Ended(last);
    Field32(v, []);
  }

  function Six(b: Bytes): Result<seq<u32>> {
    var (c, b) :- Take32(b);
    var (s, b) :- Take32(b);
    var (j, b) :- Take32(b);
    var (n, b) :- Take32(b);
    var (t, b) :- Take32(b);
    var (v, b) :- Take32(b);
    Success([c, s, j, n, t, v])
  }
}
