/** The SV2 channel as the object the miner drives: fields updated in place by each message. */
module SessionObject {
  import opened Base
  import opened Codec
  import opened Coin
  import opened Jobs
  import opened Outstanding
  import opened Sv2
  import opened Scan
  import Framing
  import L = ShareLedger
  import Targets

  class Session {
    const user: Bytes
    const rate: u32
    const noise: Framing.Noise
    var written: Bytes
    var phase: nat
    var channel: u32
    var group: u32
    var generation: nat
    var epoch: nat
    var lastAck: u32
    var lastSent: u32
    var target: Hash
    var networkTarget: Hash
    var previous: Hash
    var havePrevious: bool
    var extra: Bytes
    var jobs: map<u32, Stored>
    var pending: seq<u32>
    var batches: seq<L.Batch>
    var current: Option<Job>

    ghost function View(): State
      reads this
    {
      State(user, rate, phase, channel, group, generation, epoch, target, networkTarget, previous, havePrevious,
            extra, jobs, Books(), current)
    }

    ghost function Books(): L.Ledger
      reads this
    {
      L.Ledger(Elements(pending), batches, lastAck, lastSent)
    }

    ghost predicate Ordered()
      reads this
    {
      Rising(pending) && forall k :: 0 <= k < |pending| ==> pending[k] <= lastSent
    }

    constructor (user: Bytes, rate: u32, noise: Framing.Noise)
      ensures View() == Start(user, rate) && Ordered()
      ensures this.noise == noise && written == []
    {
      this.user, this.rate, this.noise := user, rate, noise;
      written, phase, channel, group, generation, epoch, lastAck, lastSent := [], 1, 0, 0, 0, 0, 0, 0;
      target, networkTarget, previous, havePrevious, extra := Zeros(32), Zeros(32), Zeros(32), false, [];
      jobs, pending, batches, current := map[], [], [], None;
      new;
      assert Elements([]) == {};
    }

    /** Resolve queued acknowledgements from the front for as long as their counts match. */
    method Settle() returns (ok: bool, accepted: seq<u32>)
      requires Ordered()
      modifies this`pending, this`batches
      ensures Ordered()
      ensures match L.Settle(Elements(old(pending)), old(batches))
              case None => !ok
              case Some(t) => ok && Elements(pending) == t.pending && batches == t.batches && accepted == t.accepted
    {
      accepted := [];
      PrecededTwice([], [], L.Settle(Elements(pending), batches));
      while batches != []
        invariant Ordered()
        invariant L.Settle(Elements(old(pending)), old(batches))
                  == Preceded(accepted, L.Settle(Elements(pending), batches))
        decreases |batches|
      {
        var b := batches[0];
        var n := CountUpTo(pending, b.last);
        SplitSets(pending, b.last, n);
        if n < b.count {
          return false, accepted;
        }
        if n != b.count {
          return true, accepted;
        }
        var gone, rest := EraseUpTo(pending, b.last, n);
        PrecededTwice(accepted, gone, L.Settle(Elements(rest), batches[1..]));
        accepted := accepted + gone;
        pending := rest;
        batches := batches[1..];
      }
      return true, accepted;
    }

    /** The channel's cipher is up. */
    ghost predicate Ready()
      reads this, noise
    {
      noise.Valid() && noise.ready && !noise.failed && Ordered()
    }

    /** The object did what the reaction says, and sent its frames. */
    ghost predicate Did(reaction: Option<Reaction>, ok: bool, replies: seq<Reply>, wrote: Bytes, sent: nat)
      reads this, noise
    {
      match reaction
      case None => !ok
      case Some(r) =>
        && ok && Ready() && View() == r.state && replies == r.replies
        && written == wrote + Framing.EncodeAll(noise.outbound, sent, r.frames)
        && noise.sent == sent + Framing.TotalUnits(r.frames)
    }

    method Send(f: Framing.Frame) returns (ok: bool)
      requires Ready()
      requires |f.payload| <= Framing.MAX_PAYLOAD
      modifies this`written, noise`sent
      ensures Ready() && ok
      ensures written == old(written) + Framing.EncodeAll(noise.outbound, old(noise.sent), [f])
      ensures noise.sent == old(noise.sent) + Framing.TotalUnits([f])
    {
      OneFrame(noise.outbound, noise.sent, f);
      hide Framing.EncodeAll, Framing.EncodeFrame, Framing.TotalUnits, Framing.Units;
      var r := noise.Encode(f);
      written := written + r.value;
      return true;
    }

    method OnSetup(version: u16, flags: u32) returns (ok: bool, replies: seq<Reply>)
      requires Ready()
      modifies this`phase, this`written, noise`sent
      ensures Did(old(Sv2.OnSetup(View(), version, flags)), ok, replies, old(written), old(noise.sent))
    {
      hide Framing.EncodeAll;
      if phase != 1 || version != 2 || flags > 1 {
        return false, [];
      }
      var f := OpenStandard(1, user, rate, AllOnes());
      if f.Failure? {
        return false, [];
      }
      OpenIsSmall(user, rate);
      ok := Send(f.value);
      phase := 2;
      return true, [Prompt];
    }

    method OnOpen(request: u32, channel: u32, target: Hash, prefix: Bytes, group: u32)
      returns (ok: bool, replies: seq<Reply>)
      requires Ready()
      modifies this`phase, this`channel, this`group, this`target, this`extra
      ensures Did(old(Sv2.OnOpen(View(), request, channel, target, prefix, group)), ok, replies,
                  old(written), old(noise.sent))
    {
      hide Framing.EncodeAll, Framing.Noise.Valid, Framing.TotalUnits, Padded, Rising;
      NoFrames(noise.outbound, noise.sent, written);
      if phase != 2 || request != 1 || (|prefix| != 4 && |prefix| != 12) {
        return false, [];
      }
      this.channel := channel;
      this.group := group;
      this.target := target;
      extra := Padded(prefix);
      phase := 3;
      return true, [Prompt];
    }

    /** Make the offer stored under key the current job. */
    method Activate(key: u32, time: u32) returns (ok: bool)
      requires Ready() && key in jobs
      modifies this`generation, this`jobs, this`current
      ensures match old(Sv2.Activate(View(), key, time))
              case None => !ok
              case Some(s) => ok && Ready() && View() == s
    {
      hide StandardWork;
      if !havePrevious {
        return false;
      }
      var stored := jobs[key];
      generation := generation + 1;
      var header := StandardWorkOf(previous, stored.wire.root, extra, time);
      if header.Failure? {
        return false;
      }
      var share := if LexLess(Easiest(), target) then Easiest() else target;
      var job := Job(Work(header.value, share), DecimalText(stored.wire.job), "", "", generation, epoch,
                     networkTarget, true, channel, stored.wire.job, stored.wire.version32, time);
      current := Some(job);
      jobs := jobs[key := stored.(job := job, future := false)];
      return true;
    }

    method OnNewJob(m: Offer) returns (ok: bool, replies: seq<Reply>)
      requires Ready()
      modifies this`generation, this`jobs, this`current
      ensures Did(old(Sv2.OnNewJob(View(), m)), ok, replies, old(written), old(noise.sent))
    {
      hide Sv2.Activate;
      NoFrames(noise.outbound, noise.sent, written);
      if phase != 3 || m.channel != channel || |jobs| >= MAX_JOBS || m.job in jobs {
        return false, [];
      }
      jobs := jobs[m.job := Stored(m, BLANK, m.ntime.None?)];
      if m.ntime.Some? {
        ok := Activate(m.job, m.ntime.value);
        return ok, [Prompt];
      }
      return true, [Prompt];
    }

    /** Forget every other job and count a new epoch. */
    method NewEpoch(job: u32, hash: Hash, network: Hash)
      requires Ready() && job in jobs
      modifies this`jobs, this`epoch, this`previous, this`networkTarget, this`havePrevious
      ensures Ready() && View() == AfterPrevHash(old(View()), job, hash, network) && job in jobs
    {
      var selected := jobs[job];
      jobs := map[];
      epoch := epoch + 1;
      previous := hash;
      networkTarget := network;
      havePrevious := true;
      jobs := jobs[job := selected];
    }

    method OnPrevHash(channel: u32, job: u32, hash: Hash, time: u32, nbits: u32)
      returns (ok: bool, replies: seq<Reply>)
      requires Ready()
      modifies this`generation, this`jobs, this`current, this`epoch, this`previous, this`networkTarget
      modifies this`havePrevious
      ensures Did(old(Sv2.OnPrevHash(View(), channel, job, hash, time, nbits)), ok, replies,
                  old(written), old(noise.sent))
    {
      hide Sv2.Activate;
      assert Ready() && phase == View().phase && this.channel == View().channel && group == View().group
             && jobs == View().jobs;
      NoFrames(noise.outbound, noise.sent, written);
      if phase != 3 || (channel != this.channel && channel != group) || job !in jobs || !IsHidden(hash) {
        return false, [];
      }
      var network := Targets.CompactTargetOf(BigEndian(nbits));
      if network.Failure? {
        return false, [];
      }
      NewEpoch(job, hash, network.value);
      ok := Activate(job, time);
      return ok, [Prompt];
    }

    method OnTarget(channel: u32, target: Hash) returns (ok: bool, replies: seq<Reply>)
      requires Ready()
      modifies this`target
      ensures Did(old(Sv2.OnTarget(View(), channel, target)), ok, replies, old(written), old(noise.sent))
    {
      NoFrames(noise.outbound, noise.sent, written);
      if phase != 3 || (channel != this.channel && channel != group) {
        return false, [];
      }
      this.target := target;
      return true, [Retarget(target), Prompt];
    }

    method OnAccepted(channel: u32, last: u32, count: u32) returns (ok: bool, replies: seq<Reply>)
      requires Ready()
      modifies this`lastAck, this`batches, this`pending
      ensures Did(old(Sv2.OnAccepted(View(), channel, last, count)), ok, replies, old(written), old(noise.sent))
    {
      hide L.Settle, Rising;
      NoFrames(noise.outbound, noise.sent, written);
      if phase != 3 || channel != this.channel || count == 0 || count > L.MAX_OUTSTANDING
         || last <= lastAck || last > lastSent || last !in pending {
        return false, [];
      }
      lastAck := last;
      batches := batches + [L.Batch(last, count)];
      var accepted;
      ok, accepted := Settle();
      return ok, Reports(accepted) + [Prompt];
    }

    method OnRejected(channel: u32, sequence: u32, reason: Bytes) returns (ok: bool, replies: seq<Reply>)
      requires Ready()
      modifies this`batches, this`pending
      ensures Did(old(Sv2.OnRejected(View(), channel, sequence, reason)), ok, replies,
                  old(written), old(noise.sent))
    {
      hide Framing.EncodeAll, Framing.Noise.Valid, Framing.TotalUnits, L.Settle, Reports, Rising;
      NoFrames(noise.outbound, noise.sent, written);
      if phase != 3 || channel != this.channel {
        return false, [];
      }
      var found, rest := Erase(pending, sequence);
      if !found {
        return false, [];
      }
      StillBounded(pending, rest, lastSent);
      pending := rest;
      var accepted;
      ok, accepted := Settle();
      return ok, [ShareRefused(sequence, Code(reason), reason)] + Reports(accepted) + [Prompt];
    }

    /** One decoded message. */
    method Process(m: Message) returns (ok: bool, replies: seq<Reply>)
      requires Ready()
      modifies this, noise`sent
      ensures Did(old(Sv2.Handle(View(), m)), ok, replies, old(written), old(noise.sent))
    {
      match m {
        case SetupSuccess(v, f) => ok, replies := OnSetup(v, f);
        case OpenSuccess(r, c, t, p, g) => ok, replies := OnOpen(r, c, t, p, g);
        case NewJob(_, _, _, _, _) => ok, replies := OnNewJob(m);
        case PrevHash(c, j, h, t, n) => ok, replies := OnPrevHash(c, j, h, t, n);
        case Target(c, t) => ok, replies := OnTarget(c, t);
        case Accepted(c, l, n, _) => ok, replies := OnAccepted(c, l, n);
        case Rejected(c, q, reason) => ok, replies := OnRejected(c, q, reason);
        case Error(_, _, _) => ok, replies := false, [];
      }
    }

    /** One read from the socket: every frame it completes is decoded and processed in order. */
    method Receive(b: Bytes) returns (ok: bool, replies: seq<Reply>)
      requires Ready()
      modifies this, noise
      ensures match Framing.ReadSegment(noise.inbound, old(noise.Decoder()), b)
              case Failure => !ok
              case Success((d, fs)) =>
                && Did(HandleFrames(old(View()), fs), ok, replies, old(written), old(noise.sent))
                && (ok ==> noise.Decoder() == d)
    {
      hide Decode, Framing.EncodeAll, Framing.ReadSegment, Framing.TotalUnits, Handle, HandleFrames;
      ghost var start, sent := View(), noise.sent;
      var r := noise.Receive(b);
      if r.Failure? {
        return false, [];
      }
      var fs := r.value;
      ghost var d := noise.Decoder();
      replies := [];
      NoFrames(noise.outbound, noise.sent, written);
      NothingHandled(start);
      hide View;
      for i := 0 to |fs|
        invariant Did(HandleFrames(start, fs[..i]), true, replies, old(written), sent)
        invariant noise.Decoder() == d
      {
        ghost var before := HandleFrames(start, fs[..i]).value;
        assert fs[..i + 1][..i] == fs[..i] && fs[..i + 1][i] == fs[i];
        HandlesOneMore(start, fs[..i + 1]);
        var m := DecodeFrame(fs[i]);
        if m.Failure? {
          FramesFail(start, fs, i + 1);
          return false, [];
        }
        var done, more := Process(m.value);
        if !done {
          FramesFail(start, fs, i + 1);
          return false, [];
        }
        ghost var q := Sv2.Handle(before.state, m.value).value;
        JoinFrames(noise.outbound, sent, before.frames, q.frames);
        assert written == old(written) + Framing.EncodeAll(noise.outbound, sent, before.frames + q.frames);
        replies := replies + more;
      }
      assert fs[..|fs|] == fs;
      return true, replies;
    }

    predicate IsValid(j: Job)
      reads this
      ensures IsValid(j) == Sv2.Valid(View(), j)
    {
      && phase == 3 && j.channel == channel && j.epoch == epoch && j.wireJob in jobs
      && !jobs[j.wireJob].future && jobs[j.wireJob].job.generation == j.generation
    }

    method Submit(j: Job, nonce: u64, sequence: u32) returns (ok: bool)
      requires Ready()
      modifies this`pending, this`lastSent, this`written, noise`sent
      ensures Did(old(Sv2.SubmitShare(View(), j, nonce, sequence)), ok, [], old(written), old(noise.sent))
    {
      hide Elements, Framing.EncodeAll, Framing.Noise.Valid, Framing.TotalUnits, IsValid, SubmitStandard, Valid;
      SizeOfElements(pending);
      if !IsValid(j) || nonce > 0xffff_ffff || sequence <= lastSent || |pending| >= L.MAX_OUTSTANDING {
        return false;
      }
      AppendedLargest(pending, sequence);
      pending := pending + [sequence];
      lastSent := sequence;
      var f := SubmitStandard(channel, sequence, j.wireJob, nonce, j.time32, j.version);
      SubmitIsSmall(channel, sequence, j.wireJob, nonce, j.time32, j.version);
      ok := Send(f);
    }
  }

  ghost function Preceded(ids: seq<u32>, t: Option<L.Settlement>): Option<L.Settlement> {
    match t
    case None => None
    case Some(s) => Some(s.(accepted := ids + s.accepted))
  }

  lemma PrecededTwice(a: seq<u32>, b: seq<u32>, t: Option<L.Settlement>)
    ensures Preceded(a, Preceded(b, t)) == Preceded(a + b, t)
    ensures Preceded([], t) == t
  {
    if t.Some? {
      assert a + (b + t.value.accepted) == a + b + t.value.accepted;
      assert [] + t.value.accepted == t.value.accepted;
    }
  }

  lemma OneFrame(c: Framing.Cipher, n: nat, f: Framing.Frame)
    ensures Framing.EncodeAll(c, n, [f]) == Framing.EncodeFrame(c, n, f)
    ensures Framing.TotalUnits([f]) == Framing.Units(f)
  {
    Framing.EncodeCons(c, n, f, []);
    assert [f] + [] == [f];
    assert Framing.EncodeFrame(c, n, f) + [] == Framing.EncodeFrame(c, n, f);
  }

  lemma NoFrames(c: Framing.Cipher, n: nat, b: Bytes)
    ensures b + Framing.EncodeAll(c, n, []) == b && Framing.TotalUnits([]) == 0
  {
  }

  lemma OpenIsSmall(user: Bytes, rate: u32)
    ensures var f := OpenStandard(1, user, rate, AllOnes());
            f.Success? ==> |f.value.payload| <= Framing.MAX_PAYLOAD
  {
  }

  lemma SubmitIsSmall(c: u32, s: u32, j: u32, n: u32, t: u32, v: u32)
    ensures |SubmitStandard(c, s, j, n, t, v).payload| <= Framing.MAX_PAYLOAD
  {
  }

  lemma StillBounded(p: seq<u32>, q: seq<u32>, hi: u32)
    requires Elements(q) <= Elements(p) && forall k :: 0 <= k < |p| ==> p[k] <= hi
    ensures forall k :: 0 <= k < |q| ==> q[k] <= hi
  {
    forall k | 0 <= k < |q|
      ensures q[k] <= hi
    {
      assert q[k] in Elements(q);
    }
  }

  lemma NothingHandled(s: State)
    ensures HandleFrames(s, []) == Some(Reaction(s, [], []))
  {
  }

  lemma HandlesOneMore(s: State, fs: seq<Framing.Frame>)
    requires fs != [] && HandleFrames(s, fs[..|fs| - 1]).Some?
    ensures var r := HandleFrames(s, fs[..|fs| - 1]).value; var m := Decode(fs[|fs| - 1]);
            HandleFrames(s, fs)
            == if m.Failure? then None
               else match Sv2.Handle(r.state, m.value)
                    case None => None
                    case Some(q) => Some(Reaction(q.state, r.replies + q.replies, r.frames + q.frames))
  {
    hide Decode, Sv2.Handle;
  }

  lemma {:induction false} JoinFrames(c: Framing.Cipher, n: nat, a: seq<Framing.Frame>, b: seq<Framing.Frame>)
    ensures Framing.EncodeAll(c, n, a + b)
            == Framing.EncodeAll(c, n, a) + Framing.EncodeAll(c, n + Framing.TotalUnits(a), b)
    ensures Framing.TotalUnits(a + b) == Framing.TotalUnits(a) + Framing.TotalUnits(b)
    decreases |a|
  {
    hide Framing.EncodeFrame, Framing.Units;
    if a == [] {
      assert a + b == b;
    } else {
      assert (a + b)[1..] == a[1..] + b;
      JoinFrames(c, n + Framing.Units(a[0]), a[1..], b);
    }
  }
}
