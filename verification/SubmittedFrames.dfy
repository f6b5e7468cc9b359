/** Everything an SV2 connection writes: the request for its channel, then its submissions in order. */
module SubmittedFrames {
  import opened Base
  import opened Codec
  import opened Coin
  import opened Jobs
  import opened Targets
  import F = Framing
  import opened Miner
  import L = ShareLedger
  import Q = Scheduler
  import V = Sv2
  import W = WireForm

  /** The easiest target, 2^256 - 1. */
  function Any(): Hash {
    seq(32, i => 255)
  }

  /** The frame carries the i-th submission: its identifier, job, nonce, time and version. */
  predicate Carries(channel: u32, i: nat, f: Q.Find, w: F.Frame) {
    && FIRST_ID + i < 0x1_0000_0000 && f.nonce < 0x1_0000_0000
    && W.IsSubmit(w, channel, FIRST_ID + i, f.job.wireJob, f.nonce, f.job.time32, f.job.version)
  }

  ghost predicate AllCarried(channel: u32, sent: seq<Q.Find>, ws: seq<F.Frame>) {
    |ws| == |sent| && forall i :: 0 <= i < |sent| ==> Carries(channel, i, sent[i], ws[i])
  }

  /** Nothing before the setup is answered; then one request to open a channel, then the submissions. */
  ghost predicate Written(user: Bytes, rate: u32, t: V.Trace, sent: seq<Q.Find>) {
    if t.state.phase == 1 then t.frames == [] && sent == []
    else
      && t.frames != [] && W.IsOpen(t.frames[0], 1, user, rate, Any())
      && AllCarried(t.state.channel, sent, t.frames[1..])
  }

  ghost predicate Open(user: Bytes, rate: u32, t: V.Trace, sent: seq<Q.Find>) {
    && t.state.user == user && t.state.rate == rate && (sent != [] ==> t.state.phase == 3)
    && Written(user, rate, t, sent)
  }

  ghost predicate OnWire(user: Bytes, rate: u32, m: State) {
    m.link.V2? ==> Open(user, rate, m.link.s2, m.sched.sent)
  }

  predicate Silent(s: V.State, r: V.Reaction) {
    && r.frames == [] && (r.state.phase == 1 <==> s.phase == 1)
    && (s.phase == 3 ==> r.state.phase == 3 && r.state.channel == s.channel)
  }

  /** A message makes the session send nothing, or, once, the request to open a channel. */
  lemma MessageSends(s: V.State, m: Codec.Message)
    requires V.Handle(s, m).Some?
    ensures var r := V.Handle(s, m).value;
            && r.state.user == s.user && r.state.rate == s.rate
            && (Silent(s, r)
                || (s.phase == 1 && r.state.phase == 2 && |r.frames| == 1
                    && OpenStandard(1, s.user, s.rate, V.AllOnes()) == Success(r.frames[0])))
  {
    hide L.Acknowledge, L.Refuse, V.Padded, StandardWork, V.ShareTarget, DecimalText, IsHidden, CompactTarget,
         OpenStandard;
  }

  lemma OpenIsWritten(f: F.Frame, user: Bytes, rate: u32)
    requires OpenStandard(1, user, rate, V.AllOnes()) == Success(f)
    ensures W.IsOpen(f, 1, user, rate, Any())
  {
    assert V.AllOnes() == Any() && Any()[0] != 0;
    W.OpenRequestOnWire(f, 1, user, rate, Any());
    hide OpenStandard, W.IsOpen;
  }

  lemma NothingCarried(c: u32, ws: seq<F.Frame>)
    requires ws == []
    ensures AllCarried(c, [], ws)
  {
  }

  lemma MessageKeepsWritten(user: Bytes, rate: u32, t: V.Trace, m: Codec.Message, sent: seq<Q.Find>)
    requires Open(user, rate, t, sent) && V.Next(t, V.Received(m)).Some?
    ensures Open(user, rate, V.Next(t, V.Received(m)).value, sent)
  {
    hide V.Handle, Carries, W.IsOpen, OpenStandard, V.Activated;
    MessageSends(t.state, m);
    var r := V.Handle(t.state, m).value;
    var u := V.Next(t, V.Received(m)).value;
    if Silent(t.state, r) {
      assert t.frames + [] == t.frames;
      if t.state.phase != 1 && sent == [] {
        NothingCarried(u.state.channel, u.frames[1..]);
      }
    } else {
      OpenIsWritten(r.frames[0], user, rate);
      assert u.frames == [r.frames[0]];
      NothingCarried(u.state.channel, u.frames[1..]);
    }
  }

  lemma {:induction false} ReadKeepsWritten(user: Bytes, rate: u32, t: V.Trace, ms: seq<Codec.Message>,
                                            sent: seq<Q.Find>)
    requires Open(user, rate, t, sent) && ReadMessages(t, ms).Some?
    ensures Open(user, rate, ReadMessages(t, ms).value, sent)
    decreases |ms|
  {
    if ms != [] {
      hide V.Next, Open;
      MessageKeepsWritten(user, rate, t, ms[0], sent);
      ReadKeepsWritten(user, rate, V.Next(t, V.Received(ms[0])).value, ms[1..], sent);
    }
  }

  lemma OneMoreCarried(channel: u32, sent: seq<Q.Find>, ws: seq<F.Frame>, f: Q.Find, w: F.Frame)
    requires AllCarried(channel, sent, ws) && Carries(channel, |sent|, f, w)
    ensures AllCarried(channel, sent + [f], ws + [w])
  {
    hide Carries;
  }

  lemma SubmitKeepsWritten(user: Bytes, rate: u32, t: V.Trace, sent: seq<Q.Find>, f: Q.Find, sequence: u32)
    requires Open(user, rate, t, sent) && sequence == FIRST_ID + |sent|
    requires V.Next(t, V.Submitted(f.job, f.nonce, sequence)).Some?
    ensures Open(user, rate, V.Next(t, V.Submitted(f.job, f.nonce, sequence)).value, sent + [f])
  {
    hide SubmitStandard, L.Submit, AllCarried, V.Activated, W.IsSubmit, W.IsOpen;
    var u := V.Next(t, V.Submitted(f.job, f.nonce, sequence)).value;
    var w := SubmitStandard(t.state.channel, sequence, f.job.wireJob, f.nonce, f.job.time32, f.job.version);
    W.SubmitOnWire(w, t.state.channel, sequence, f.job.wireJob, f.nonce, f.job.time32, f.job.version);
    assert u.frames == t.frames + [w] && u.state.phase == 3 && u.state.channel == t.state.channel;
    assert u.frames[1..] == t.frames[1..] + [w] && u.frames[0] == t.frames[0];
    OneMoreCarried(t.state.channel, sent, t.frames[1..], f, w);
  }

  lemma SubmitKeepsWire(user: Bytes, rate: u32, m: State)
    requires Inv(m) && OnWire(user, rate, m) && Next(m, SubmitOne).Some?
    ensures OnWire(user, rate, Next(m, SubmitOne).value)
  {
    hide Open, Q.Inv, LinkSound, V.Next, Owes, IssuedFrom, Solved, ValidJob;
    if m.link.V2? && m.nextId <= 0xffff_ffff {
      var f := m.sched.queue[0];
      if V.Next(m.link.s2, V.Submitted(f.job, f.nonce, m.nextId)).Some? {
        SubmitKeepsWritten(user, rate, m.link.s2, m.sched.sent, f, m.nextId);
      }
    }
  }

  lemma ReadKeepsWire(user: Bytes, rate: u32, m: State, ms: seq<Codec.Message>)
    requires OnWire(user, rate, m) && Next(m, ReadV2(ms)).Some?
    ensures OnWire(user, rate, Next(m, ReadV2(ms)).value)
  {
    hide Open, ReadMessages;
    ReadKeepsWritten(user, rate, m.link.s2, ms, m.sched.sent);
  }

  /** The other steps write nothing and submit nothing. */
  lemma OthersKeepWire(user: Bytes, rate: u32, m: State, step: Step)
    requires OnWire(user, rate, m) && Next(m, step).Some? && !step.SubmitOne? && !step.ReadV2?
    ensures OnWire(user, rate, Next(m, step).value)
  {
    hide Open, S1.Next, Q.Scanned;
    if step.Reserve? || step.Finish? || step.Crash? {
      WorkerFrame(m.sched, step.worker, if step.Finish? then step.nonces else []);
    }
    hide Q.Reserved, Q.Finished, Q.Failed;
  }

  lemma StepKeepsWire(user: Bytes, rate: u32, m: State, step: Step)
    requires Inv(m) && OnWire(user, rate, m) && Next(m, step).Some?
    ensures OnWire(user, rate, Next(m, step).value)
  {
    hide Inv, OnWire, Next;
    match step {
      case SubmitOne => SubmitKeepsWire(user, rate, m);
      case ReadV2(ms) => ReadKeepsWire(user, rate, m, ms);
      case _ => OthersKeepWire(user, rate, m, step);
    }
  }

  lemma {:induction false} RunOnWire(user: Bytes, rate: u32, batches: seq<u32>, steps: seq<Step>)
    requires |batches| <= Q.MAX_WORKERS && Run(Start(true, user, rate, batches), steps).Some?
    ensures OnWire(user, rate, Run(Start(true, user, rate, batches), steps).value)
  {
    if steps != [] {
      hide OnWire, Inv, Next;
      RunOnWire(user, rate, batches, steps[..|steps| - 1]);
      RunKeeps(true, user, rate, batches, steps[..|steps| - 1]);
      StepKeepsWire(user, rate, Run(Start(true, user, rate, batches), steps[..|steps| - 1]).value, steps[|steps| - 1]);
    }
  }

  /**
    What an SV2 connection has written, byte offset by byte offset: nothing, or first the request for a
    channel with the user and rate it was started with and then exactly its submissions, in order. Frame i of
    those carries identifier 10 + i and the wire job, nonce, time and version of the i-th find, which
    SubmissionFidelity ties to an activated job.
   */
  lemma FramesAreSubmissions(user: Bytes, rate: u32, batches: seq<u32>, steps: seq<Step>, m: State)
    requires Reaches(true, user, rate, batches, steps, m) && m.link.V2?
    ensures Written(user, rate, m.link.s2, m.sched.sent)
  {
    hide Run, Written;
    RunOnWire(user, rate, batches, steps);
  }
}
