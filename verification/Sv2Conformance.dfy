/** Exactly which message sequences an SV2 session survives, told from the messages alone. */
module Sv2Conformance {
  import opened Base
  import opened Codec
  import opened Coin
  import opened Jobs
  import opened SessionOrigins
  import opened Sv2
  import opened Targets
  import L = ShareLedger
  import W = WireForm

  // ---------- Compact targets ----------

  /** The number nBits denotes: a 23-bit mantissa as the leading digits of so many base-256 digits. */
  function NBitsValue(nbits: u32): nat {
    (nbits % 0x100_0000) * Pow256(nbits / 0x100_0000) / 0x100_0000
  }

  predicate NBitsOk(nbits: u32) {
    nbits % 0x100_0000 < 0x80_0000 && 0 < NBitsValue(nbits) < Pow256(32)
  }

  lemma FourBytes(v: u32)
    ensures LeBytes(v, 4) == [v % 256, v / 256 % 256, v / 256 / 256 % 256, v / 256 / 256 / 256 % 256]
  {
    assert LeBytes(v, 4) == [v % 256] + LeBytes(v / 256, 3);
    assert LeBytes(v / 256, 3) == [v / 256 % 256] + LeBytes(v / 256 / 256, 2);
    assert LeBytes(v / 256 / 256, 2) == [v / 256 / 256 % 256] + LeBytes(v / 256 / 256 / 256, 1);
    assert LeBytes(v / 256 / 256 / 256, 1) == [v / 256 / 256 / 256 % 256] + [];
  }

  lemma BigEndianBytes(v: u32)
    ensures BigEndian(v)[0] as int == v / 0x100_0000 && BigEndian(v)[1] as int == v / 0x1_0000 % 0x100
    ensures Mantissa(BigEndian(v)) == v % 0x100_0000
  {
    FourBytes(v);
    hide LeBytes, Pow256;
  }

  /** The network target of an nBits field is its value, and there is one exactly when that is positive and fits. */
  lemma NetworkTargetOf(nbits: u32)
    ensures CompactTarget(BigEndian(nbits)).Success? <==> NBitsOk(nbits)
    ensures NBitsOk(nbits) ==> Be(CompactTarget(BigEndian(nbits)).value) == NBitsValue(nbits)
  {
    BigEndianBytes(nbits);
    CompactIsFloor(BigEndian(nbits));
    hide Pow256, LeBytes, CompactValue, BigEndian, Be, Mantissa;
    if NBitsOk(nbits) {
      BeOfBeBytes(NBitsValue(nbits), 32);
    }
  }

  // ---------- What the messages say ----------

  predicate IsSetup(i: Input) {
    i.Received? && i.message.SetupSuccess?
  }

  predicate IsOpening(i: Input) {
    i.Received? && i.message.OpenSuccess?
  }

  predicate SetUp(inputs: seq<Input>) {
    exists k :: 0 <= k < |inputs| && IsSetup(inputs[k])
  }

  /** The answer that opened the channel. */
  function Opening(inputs: seq<Input>): Option<Message> {
    if inputs == [] then None
    else if IsOpening(inputs[|inputs| - 1]) then Some(inputs[|inputs| - 1].message)
    else Opening(inputs[..|inputs| - 1])
  }

  /** The jobs a previous-hash message may name: that of the last one, and those offered since. */
  function Live(inputs: seq<Input>): set<u32> {
    if inputs == [] then {}
    else
      var i := inputs[|inputs| - 1];
      if i.Received? && i.message.PrevHash? then {i.message.job}
      else if i.Received? && i.message.NewJob? then Live(inputs[..|inputs| - 1]) + {i.message.job}
      else Live(inputs[..|inputs| - 1])
  }

  predicate OnChannel(o: Option<Message>, channel: u32) {
    o.Some? && o.value.OpenSuccess? && channel == o.value.channel
  }

  predicate OnChannelOrGroup(o: Option<Message>, channel: u32) {
    o.Some? && o.value.OpenSuccess? && (channel == o.value.channel || channel == o.value.group)
  }

  /** A message the protocol allows after those before it. */
  ghost predicate Allowed(user: Bytes, rate: u32, before: seq<Input>, m: Message) {
    var o := Opening(before);
    match m
    case SetupSuccess(version, flags) =>
      && !SetUp(before) && version == 2 && flags <= 1
      && |user| <= 255 && (rate < 0x7f80_0000 || rate == 0x8000_0000)
    case OpenSuccess(request, _, _, prefix, _) =>
      SetUp(before) && o.None? && request == 1 && (|prefix| == 4 || |prefix| == 12)
    case NewJob(channel, job, time, _, _) =>
      && OnChannel(o, channel) && job !in Live(before) && |Live(before)| < 1024
      && (time.Some? ==> PrevHashes(before) != [])
    case PrevHash(channel, job, hash, _, nbits) =>
      OnChannelOrGroup(o, channel) && job in Live(before) && Be(hash) < Pow256(26) && NBitsOk(nbits)
    case Target(channel, _) => OnChannelOrGroup(o, channel)
    case Accepted(channel, _, _, _) => OnChannel(o, channel) && L.Run(ShareEvents(before + [Received(m)])).Some?
    case Rejected(channel, _, _) => OnChannel(o, channel) && L.Run(ShareEvents(before + [Received(m)])).Some?
    case Error(_, _, _) => false
  }

  /** What the session knows is what the messages say. */
  ghost predicate Knows(user: Bytes, rate: u32, s: State, a: seq<Input>) {
    && s.user == user && s.rate == rate
    && (s.phase == 1 <==> !SetUp(a)) && (s.phase == 3 <==> Opening(a).Some?) && s.phase in {1, 2, 3}
    && (Opening(a).Some? ==> Opening(a).value.OpenSuccess? && s.channel == Opening(a).value.channel
                             && s.group == Opening(a).value.group && |s.extra| == EXTRA)
    && s.jobs.Keys == Live(a)
    && (s.havePrevious <==> PrevHashes(a) != []) && (s.havePrevious ==> IsHidden(s.previous))
  }

  lemma Unfolded(a: seq<Input>, i: Input)
    ensures SetUp(a + [i]) <==> SetUp(a) || IsSetup(i)
    ensures Opening(a + [i]) == if IsOpening(i) then Some(i.message) else Opening(a)
    ensures Live(a + [i]) == if i.Received? && i.message.PrevHash? then {i.message.job}
                             else if i.Received? && i.message.NewJob? then Live(a) + {i.message.job} else Live(a)
    ensures PrevHashes(a + [i]) == [] <==> PrevHashes(a) == [] && !(i.Received? && i.message.PrevHash?)
  {
    var b := a + [i];
    assert b[..|b| - 1] == a && b[|b| - 1] == i;
    if SetUp(a) {
      var k :| 0 <= k < |a| && IsSetup(a[k]);
      assert IsSetup(b[k]);
    }
    if IsSetup(i) {
      assert IsSetup(b[|a|]);
    }
  }

  // ---------- One message ----------

  lemma MoreShares(a: seq<Input>, i: Input, o: L.Outcome)
    requires L.Run(ShareEvents(a)) == Some(o) && ShareEvent(i) != []
    ensures L.Run(ShareEvents(a + [i])) == L.Step(o, ShareEvent(i)[0])
  {
    hide L.Run, L.Step, L.SentIds, L.RefusedIds, L.Acks;
    var b := a + [i];
    assert b[..|b| - 1] == a && b[|b| - 1] == i;
    assert ShareEvents(b) == ShareEvents(a) + [ShareEvent(i)[0]];
    L.Extend(ShareEvents(a), ShareEvent(i)[0]);
  }

  lemma ActivationSucceeds(s: State, key: u32, time: u32)
    requires key in s.jobs && |s.extra| == EXTRA && (s.havePrevious ==> IsHidden(s.previous))
    ensures Activate(s, key, time).Some? <==> s.havePrevious
  {
    hide IsHidden, ShareTarget, DecimalText, WorkHeader, StandardLeaf;
  }

  lemma AllowsSetup(user: Bytes, rate: u32, s: State, a: seq<Input>, m: Message)
    requires Knows(user, rate, s, a) && m.SetupSuccess?
    ensures Handle(s, m).Some? <==> Allowed(user, rate, a, m)
  {
    var r := OpenStandard(1, s.user, s.rate, AllOnes());
    W.RateIs(rate);
    hide SetUp, Opening, Live, PrevHashes, IsHidden, RateOk;
  }

  lemma AllowsOffer(user: Bytes, rate: u32, s: State, a: seq<Input>, m: Offer)
    requires Knows(user, rate, s, a)
    ensures Handle(s, m).Some? <==> Allowed(user, rate, a, m)
  {
    hide SetUp, Opening, Live, PrevHashes, IsHidden, Activate;
    assert |s.jobs| == |s.jobs.Keys|;
    if m.ntime.Some? && s.phase == 3 {
      ActivationSucceeds(s.(jobs := s.jobs[m.job := Stored(m, BLANK, false)]), m.job, m.ntime.value);
    }
  }

  lemma PrevHashSucceeds(s: State, channel: u32, job: u32, hash: Hash, time: u32, nbits: u32)
    requires s.phase == 3 ==> |s.extra| == EXTRA
    ensures OnPrevHash(s, channel, job, hash, time, nbits).Some? <==>
              && s.phase == 3 && (channel == s.channel || channel == s.group) && job in s.jobs
              && Be(hash) < Pow256(26) && NBitsOk(nbits)
  {
    HiddenIsSmall(hash);
    NetworkTargetOf(nbits);
    hide IsHidden, Activate, CompactTarget, NBitsOk, Be, Pow256, BigEndian;
    var network := CompactTarget(BigEndian(nbits));
    if job in s.jobs && network.Success? && IsHidden(hash) && s.phase == 3 {
      ActivationSucceeds(AfterPrevHash(s, job, hash, network.value), job, time);
    }
  }

  lemma AllowsPrevHash(user: Bytes, rate: u32, s: State, a: seq<Input>, m: Message)
    requires Knows(user, rate, s, a) && m.PrevHash?
    ensures Handle(s, m).Some? <==> Allowed(user, rate, a, m)
  {
    PrevHashSucceeds(s, m.channel, m.job, m.hash, m.time, m.nbits);
    hide SetUp, Opening, Live, PrevHashes, IsHidden, OnPrevHash, NBitsOk, Be, Pow256;
  }

  lemma AllowsShare(user: Bytes, rate: u32, s: State, a: seq<Input>, m: Message, o: L.Outcome)
    requires Knows(user, rate, s, a) && (m.Accepted? || m.Rejected?)
    requires L.Run(ShareEvents(a)) == Some(o) && o.ledger == s.ledger
    ensures Handle(s, m).Some? <==> Allowed(user, rate, a, m)
  {
    MoreShares(a, Received(m), o);
    hide SetUp, Opening, Live, PrevHashes, IsHidden, L.Acknowledge, L.Refuse, ShareEvents, L.Run;
  }

  lemma Allows(user: Bytes, rate: u32, s: State, a: seq<Input>, m: Message, o: L.Outcome)
    requires Knows(user, rate, s, a) && L.Run(ShareEvents(a)) == Some(o) && o.ledger == s.ledger
    ensures Handle(s, m).Some? <==> Allowed(user, rate, a, m)
  {
    match m {
      case SetupSuccess(_, _) => AllowsSetup(user, rate, s, a, m);
      case NewJob(_, _, _, _, _) => AllowsOffer(user, rate, s, a, m);
      case PrevHash(_, _, _, _, _) => AllowsPrevHash(user, rate, s, a, m);
      case Accepted(_, _, _, _) => AllowsShare(user, rate, s, a, m, o);
      case Rejected(_, _, _) => AllowsShare(user, rate, s, a, m, o);
      case _ => hide SetUp, Opening, Live, PrevHashes, IsHidden;
    }
  }

  // ---------- Knowledge is kept ----------

  lemma Hears(user: Bytes, rate: u32, s: State, a: seq<Input>, i: Input)
    requires Knows(user, rate, s, a) && React(s, i).Some?
    requires i.Received? ==> !i.message.NewJob? && !i.message.PrevHash?
    ensures Knows(user, rate, React(s, i).value.state, a + [i])
  {
    Unfolded(a, i);
    hide SetUp, Opening, Live, PrevHashes, IsHidden, L.Acknowledge, L.Refuse, OpenStandard, Valid;
    if IsOpening(i) {
      PaddedPrefix(i.message.prefix);
    }
    hide Padded;
  }

  lemma HearsOffer(user: Bytes, rate: u32, s: State, a: seq<Input>, m: Offer)
    requires Knows(user, rate, s, a) && Handle(s, m).Some?
    ensures Knows(user, rate, Handle(s, m).value.state, a + [Received(m)])
  {
    Unfolded(a, Received(m));
    hide SetUp, Opening, Live, PrevHashes, IsHidden, StandardWork, JobFor;
  }

  lemma HearsPrevHash(user: Bytes, rate: u32, s: State, a: seq<Input>, m: Message)
    requires m.PrevHash? && Knows(user, rate, s, a) && Handle(s, m).Some?
    ensures Knows(user, rate, Handle(s, m).value.state, a + [Received(m)])
  {
    Unfolded(a, Received(m));
    hide SetUp, Opening, Live, PrevHashes, IsHidden, StandardWork, JobFor, CompactTarget;
  }

  lemma {:induction false} KnowsRun(user: Bytes, rate: u32, inputs: seq<Input>)
    requires Run(Start(user, rate), inputs).Some?
    ensures Knows(user, rate, Run(Start(user, rate), inputs).value.state, inputs)
  {
    hide React, SetUp, Opening, Live;
    if inputs == [] {
      KnowsNothing(user, rate);
    } else {
      hide Knows;
      var a, i := inputs[..|inputs| - 1], inputs[|inputs| - 1];
      assert inputs == a + [i];
      KnowsRun(user, rate, a);
      var s := Run(Start(user, rate), a).value.state;
      if i.Received? && i.message.NewJob? {
        ReactIsHandle(s, i.message);
        HearsOffer(user, rate, s, a, i.message);
      } else if i.Received? && i.message.PrevHash? {
        ReactIsHandle(s, i.message);
        HearsPrevHash(user, rate, s, a, i.message);
      } else {
        Hears(user, rate, s, a, i);
      }
    }
  }

  lemma KnowsNothing(user: Bytes, rate: u32)
    ensures Knows(user, rate, Start(user, rate), [])
  {
  }

  lemma ReactIsHandle(s: State, m: Message)
    ensures React(s, Received(m)) == Handle(s, m)
  {
  }

  // ---------- Submissions ----------

  /** A job of the activation its generation names, since which no previous hash came. */
  ghost predicate Current(user: Bytes, rate: u32, before: seq<Input>, j: Job)
    requires Run(Start(user, rate), before).Some?
  {
    var h := Run(Start(user, rate), before).value.history;
    && 1 <= j.generation <= |h| && j.epoch == |PrevHashes(before)| == h[j.generation - 1].job.epoch
    && j.wireJob == h[j.generation - 1].job.wireJob && j.channel == h[j.generation - 1].job.channel
  }

  lemma ValidIsCurrent(user: Bytes, rate: u32, before: seq<Input>, j: Job)
    requires Run(Start(user, rate), before).Some?
    ensures Valid(Run(Start(user, rate), before).value.state, j) <==> Current(user, rate, before, j)
  {
    hide Run, PrevHashes, Valid;
    var t := Run(Start(user, rate), before).value;
    EpochIsCount(user, rate, before);
    JobValidity(user, rate, before);
    NumbersMatch(user, rate, before, j.generation);
    if Valid(t.state, j) {
      ValidWasActivated(user, rate, before, j);
      ValidEpoch(t.state, j);
    }
    if Current(user, rate, before, j) {
      SameValidity(t.state, t.history[j.generation - 1].job, j);
    }
  }

  lemma EpochIsCount(user: Bytes, rate: u32, before: seq<Input>)
    requires Run(Start(user, rate), before).Some?
    ensures Run(Start(user, rate), before).value.state.epoch == |PrevHashes(before)|
  {
    StateReflectsMessages(user, rate, before);
    hide Run, PrevHashes, CompactTarget, AnnouncedTargets;
  }

  lemma NumbersMatch(user: Bytes, rate: u32, before: seq<Input>, g: nat)
    requires Run(Start(user, rate), before).Some?
    ensures var h := Run(Start(user, rate), before).value.history;
            1 <= g <= |h| ==> h[g - 1].job.generation == g
  {
    SoundRun(user, rate, before);
    hide Run, Faithful, Kept, Sv2.Known;
  }

  lemma ValidEpoch(s: State, j: Job)
    requires Valid(s, j)
    ensures j.epoch == s.epoch
  {
  }

  lemma SameValidity(s: State, j: Job, k: Job)
    requires j.channel == k.channel && j.epoch == k.epoch && j.wireJob == k.wireJob && j.generation == k.generation
    ensures Valid(s, j) <==> Valid(s, k)
  {
  }

  /** The submission's share fits the books: a new highest sequence number and room among 4096. */
  ghost predicate Submittable(user: Bytes, rate: u32, before: seq<Input>, i: Input)
    requires i.Submitted? && Run(Start(user, rate), before).Some?
  {
    && Current(user, rate, before, i.job) && i.nonce < 0x1_0000_0000
    && L.Run(ShareEvents(before + [i])).Some?
  }

  lemma SubmitsShare(user: Bytes, rate: u32, before: seq<Input>, i: Input)
    requires i.Submitted? && Run(Start(user, rate), before).Some?
    ensures SubmitShare(Run(Start(user, rate), before).value.state, i.job, i.nonce, i.sequence).Some?
            <==> Submittable(user, rate, before, i)
  {
    var t := Run(Start(user, rate), before).value;
    SessionRunsLedger(user, rate, before);
    ValidIsCurrent(user, rate, before, i.job);
    MoreShares(before, i, L.Outcome(t.state.ledger, AcceptedIds(t.replies)));
    hide Run, Valid, Current, ShareEvents, AcceptedIds, L.Run;
  }

  // ---------- Whole runs ----------

  ghost predicate Conforms(user: Bytes, rate: u32, inputs: seq<Input>) {
    inputs == []
    || (var a, i := inputs[..|inputs| - 1], inputs[|inputs| - 1];
        && Conforms(user, rate, a) && Run(Start(user, rate), a).Some?
        && match i
           case Received(m) => Allowed(user, rate, a, m)
           case Submitted(_, _, _) => Submittable(user, rate, a, i))
  }

  /**
    A session survives a sequence of messages and submissions if and only if each of them is allowed by those
    before it: setup, then the channel, then jobs, previous hashes, targets and answers that fit.
   */
  lemma {:induction false} SessionSurvives(user: Bytes, rate: u32, inputs: seq<Input>)
    ensures Run(Start(user, rate), inputs).Some? <==> Conforms(user, rate, inputs)
  {
    if inputs != [] {
      hide Allowed, Submittable, Handle, SubmitShare, Knows;
      var a, i := inputs[..|inputs| - 1], inputs[|inputs| - 1];
      SessionSurvives(user, rate, a);
      if Run(Start(user, rate), a).Some? {
        var t := Run(Start(user, rate), a).value;
        if i.Received? {
          KnowsRun(user, rate, a);
          SessionRunsLedger(user, rate, a);
          Allows(user, rate, t.state, a, i.message, L.Outcome(t.state.ledger, AcceptedIds(t.replies)));
        } else {
          SubmitsShare(user, rate, a, i);
        }
      }
    }
  }
}
