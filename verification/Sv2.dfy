/** The SV2 standard channel as a function of its state: one reaction per message or submit. */
module Sv2 {
  import opened Base
  import opened Framing
  import opened Codec
  import opened Jobs
  import opened Scan
  import opened Coin
  import opened Targets
  import L = ShareLedger

  type Offer = m: Message | m.NewJob? witness NewJob(0, 0, None, 0, Zeros(32))

  datatype Stored = Stored(wire: Offer, job: Job, future: bool)

  datatype State = State(user: Bytes, rate: u32, phase: nat, channel: u32, group: u32, generation: nat, epoch: nat,
                         target: Hash, networkTarget: Hash, previous: Hash, havePrevious: bool, extra: Bytes,
                         jobs: map<u32, Stored>, ledger: L.Ledger, current: Option<Job>)

  datatype Reply = ShareAccepted(id: u32) | ShareRefused(id: u32, code: nat, reason: Bytes)
                 | Retarget(target: Hash) | Prompt

  datatype Reaction = Reaction(state: State, replies: seq<Reply>, frames: seq<Frame>)

  const MAX_JOBS := 1024
  const STALE := 21
  const OTHER := 20

  function Start(user: Bytes, rate: u32): State {
    State(user, rate, 1, 0, 0, 0, 0, Zeros(32), Zeros(32), Zeros(32), false, [], map[], L.EMPTY, None)
  }

  function AllOnes(): Hash {
    seq(32, i => 255)
  }

  /** The easiest target the chain accepts: the top 32 bits of a proof must be zero. */
  function Easiest(): Hash {
    seq(32, i => if i < 4 then 0 else 255)
  }

  function ShareTarget(target: Hash): Hash {
    if LexLess(Easiest(), target) then Easiest() else target
  }

  function Ascii(s: string): Bytes {
    seq(|s|, i requires 0 <= i < |s| => s[i] as int % 256)
  }

  function Code(reason: Bytes): nat {
    if reason in {Ascii("stale-share"), Ascii("invalid-job-id"), Ascii("stale-job")} then STALE else OTHER
  }

  function Reports(ids: seq<u32>): (r: seq<Reply>)
    ensures |r| == |ids| && forall i :: 0 <= i < |ids| ==> r[i] == ShareAccepted(ids[i])
  {
    seq(|ids|, i requires 0 <= i < |ids| => ShareAccepted(ids[i]))
  }

  // ---------- One step ----------

  function JobFor(s: State, wire: Offer, time: u32, header: Header): Job {
    Job(Work(header, ShareTarget(s.target)), DecimalText(wire.job), "", "", s.generation + 1, s.epoch,
        s.networkTarget, true, s.channel, wire.job, wire.version32, time)
  }

  /** Make the offer stored under key the current job. */
  function Activate(s: State, key: u32, time: u32): Option<State>
    requires key in s.jobs
  {
    var wire := s.jobs[key].wire;
    var work := StandardWork(s.previous, wire.root, s.extra, time);
    if !s.havePrevious || work.Failure? then None
    else
      var job := JobFor(s, wire, time, work.value);
      Some(s.(generation := s.generation + 1, current := Some(job),
              jobs := s.jobs[key := Stored(wire, job, false)]))
  }

  function Prompted(s: Option<State>): Option<Reaction> {
    match s case None => None case Some(t) => Some(Reaction(t, [Prompt], []))
  }

  function OnSetup(s: State, version: u16, flags: u32): Option<Reaction> {
    var open := OpenStandard(1, s.user, s.rate, AllOnes());
    if s.phase == 1 && version == 2 && flags <= 1 && open.Success?
    then Some(Reaction(s.(phase := 2), [Prompt], [open.value]))
    else None
  }

  function Padded(prefix: Bytes): Bytes {
    prefix + Zeros(if |prefix| <= EXTRA then EXTRA - |prefix| else 0)
  }

  function OnOpen(s: State, request: u32, channel: u32, target: Hash, prefix: Bytes, group: u32): Option<Reaction> {
    if s.phase == 2 && request == 1 && |prefix| in {4, 12}
    then Prompted(Some(s.(channel := channel, group := group, target := target,
                          extra := Padded(prefix), phase := 3)))
    else None
  }

  function OnNewJob(s: State, m: Offer): Option<Reaction> {
    if s.phase == 3 && m.channel == s.channel && |s.jobs| < MAX_JOBS && m.job !in s.jobs then
      var t := s.(jobs := s.jobs[m.job := Stored(m, BLANK, m.ntime.None?)]);
      match m.ntime
      case None => Prompted(Some(t))
      case Some(time) => Prompted(Activate(t, m.job, time))
    else None
  }

  function BigEndian(v: u32): Bytes {
    Reverse(LeBytes(v, 4))
  }

  function AfterPrevHash(s: State, job: u32, hash: Hash, network: Hash): State
    requires job in s.jobs
  {
    s.(jobs := map[job := s.jobs[job]], epoch := s.epoch + 1, previous := hash,
       networkTarget := network, havePrevious := true)
  }

  function OnPrevHash(s: State, channel: u32, job: u32, hash: Hash, time: u32, nbits: u32): Option<Reaction> {
    var network := CompactTarget(BigEndian(nbits));
    if s.phase == 3 && channel in {s.channel, s.group} && job in s.jobs && IsHidden(hash) && network.Success? then
      Prompted(Activate(AfterPrevHash(s, job, hash, network.value), job, time))
    else None
  }

  function OnTarget(s: State, channel: u32, target: Hash): Option<Reaction> {
    if s.phase == 3 && channel in {s.channel, s.group}
    then Some(Reaction(s.(target := target), [Retarget(target), Prompt], []))
    else None
  }

  ghost function OnAccepted(s: State, channel: u32, last: u32, count: u32): Option<Reaction> {
    if s.phase != 3 || channel != s.channel then None
    else match L.Acknowledge(s.ledger, L.Batch(last, count))
         case None => None
         case Some(o) => Some(Reaction(s.(ledger := o.ledger), Reports(o.accepted) + [Prompt], []))
  }

  ghost function OnRejected(s: State, channel: u32, sequence: u32, reason: Bytes): Option<Reaction> {
    if s.phase != 3 || channel != s.channel then None
    else match L.Refuse(s.ledger, sequence)
         case None => None
         case Some(o) =>
           Some(Reaction(s.(ledger := o.ledger),
                         [ShareRefused(sequence, Code(reason), reason)] + Reports(o.accepted) + [Prompt], []))
  }

  /** What one message from the pool does; None ends the connection. */
  ghost function Handle(s: State, m: Message): Option<Reaction> {
    match m
    case SetupSuccess(v, f) => OnSetup(s, v, f)
    case OpenSuccess(r, c, t, p, g) => OnOpen(s, r, c, t, p, g)
    case NewJob(_, _, _, _, _) => OnNewJob(s, m)
    case PrevHash(c, j, h, t, n) => OnPrevHash(s, c, j, h, t, n)
    case Target(c, t) => OnTarget(s, c, t)
    case Accepted(c, l, n, _) => OnAccepted(s, c, l, n)
    case Rejected(c, q, reason) => OnRejected(s, c, q, reason)
    case Error(_, _, _) => None
  }

  /** The messages of a list of frames, one after the other. */
  ghost function HandleFrames(s: State, fs: seq<Frame>): Option<Reaction> {
    if fs == [] then Some(Reaction(s, [], []))
    else match HandleFrames(s, fs[..|fs| - 1])
         case None => None
         case Some(r) => HandleNext(r, fs[|fs| - 1])
  }

  ghost function HandleNext(r: Reaction, f: Frame): Option<Reaction> {
    match Decode(f)
    case Failure => None
    case Success(m) =>
      match Handle(r.state, m)
      case None => None
      case Some(q) => Some(Reaction(q.state, r.replies + q.replies, r.frames + q.frames))
  }

  predicate Valid(s: State, j: Job) {
    && s.phase == 3 && j.channel == s.channel && j.epoch == s.epoch && j.wireJob in s.jobs
    && !s.jobs[j.wireJob].future && s.jobs[j.wireJob].job.generation == j.generation
  }

  function SubmitShare(s: State, j: Job, nonce: u64, sequence: u32): Option<Reaction> {
    var l := L.Submit(s.ledger, sequence);
    if Valid(s, j) && nonce < 0x1_0000_0000 && l.Some?
    then Some(Reaction(s.(ledger := l.value), [],
                       [SubmitStandard(s.channel, sequence, j.wireJob, nonce, j.time32, j.version)]))
    else None
  }

  // ---------- Whole runs ----------

  datatype Input = Received(message: Message) | Submitted(job: Job, nonce: u64, sequence: u32)

  /** A job that became current, with what its header was made from. */
  datatype Activation = Activation(job: Job, previous: Hash, commitment: Hash, extra: Bytes, share: Hash)

  datatype Trace = Trace(state: State, history: seq<Activation>, replies: seq<Reply>, frames: seq<Frame>)

  ghost function React(s: State, i: Input): Option<Reaction> {
    match i
    case Received(m) => Handle(s, m)
    case Submitted(j, nonce, sequence) => SubmitShare(s, j, nonce, sequence)
  }

  function Activated(before: State, after: State): seq<Activation> {
    if after.generation > before.generation && after.current.Some? && after.current.value.wireJob in after.jobs then
      var job := after.current.value;
      [Activation(job, after.previous, after.jobs[job.wireJob].wire.root, after.extra, after.target)]
    else []
  }

  ghost function Next(t: Trace, i: Input): Option<Trace> {
    match React(t.state, i)
    case None => None
    case Some(r) =>
      Some(Trace(r.state, t.history + Activated(t.state, r.state), t.replies + r.replies, t.frames + r.frames))
  }

  ghost function Run(start: State, inputs: seq<Input>): Option<Trace> {
    if inputs == [] then Some(Trace(start, [], [], []))
    else match Run(start, inputs[..|inputs| - 1])
         case None => None
         case Some(t) => Next(t, inputs[|inputs| - 1])
  }

  // ---------- The invariant ----------

  predicate Faithful(a: Activation) {
    && StandardWork(a.previous, a.commitment, a.extra, a.job.time32) == Success(a.job.work.header)
    && a.job.work.target == ShareTarget(a.share) && a.job.sv2
  }

  /** An activated job is still stored as long as its epoch lasts. */
  predicate Kept(jobs: map<u32, Stored>, channel: u32, epoch: nat, j: Job) {
    && j.channel == channel && j.epoch <= epoch
    && (j.epoch == epoch ==> j.wireJob in jobs && !jobs[j.wireJob].future && jobs[j.wireJob].job == j)
  }

  /** A stored job that is not waiting was activated in this epoch. */
  predicate Known(h: seq<Activation>, epoch: nat, id: u32, e: Stored) {
    && e.wire.job == id
    && (!e.future ==> 1 <= e.job.generation <= |h| && h[e.job.generation - 1].job == e.job && e.job.wireJob == id
                      && e.job.epoch == epoch)
  }

  predicate CurrentIsLast(current: Option<Job>, epoch: nat, h: seq<Activation>) {
    if h == [] then current.None? else current == Some(h[|h| - 1].job) && h[|h| - 1].job.epoch == epoch
  }

  ghost predicate Numbered(h: seq<Activation>) {
    forall i :: 0 <= i < |h| ==> h[i].job.generation == i + 1
  }

  ghost predicate AllFaithful(h: seq<Activation>) {
    forall i :: 0 <= i < |h| ==> Faithful(h[i])
  }

  ghost predicate AllKept(jobs: map<u32, Stored>, channel: u32, epoch: nat, h: seq<Activation>) {
    forall i :: 0 <= i < |h| ==> Kept(jobs, channel, epoch, h[i].job)
  }

  ghost predicate AllKnown(jobs: map<u32, Stored>, epoch: nat, h: seq<Activation>) {
    forall id :: id in jobs ==> Known(h, epoch, id, jobs[id])
  }

  ghost predicate Sound(t: Trace) {
    var (s, h) := (t.state, t.history);
    && |h| == s.generation && Numbered(h) && AllFaithful(h)
    && (s.havePrevious ==> IsHidden(s.previous))
    && (h != [] ==> s.phase == 3)
    && CurrentIsLast(s.current, s.epoch, h)
    && AllKept(s.jobs, s.channel, s.epoch, h)
    && AllKnown(s.jobs, s.epoch, h)
  }

  lemma SoundStart(user: Bytes, rate: u32)
    ensures Sound(Trace(Start(user, rate), [], [], []))
  {
  }

  /** Steps that leave the jobs alone. */
  lemma SoundQuiet(t: Trace, after: State)
    requires Sound(t)
    requires after == t.state.(target := after.target, ledger := after.ledger)
             || (t.state.phase != 3 && after == t.state.(phase := after.phase, channel := after.channel,
                                                         group := after.group, target := after.target,
                                                         extra := after.extra))
    ensures Sound(t.(state := after))
    ensures Activated(t.state, after) == []
  {
    hide Faithful, Known, IsHidden;
  }

  lemma KeptOffer(jobs: map<u32, Stored>, channel: u32, epoch: nat, h: seq<Activation>, key: u32, e: Stored)
    requires AllKept(jobs, channel, epoch, h) && key !in jobs
    ensures AllKept(jobs[key := e], channel, epoch, h)
    ensures Vacant(channel, epoch, h, key)
  {
    forall i | 0 <= i < |h|
      ensures Kept(jobs[key := e], channel, epoch, h[i].job) && Elsewhere(channel, epoch, h[i].job, key)
    {
      assert Kept(jobs, channel, epoch, h[i].job);
    }
  }

  lemma KnownOffer(jobs: map<u32, Stored>, epoch: nat, h: seq<Activation>, key: u32, e: Stored)
    requires AllKnown(jobs, epoch, h) && e.future && e.wire.job == key
    ensures AllKnown(jobs[key := e], epoch, h)
  {
    var jobs' := jobs[key := e];
    forall id | id in jobs'
      ensures Known(h, epoch, id, jobs'[id])
    {
      if id != key {
        assert Known(h, epoch, id, jobs[id]);
      }
    }
  }

  lemma SoundOffer(t: Trace, m: Offer)
    requires Sound(t) && m.job !in t.state.jobs && m.ntime.None?
    ensures Sound(t.(state := t.state.(jobs := t.state.jobs[m.job := Stored(m, BLANK, true)])))
  {
    var s := t.state;
    KeptOffer(s.jobs, s.channel, s.epoch, t.history, m.job, Stored(m, BLANK, true));
    KnownOffer(s.jobs, s.epoch, t.history, m.job, Stored(m, BLANK, true));
  }

  // ---------- Activation ----------

  /** The job does not occupy the key in this epoch. */
  predicate Elsewhere(channel: u32, epoch: nat, j: Job, key: u32) {
    j.channel == channel && j.epoch <= epoch && !(j.epoch == epoch && j.wireJob == key)
  }

  ghost predicate Vacant(channel: u32, epoch: nat, h: seq<Activation>, key: u32) {
    forall i :: 0 <= i < |h| ==> Elsewhere(channel, epoch, h[i].job, key)
  }

  ghost predicate OthersKnown(jobs: map<u32, Stored>, epoch: nat, h: seq<Activation>, key: u32) {
    forall id :: id in jobs && id != key ==> Known(h, epoch, id, jobs[id])
  }

  /** What an activation may start from: no activated job of this epoch sits under the key. */
  ghost predicate Free(s: State, h: seq<Activation>, key: u32) {
    && s.phase == 3 && |h| == s.generation && key in s.jobs && s.jobs[key].wire.job == key
    && (s.havePrevious ==> IsHidden(s.previous))
    && Numbered(h) && AllFaithful(h)
    && AllKept(s.jobs, s.channel, s.epoch, h) && Vacant(s.channel, s.epoch, h, key)
    && OthersKnown(s.jobs, s.epoch, h, key)
  }

  lemma KeptActivate(jobs: map<u32, Stored>, channel: u32, epoch: nat, h: seq<Activation>, key: u32,
                     wire: Offer, a: Activation)
    requires AllKept(jobs, channel, epoch, h) && Vacant(channel, epoch, h, key)
    requires a.job.wireJob == key && a.job.channel == channel && a.job.epoch == epoch
    ensures AllKept(jobs[key := Stored(wire, a.job, false)], channel, epoch, h + [a])
  {
    var h', jobs' := h + [a], jobs[key := Stored(wire, a.job, false)];
    forall i | 0 <= i < |h'|
      ensures Kept(jobs', channel, epoch, h'[i].job)
    {
      if i < |h| {
        assert h'[i] == h[i];
        assert Kept(jobs, channel, epoch, h[i].job) && Elsewhere(channel, epoch, h[i].job, key);
      }
    }
  }

  lemma KnownActivate(jobs: map<u32, Stored>, epoch: nat, h: seq<Activation>, key: u32, wire: Offer, a: Activation)
    requires OthersKnown(jobs, epoch, h, key) && wire.job == key
    requires a.job.wireJob == key && a.job.epoch == epoch && a.job.generation == |h| + 1
    ensures AllKnown(jobs[key := Stored(wire, a.job, false)], epoch, h + [a])
  {
    var h', jobs' := h + [a], jobs[key := Stored(wire, a.job, false)];
    forall id | id in jobs'
      ensures Known(h', epoch, id, jobs'[id])
    {
      if id != key {
        assert Known(h, epoch, id, jobs[id]);
      }
    }
  }

  /** What the new history entry of an activation is. */
  function EntryOf(s: State, key: u32, time: u32): Activation
    requires key in s.jobs && Activate(s, key, time).Some?
  {
    Activation(Activate(s, key, time).value.current.value, s.previous, s.jobs[key].wire.root, s.extra, s.target)
  }

  lemma ActivateEntry(s: State, key: u32, time: u32)
    requires key in s.jobs && Activate(s, key, time).Some? && s.jobs[key].wire.job == key
    ensures var a := EntryOf(s, key, time); var j := a.job;
            && Faithful(a) && j.wireJob == key && j.channel == s.channel && j.epoch == s.epoch
            && j.generation == s.generation + 1
            && Activate(s, key, time).value
               == s.(generation := s.generation + 1, current := Some(j),
                     jobs := s.jobs[key := Stored(s.jobs[key].wire, j, false)])
  {
    hide StandardWork, ShareTarget, DecimalText;
  }

  lemma Appended(h: seq<Activation>, a: Activation)
    requires Numbered(h) && AllFaithful(h) && Faithful(a) && a.job.generation == |h| + 1
    ensures Numbered(h + [a]) && AllFaithful(h + [a]) && CurrentIsLast(Some(a.job), a.job.epoch, h + [a])
  {
    hide Faithful;
  }

  lemma SoundActivate(t: Trace, s: State, key: u32, time: u32)
    requires Free(s, t.history, key) && Activate(s, key, time).Some?
    ensures Sound(t.(state := Activate(s, key, time).value, history := t.history + [EntryOf(s, key, time)]))
  {
    var h, a, wire := t.history, EntryOf(s, key, time), s.jobs[key].wire;
    ActivateEntry(s, key, time);
    Appended(h, a);
    KeptActivate(s.jobs, s.channel, s.epoch, h, key, wire, a);
    KnownActivate(s.jobs, s.epoch, h, key, wire, a);
  }

  lemma OthersOffer(jobs: map<u32, Stored>, epoch: nat, h: seq<Activation>, key: u32, e: Stored)
    requires AllKnown(jobs, epoch, h)
    ensures OthersKnown(jobs[key := e], epoch, h, key)
  {
    var jobs' := jobs[key := e];
    forall id | id in jobs' && id != key
      ensures Known(h, epoch, id, jobs'[id])
    {
      assert Known(h, epoch, id, jobs[id]);
    }
  }

  lemma FreeOffer(t: Trace, m: Offer)
    requires Sound(t) && t.state.phase == 3 && m.job !in t.state.jobs
    ensures Free(t.state.(jobs := t.state.jobs[m.job := Stored(m, BLANK, m.ntime.None?)]), t.history, m.job)
  {
    var s, e := t.state, Stored(m, BLANK, m.ntime.None?);
    KeptOffer(s.jobs, s.channel, s.epoch, t.history, m.job, e);
    OthersOffer(s.jobs, s.epoch, t.history, m.job, e);
  }

  lemma KeptNewEpoch(jobs: map<u32, Stored>, renewed: map<u32, Stored>, channel: u32, epoch: nat,
                     h: seq<Activation>, key: u32)
    requires AllKept(jobs, channel, epoch, h)
    ensures AllKept(renewed, channel, epoch + 1, h) && Vacant(channel, epoch + 1, h, key)
  {
    forall i | 0 <= i < |h|
      ensures Kept(renewed, channel, epoch + 1, h[i].job) && Elsewhere(channel, epoch + 1, h[i].job, key)
    {
      assert Kept(jobs, channel, epoch, h[i].job);
    }
  }

  lemma StoredUnderItsId(jobs: map<u32, Stored>, epoch: nat, h: seq<Activation>, key: u32)
    requires AllKnown(jobs, epoch, h) && key in jobs
    ensures jobs[key].wire.job == key
    ensures OthersKnown(map[key := jobs[key]], epoch + 1, h, key)
  {
    assert Known(h, epoch, key, jobs[key]);
  }

  lemma FreePrevHash(t: Trace, job: u32, hash: Hash, network: Hash)
    requires Sound(t) && t.state.phase == 3 && job in t.state.jobs && IsHidden(hash)
    ensures Free(AfterPrevHash(t.state, job, hash, network), t.history, job)
  {
    hide Vacant, AllKept, OthersKnown, AllKnown, AllFaithful, Numbered, IsHidden;
    var s := t.state;
    StoredUnderItsId(s.jobs, s.epoch, t.history, job);
    KeptNewEpoch(s.jobs, map[job := s.jobs[job]], s.channel, s.epoch, t.history, job);
  }

  lemma SoundNext(t: Trace, i: Input)
    requires Sound(t) && Next(t, i).Some?
    ensures Sound(Next(t, i).value)
  {
    var r := React(t.state, i).value.state;
    hide Sound;
    if i.Received? && i.message.PrevHash? {
      SoundPrevHash(t, i.message);
    } else if i.Received? && i.message.NewJob? {
      SoundNewJob(t, i.message);
    } else {
      SoundStep(t, i, r);
    }
  }

  lemma ActivatedEntry(before: State, s: State, key: u32, time: u32)
    requires key in s.jobs && Activate(s, key, time).Some? && s.jobs[key].wire.job == key
    requires before.generation == s.generation
    ensures Activated(before, Activate(s, key, time).value) == [EntryOf(s, key, time)]
  {
    hide StandardWork, ShareTarget, DecimalText;
  }

  lemma SoundNewJob(t: Trace, m: Offer)
    requires Sound(t) && Next(t, Received(m)).Some?
    ensures Sound(Next(t, Received(m)).value)
  {
    var u := t.state.(jobs := t.state.jobs[m.job := Stored(m, BLANK, m.ntime.None?)]);
    var n := Next(t, Received(m)).value;
    hide Activate, Sound, Free;
    if m.ntime.None? {
      SoundOffer(t, m);
      assert Activated(t.state, u) == [];
      SoundExtra(t.(state := u), n);
    } else {
      FreeOffer(t, m);
      SoundActivate(t, u, m.job, m.ntime.value);
      ActivatedEntry(t.state, u, m.job, m.ntime.value);
      SoundExtra(t.(state := n.state, history := n.history), n);
    }
  }

  lemma SoundPrevHash(t: Trace, m: Message)
    requires m.PrevHash? && Sound(t) && Next(t, Received(m)).Some?
    ensures Sound(Next(t, Received(m)).value)
  {
    var network := CompactTarget(BigEndian(m.nbits));
    var n := Next(t, Received(m)).value;
    hide Activate, Sound, CompactTarget, IsHidden;
    FreePrevHash(t, m.job, m.hash, network.value);
    var u := AfterPrevHash(t.state, m.job, m.hash, network.value);
    assert u.jobs[m.job].wire.job == m.job;
    hide Free;
    SoundActivate(t, u, m.job, m.time);
    ActivatedEntry(t.state, u, m.job, m.time);
    SoundExtra(t.(state := n.state, history := n.history), n);
  }

  lemma SoundStep(t: Trace, i: Input, r: State)
    requires Sound(t) && Next(t, i).Some? && r == React(t.state, i).value.state
    requires i.Received? ==> !i.message.NewJob? && !i.message.PrevHash?
    ensures Sound(Next(t, i).value)
  {
    hide Sound, L.Acknowledge, L.Refuse, Padded, Valid;
    SoundQuiet(t, r);
    assert t.history + [] == t.history;
    SoundExtra(t.(state := r), Next(t, i).value);
  }

  lemma SoundExtra(t: Trace, u: Trace)
    requires Sound(t) && u.state == t.state && u.history == t.history
    ensures Sound(u)
  {
  }

  lemma {:induction false} SoundRun(user: Bytes, rate: u32, inputs: seq<Input>)
    requires Run(Start(user, rate), inputs).Some?
    ensures Sound(Run(Start(user, rate), inputs).value)
  {
    hide Sound, React;
    if inputs == [] {
      SoundStart(user, rate);
    } else {
      SoundRun(user, rate, inputs[..|inputs| - 1]);
      SoundNext(Run(Start(user, rate), inputs[..|inputs| - 1]).value, inputs[|inputs| - 1]);
    }
  }

  // ---------- Job validity over whole runs ----------

  lemma KeptIsValid(s: State, h: seq<Activation>, i: nat)
    requires i < |h| && s.phase == 3 && AllKept(s.jobs, s.channel, s.epoch, h)
    ensures Valid(s, h[i].job) <==> h[i].job.epoch == s.epoch
  {
    assert Kept(s.jobs, s.channel, s.epoch, h[i].job);
  }

  /**
    After any run, an activated job is valid exactly while its epoch is the current one. The current
    job is the last activated one and is always valid.
   */
  lemma JobValidity(user: Bytes, rate: u32, inputs: seq<Input>)
    requires Run(Start(user, rate), inputs).Some?
    ensures var t := Run(Start(user, rate), inputs).value; var (s, h) := (t.state, t.history);
            && (forall i :: 0 <= i < |h| ==> (Valid(s, h[i].job) <==> h[i].job.epoch == s.epoch))
            && (s.current.Some? <==> h != [])
            && (h != [] ==> s.current == Some(h[|h| - 1].job) && Valid(s, s.current.value))
  {
    SoundRun(user, rate, inputs);
    var t := Run(Start(user, rate), inputs).value;
    forall i | 0 <= i < |t.history|
      ensures Valid(t.state, t.history[i].job) <==> t.history[i].job.epoch == t.state.epoch
    {
      KeptIsValid(t.state, t.history, i);
    }
  }

  /** Only activated jobs pass the validity test: it accepts nothing the session did not issue. */
  lemma ValidWasActivated(user: Bytes, rate: u32, inputs: seq<Input>, j: Job)
    requires Run(Start(user, rate), inputs).Some?
    requires Valid(Run(Start(user, rate), inputs).value.state, j)
    ensures var t := Run(Start(user, rate), inputs).value;
            && 1 <= j.generation <= |t.history|
            && var k := t.history[j.generation - 1].job;
               k.generation == j.generation && k.wireJob == j.wireJob && k.epoch == j.epoch && k.channel == j.channel
  {
    SoundRun(user, rate, inputs);
    var t := Run(Start(user, rate), inputs).value;
    assert Known(t.history, t.state.epoch, j.wireJob, t.state.jobs[j.wireJob]);
    var g := j.generation - 1;
    assert t.history[g].job.channel == t.state.channel by {
      assert Kept(t.state.jobs, t.state.channel, t.state.epoch, t.history[g].job);
    }
  }

  lemma RunJoin(start: State, a: seq<Input>, i: Input)
    ensures Run(start, a + [i]) == match Run(start, a) case None => None case Some(t) => Next(t, i)
  {
    assert (a + [i])[..|a + [i]| - 1] == a;
  }

  lemma EpochGrows(t: Trace, i: Input)
    requires Next(t, i).Some?
    ensures Next(t, i).value.state.epoch >= t.state.epoch
    ensures t.history <= Next(t, i).value.history
  {
    hide StandardWork, CompactTarget, ShareTarget, DecimalText;
  }

  /** History only grows and epochs never go back. */
  lemma {:induction false} RunGrows(start: State, a: seq<Input>, b: seq<Input>)
    requires Run(start, a + b).Some?
    ensures Run(start, a).Some?
    ensures var (t, u) := (Run(start, a).value, Run(start, a + b).value);
            t.history <= u.history && t.state.epoch <= u.state.epoch
  {
    hide *;
    if b == [] {
      assert a + b == a;
    } else {
      var b', i := b[..|b| - 1], b[|b| - 1];
      assert a + b == (a + b') + [i];
      RunJoin(start, a + b', i);
      RunGrows(start, a, b');
      EpochGrows(Run(start, a + b').value, i);
    }
  }

  /** What was activated stays on record unchanged, and a job that became invalid stays invalid. */
  lemma NeverRevived(user: Bytes, rate: u32, a: seq<Input>, b: seq<Input>, i: nat)
    requires Run(Start(user, rate), a + b).Some?
    requires Run(Start(user, rate), a).Some? && i < |Run(Start(user, rate), a).value.history|
    ensures var (t, u) := (Run(Start(user, rate), a).value, Run(Start(user, rate), a + b).value);
            && i < |u.history| && u.history[i] == t.history[i]
            && (!Valid(t.state, t.history[i].job) ==> !Valid(u.state, u.history[i].job))
  {
    var start := Start(user, rate);
    RunGrows(start, a, b);
    JobValidity(user, rate, a);
    JobValidity(user, rate, a + b);
    SoundRun(user, rate, a);
    var t := Run(start, a).value;
    assert t.history[i].job.epoch <= t.state.epoch by {
      assert Kept(t.state.jobs, t.state.channel, t.state.epoch, t.history[i].job);
    }
  }

  // ---------- What the state says about the messages ----------

  function PrevHashes(inputs: seq<Input>): seq<Message> {
    if inputs == [] then []
    else
      var i := inputs[|inputs| - 1];
      PrevHashes(inputs[..|inputs| - 1]) + if i.Received? && i.message.PrevHash? then [i.message] else []
  }

  function AnnouncedTargets(inputs: seq<Input>): seq<Hash> {
    if inputs == [] then []
    else
      var i := inputs[|inputs| - 1];
      AnnouncedTargets(inputs[..|inputs| - 1])
      + if i.Received? && i.message.Target? then [i.message.target]
        else if i.Received? && i.message.OpenSuccess? then [i.message.target] else []
  }

  predicate Reflects(s: State, ps: seq<Message>, ts: seq<Hash>) {
    && s.epoch == |ps| && (s.havePrevious <==> ps != [])
    && (ps != [] ==> var p := ps[|ps| - 1];
          p.PrevHash? && s.previous == p.hash && CompactTarget(BigEndian(p.nbits)) == Success(s.networkTarget))
    && (ts != [] ==> s.target == ts[|ts| - 1])
  }

  lemma ReflectsNext(t: Trace, i: Input, ps: seq<Message>, ts: seq<Hash>)
    requires Next(t, i).Some? && Reflects(t.state, ps, ts)
    ensures Reflects(Next(t, i).value.state,
                     ps + (if i.Received? && i.message.PrevHash? then [i.message] else []),
                     ts + (if i.Received? && i.message.Target? then [i.message.target]
                           else if i.Received? && i.message.OpenSuccess? then [i.message.target] else []))
  {
    hide StandardWork, CompactTarget, ShareTarget, DecimalText, L.Acknowledge, L.Refuse;
    assert ps + [] == ps && ts + [] == ts;
  }

  /**
    The epoch counts the previous-hash messages of the run; the previous hash and network target come
    from the last of them, the share target from the last target announced.
   */
  lemma {:induction false} StateReflectsMessages(user: Bytes, rate: u32, inputs: seq<Input>)
    requires Run(Start(user, rate), inputs).Some?
    ensures Reflects(Run(Start(user, rate), inputs).value.state, PrevHashes(inputs), AnnouncedTargets(inputs))
  {
    if inputs != [] {
      var front, i := inputs[..|inputs| - 1], inputs[|inputs| - 1];
      hide Next, Reflects;
      StateReflectsMessages(user, rate, front);
      ReflectsNext(Run(Start(user, rate), front).value, i, PrevHashes(front), AnnouncedTargets(front));
    }
  }

  lemma BeOfEasiest()
    ensures Be(Easiest()) == Pow256(28) - 1
  {
    hide Be, Pow256;
    var low: Bytes := seq(28, i => 255 as byte);
    assert Easiest() == Zeros(4) + low;
    BeSplit(Zeros(4), low);
    BeOfZeros(4);
    OnesValue(28);
  }

  /** A job's share target is the channel target, but never more than 2^224 - 1. */
  lemma ShareTargetNumber(target: Hash)
    ensures Be(ShareTarget(target)) == Min(Be(target), Pow256(28) - 1)
  {
    hide Be, Pow256, LexLess, Easiest;
    BeOfEasiest();
    LexIsNumeric(Easiest(), target);
  }

  // ---------- Shares over whole runs ----------

  /** The share events of a run. */
  function ShareEvents(inputs: seq<Input>): seq<L.Event> {
    if inputs == [] then []
    else ShareEvents(inputs[..|inputs| - 1]) + ShareEvent(inputs[|inputs| - 1])
  }

  function ShareEvent(i: Input): seq<L.Event> {
    match i
    case Submitted(_, _, sequence) => [L.Sent(sequence)]
    case Received(Accepted(_, last, count, _)) => [L.Acked(L.Batch(last, count))]
    case Received(Rejected(_, sequence, _)) => [L.Refused(sequence)]
    case _ => []
  }

  function AcceptedIds(rs: seq<Reply>): seq<u32> {
    if rs == [] then []
    else AcceptedIds(rs[..|rs| - 1]) + if rs[|rs| - 1].ShareAccepted? then [rs[|rs| - 1].id] else []
  }

  lemma {:induction false} AcceptedIdsSplit(a: seq<Reply>, b: seq<Reply>)
    ensures AcceptedIds(a + b) == AcceptedIds(a) + AcceptedIds(b)
  {
    if b == [] {
      assert a + b == a;
    } else {
      assert (a + b)[..|a + b| - 1] == a + b[..|b| - 1];
      AcceptedIdsSplit(a, b[..|b| - 1]);
    }
  }

  lemma {:induction false} AcceptedIdsOfReports(ids: seq<u32>)
    ensures AcceptedIds(Reports(ids)) == ids
  {
    if ids != [] {
      assert Reports(ids)[..|ids| - 1] == Reports(ids[..|ids| - 1]);
      AcceptedIdsOfReports(ids[..|ids| - 1]);
    }
  }

  lemma AcceptedIdsOne(r: Reply)
    ensures AcceptedIds([r]) == if r.ShareAccepted? then [r.id] else []
  {
    assert [r][..0] == [];
  }

  lemma RepliesOfAck(ids: seq<u32>)
    ensures AcceptedIds(Reports(ids) + [Prompt]) == ids
  {
    AcceptedIdsSplit(Reports(ids), [Prompt]);
    AcceptedIdsOfReports(ids);
    AcceptedIdsOne(Prompt);
    assert ids + [] == ids;
  }

  lemma RepliesOfRefusal(r: Reply, ids: seq<u32>)
    requires !r.ShareAccepted?
    ensures AcceptedIds([r] + Reports(ids) + [Prompt]) == ids
  {
    RepliesOfAck(ids);
    AcceptedIdsOne(r);
    AcceptedIdsSplit([r], Reports(ids) + [Prompt]);
    assert [r] + Reports(ids) + [Prompt] == [r] + (Reports(ids) + [Prompt]);
  }

  lemma QuietReplies(t: Hash)
    ensures AcceptedIds([]) == [] && AcceptedIds([Prompt]) == [] && AcceptedIds([Retarget(t), Prompt]) == []
  {
    AcceptedIdsOne(Prompt);
    AcceptedIdsOne(Retarget(t));
    AcceptedIdsSplit([Retarget(t)], [Prompt]);
    assert [Retarget(t), Prompt] == [Retarget(t)] + [Prompt];
  }

  ghost predicate LedgerFollows(o: L.Outcome, i: Input, after: L.Outcome) {
    var es := ShareEvent(i);
    if es == [] then after == o else L.Step(o, es[0]) == Some(after)
  }

  /** The ledger moves as the share event says, and exactly the settled identifiers are reported. */
  lemma StepLedger(s: State, i: Input, accepted: seq<u32>)
    requires React(s, i).Some?
    ensures var r := React(s, i).value;
            LedgerFollows(L.Outcome(s.ledger, accepted), i,
                          L.Outcome(r.state.ledger, accepted + AcceptedIds(r.replies)))
  {
    hide StandardWork, CompactTarget, ShareTarget, DecimalText, AcceptedIds, L.Acknowledge, L.Refuse;
    assert accepted + [] == accepted;
    match i {
      case Submitted(_, _, _) => QuietReplies(s.target);
      case Received(Accepted(_, last, count, _)) =>
        RepliesOfAck(L.Acknowledge(s.ledger, L.Batch(last, count)).value.accepted);
      case Received(Rejected(_, sequence, reason)) =>
        RepliesOfRefusal(ShareRefused(sequence, Code(reason), reason), L.Refuse(s.ledger, sequence).value.accepted);
      case Received(Target(_, target)) => QuietReplies(target);
      case _ => QuietReplies(s.target);
    }
  }

  lemma EventExtends(es: seq<L.Event>, o: L.Outcome, i: Input, after: L.Outcome)
    requires L.Run(es) == Some(o) && LedgerFollows(o, i, after)
    ensures L.Run(es + ShareEvent(i)) == Some(after)
  {
    if ShareEvent(i) == [] {
      assert es + [] == es;
    } else {
      L.Extend(es, ShareEvent(i)[0]);
    }
  }

  /** The session's ledger is the run of its share events, and it reports exactly what that run settles. */
  lemma {:induction false} SessionRunsLedger(user: Bytes, rate: u32, inputs: seq<Input>)
    requires Run(Start(user, rate), inputs).Some?
    ensures var t := Run(Start(user, rate), inputs).value;
            L.Run(ShareEvents(inputs)) == Some(L.Outcome(t.state.ledger, AcceptedIds(t.replies)))
  {
    if inputs != [] {
      var front, i := inputs[..|inputs| - 1], inputs[|inputs| - 1];
      SessionRunsLedger(user, rate, front);
      var t := Run(Start(user, rate), front).value;
      var r := React(t.state, i).value;
      StepLedger(t.state, i, AcceptedIds(t.replies));
      AcceptedIdsSplit(t.replies, r.replies);
      EventExtends(ShareEvents(front), L.Outcome(t.state.ledger, AcceptedIds(t.replies)), i,
                   L.Outcome(r.state.ledger, AcceptedIds(t.replies) + AcceptedIds(r.replies)));
    }
  }

  /**
    Share conservation for the session: submitted shares are accepted, refused or outstanding, never two
    of these; acceptances are reported in strictly increasing order over the whole run; and their number
    is the sum of the counts of the settled acknowledgements.
   */
  lemma SharesConserved(user: Bytes, rate: u32, inputs: seq<Input>)
    requires Run(Start(user, rate), inputs).Some?
    ensures var t := Run(Start(user, rate), inputs).value; var es := ShareEvents(inputs);
            L.Balanced(L.SentIds(es), L.RefusedIds(es), L.Acks(es),
                       L.Outcome(t.state.ledger, AcceptedIds(t.replies)))
  {
    hide *;
    SessionRunsLedger(user, rate, inputs);
    L.Conservation(ShareEvents(inputs));
  }

  // ---------- From bytes to state ----------

  lemma {:induction false} FramesFail(s: State, fs: seq<Frame>, n: nat)
    requires n <= |fs| && HandleFrames(s, fs[..n]).None?
    ensures HandleFrames(s, fs).None?
    decreases |fs|
  {
    hide HandleNext;
    if n == |fs| {
      assert fs[..n] == fs;
    } else {
      assert fs[..|fs| - 1][..n] == fs[..n];
      FramesFail(s, fs[..|fs| - 1], n);
    }
  }

  ghost predicate Inputs(ms: seq<Message>) {
    forall i :: 0 <= i < |ms| ==> Codec.Sendable(ms[i])
  }

  ghost function AsFrames(ms: seq<Message>): (fs: seq<Frame>)
    requires Inputs(ms)
    ensures |fs| == |ms|
  {
    seq(|ms|, i requires 0 <= i < |ms| => EncodeMessage(ms[i]))
  }

  function AsInputs(ms: seq<Message>): (inputs: seq<Input>)
    ensures |inputs| == |ms|
  {
    seq(|ms|, i requires 0 <= i < |ms| => Received(ms[i]))
  }

  ghost predicate SameEffect(r: Option<Reaction>, t: Option<Trace>) {
    match (r, t)
    case (None, None) => true
    case (Some(a), Some(b)) => a.state == b.state && a.replies == b.replies && a.frames == b.frames
    case _ => false
  }

  /** A pool's messages arrive as they were sent: its frames drive the state exactly like the messages. */
  lemma {:induction false} FramesDeliverMessages(s: State, ms: seq<Message>)
    requires Inputs(ms)
    ensures SameEffect(HandleFrames(s, AsFrames(ms)), Run(s, AsInputs(ms)))
  {
    if ms != [] {
      var front, m := ms[..|ms| - 1], ms[|ms| - 1];
      assert Codec.Sendable(m) && AsFrames(ms)[|ms| - 1] == EncodeMessage(m);
      assert AsInputs(ms)[|ms| - 1] == Received(m);
      FramesPrefix(ms, |ms| - 1);
      FramesDeliverMessages(s, front);
      DecodeUndoesEncode(m);
    }
  }

  /** The state after a sequence of reads: each read's frames are handled as soon as they are complete. */
  ghost function HandleReads(c: Cipher, d: Dec, s: State, segments: seq<Bytes>): Option<Reaction>
    decreases |segments|
  {
    if segments == [] then Some(Reaction(s, [], []))
    else match ReadSegment(c, d, segments[0])
         case Failure => None
         case Success((e, fs)) =>
           match HandleFrames(s, fs)
           case None => None
           case Some(r) =>
             Joined(r, HandleReads(c, e, r.state, segments[1..]))
  }

  lemma {:induction false} FramesJoin(s: State, a: seq<Frame>, b: seq<Frame>)
    ensures HandleFrames(s, a + b)
            == match HandleFrames(s, a)
               case None => None
               case Some(r) => Joined(r, HandleFrames(r.state, b))
  {
    if b == [] {
      assert a + b == a;
      if HandleFrames(s, a).Some? {
        var r := HandleFrames(s, a).value;
        assert r.replies + [] == r.replies && r.frames + [] == r.frames;
      }
    } else {
      var b', f := b[..|b| - 1], b[|b| - 1];
      FramesJoin(s, a, b');
      assert (a + b)[..|a + b| - 1] == a + b' && (a + b)[|a + b| - 1] == f;
      if HandleFrames(s, a).Some? && HandleFrames(HandleFrames(s, a).value.state, b').Some? {
        var r := HandleFrames(s, a).value;
        NextJoins(r, HandleFrames(r.state, b').value, f);
      }
    }
  }

  ghost function Joined(r: Reaction, next: Option<Reaction>): Option<Reaction> {
    match next
    case None => None
    case Some(q) => Some(Reaction(q.state, r.replies + q.replies, r.frames + q.frames))
  }

  lemma NextJoins(r: Reaction, q: Reaction, f: Frame)
    ensures HandleNext(Joined(r, Some(q)).value, f) == Joined(r, HandleNext(q, f))
  {
    hide Handle, Decode;
    if HandleNext(q, f).Some? {
      var x := Handle(q.state, Decode(f).value).value;
      assert r.replies + q.replies + x.replies == r.replies + (q.replies + x.replies);
      assert r.frames + q.frames + x.frames == r.frames + (q.frames + x.frames);
    }
  }

  lemma ReceiveAllCons(c: Cipher, d: Dec, segments: seq<Bytes>)
    requires segments != [] && ReceiveAll(c, d, segments).Success?
    ensures ReadSegment(c, d, segments[0]).Success?
    ensures var (e, fs) := ReadSegment(c, d, segments[0]).value;
            ReceiveAll(c, e, segments[1..]).Success?
            && ReceiveAll(c, d, segments).value.1 == fs + ReceiveAll(c, e, segments[1..]).value.1
  {
    hide ReadSegment;
  }

  /** Handling reads as they come is handling the received frames in order. */
  lemma {:induction false} ReadsAreFrames(c: Cipher, d: Dec, s: State, segments: seq<Bytes>)
    requires ReceiveAll(c, d, segments).Success?
    ensures HandleReads(c, d, s, segments) == HandleFrames(s, ReceiveAll(c, d, segments).value.1)
    decreases |segments|
  {
    if segments != [] {
      ReceiveAllCons(c, d, segments);
      var (e, fs) := ReadSegment(c, d, segments[0]).value;
      var rest := ReceiveAll(c, e, segments[1..]).value.1;
      FramesJoin(s, fs, rest);
      if HandleFrames(s, fs).Some? {
        ReadsAreFrames(c, e, HandleFrames(s, fs).value.state, segments[1..]);
      }
    } else {
      assert ReceiveAll(c, d, segments).value.1 == [];
    }
  }

  /** When the receiver fails, so does the session, unless it had failed before. */
  lemma {:induction false} ReadsFail(c: Cipher, d: Dec, s: State, segments: seq<Bytes>)
    requires ReceiveAll(c, d, segments).Failure?
    ensures HandleReads(c, d, s, segments).None?
    decreases |segments|
  {
    hide ReadSegment, HandleFrames;
    var r := ReadSegment(c, d, segments[0]);
    if r.Success? && HandleFrames(s, r.value.1).Some? {
      ReadsFail(c, r.value.0, HandleFrames(s, r.value.1).value.state, segments[1..]);
    }
  }

  /**
    End to end: whatever prefix of an honest pool's byte stream has arrived, and however the reads cut
    it, the session has reacted exactly to the messages whose frames are complete, provided every read
    respects the limits; otherwise it has failed.
   */
  lemma FragmentationIsInvisible(c: Cipher, s: State, ms: seq<Message>, m: nat, segments: seq<Bytes>) returns (k: nat)
    requires c.Ideal() && Inputs(ms)
    requires m <= |EncodeAll(c, 0, AsFrames(ms))| && Concat(segments) == EncodeAll(c, 0, AsFrames(ms))[..m]
    ensures k == CompletedBy(AsFrames(ms), m) <= |ms|
    ensures var r := HandleReads(c, Framing.Start(0, []), s, segments);
            if ReadsFit(AsFrames(ms), 0, segments) then SameEffect(r, Run(s, AsInputs(ms[..k]))) else r.None?
  {
    hide *;
    var fs := AsFrames(ms);
    FramesAreSendable(ms);
    Fragmentation(c, fs, m, segments);
    k := CompletedBy(fs, m);
    FramesPrefix(ms, k);
    if ReadsFit(fs, 0, segments) {
      ReadsAreFrames(c, Framing.Start(0, []), s, segments);
      FramesDeliverMessages(s, ms[..k]);
    } else {
      ReadsFail(c, Framing.Start(0, []), s, segments);
    }
  }

  /** The miner's own reads, of at most 8192 bytes, always respect the limits. */
  lemma SmallReadsAreInvisible(c: Cipher, s: State, ms: seq<Message>, m: nat, segments: seq<Bytes>)
    requires c.Ideal() && Inputs(ms)
    requires m <= |EncodeAll(c, 0, AsFrames(ms))| && Concat(segments) == EncodeAll(c, 0, AsFrames(ms))[..m]
    requires forall i :: 0 <= i < |segments| ==> |segments[i]| <= 8192
    ensures SameEffect(HandleReads(c, Framing.Start(0, []), s, segments),
                       Run(s, AsInputs(ms[..CompletedBy(AsFrames(ms), m)])))
  {
    hide *;
    FramesAreSendable(ms);
    HonestDelivery(c, AsFrames(ms), m, segments);
    var k := FragmentationIsInvisible(c, s, ms, m, segments);
  }

  lemma FramesPrefix(ms: seq<Message>, k: nat)
    requires Inputs(ms) && k <= |ms|
    ensures Inputs(ms[..k]) && AsFrames(ms)[..k] == AsFrames(ms[..k]) && AsInputs(ms)[..k] == AsInputs(ms[..k])
  {
    hide EncodeMessage, Codec.Sendable;
  }

  lemma FramesAreSendable(ms: seq<Message>)
    requires Inputs(ms)
    ensures Framing.Sendable(AsFrames(ms))
  {
    forall i | 0 <= i < |ms|
      ensures |EncodeMessage(ms[i]).payload| <= 1_048_576
    {
      assert Codec.Sendable(ms[i]);
    }
  }
}
