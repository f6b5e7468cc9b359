/** A run of a connection seen from the messages it was sent: its session, its submissions, what its workers mine. */
module Histories {
  import opened Base
  import opened Coin
  import opened Jobs
  import opened Miner
  import opened Scan
  import opened Targets
  import Codec
  import Difficulty
  import L = ShareLedger
  import N = NoncePartition
  import Q = Scheduler
  import S1 = Stratum
  import V = Sv2

  // ---------- What a session was fed ----------

  ghost function HeardAt(m: State, step: Step): seq<S1.Message> {
    if step.HandleOne? && m.phase.Items? && m.phase.items != [] then [m.phase.items[0].message] else []
  }

  /** The SV1 messages handled in a run. */
  ghost function Heard(start: State, steps: seq<Step>): seq<S1.Message> {
    if steps == [] then []
    else
      Heard(start, steps[..|steps| - 1])
      + match Run(start, steps[..|steps| - 1]) case None => [] case Some(m) => HeardAt(m, steps[|steps| - 1])
  }

  /** What a step feeds an SV2 session: the messages of a read, or a submission when one more share was sent. */
  ghost function FedAt(m: State, step: Step): seq<V.Input> {
    match step
    case ReadV2(ms) => V.AsInputs(ms)
    case SubmitOne =>
      if m.sched.queue != [] && Next(m, step).Some? && |Next(m, step).value.sched.sent| > |m.sched.sent|
      then [V.Submitted(m.sched.queue[0].job, m.sched.queue[0].nonce, if m.nextId <= 0xffff_ffff then m.nextId else 0)]
      else []
    case _ => []
  }

  ghost function Fed(start: State, steps: seq<Step>): seq<V.Input> {
    if steps == [] then []
    else
      Fed(start, steps[..|steps| - 1])
      + match Run(start, steps[..|steps| - 1]) case None => [] case Some(m) => FedAt(m, steps[|steps| - 1])
  }

  /** The session is what its own run on those messages makes it. */
  ghost predicate Follows(l: Link, user: Bytes, rate: u32, heard: seq<S1.Message>, fed: seq<V.Input>) {
    match l
    case V1(t) => S1.Run(heard) == Some(t)
    case V2(t) => V.Run(V.Start(user, rate), fed) == Some(t)
  }

  lemma {:induction false} ReadIsRun(start: V.State, a: seq<V.Input>, t: V.Trace, ms: seq<Codec.Message>)
    requires V.Run(start, a) == Some(t) && ReadMessages(t, ms).Some?
    ensures V.Run(start, a + V.AsInputs(ms)) == ReadMessages(t, ms)
    decreases |ms|
  {
    hide V.Next, V.Run;
    if ms == [] {
      assert a + V.AsInputs(ms) == a;
    } else {
      var u := V.Next(t, V.Received(ms[0])).value;
      V.RunJoin(start, a, V.Received(ms[0]));
      ReadIsRun(start, a + [V.Received(ms[0])], u, ms[1..]);
      assert a + [V.Received(ms[0])] + V.AsInputs(ms[1..]) == a + V.AsInputs(ms);
    }
  }

  /** Steps that feed the session nothing leave it as it is. */
  lemma NothingFed(m: State, step: Step)
    requires Next(m, step).Some? && !step.ReadV2? && !step.SubmitOne? && !step.HandleOne?
    ensures Next(m, step).value.link == m.link && HeardAt(m, step) == [] && FedAt(m, step) == []
  {
    hide Q.Reserved, Q.Finished, Q.Failed, Q.Scanned;
  }

  lemma HandledFollows(m: State, user: Bytes, rate: u32, heard: seq<S1.Message>, fed: seq<V.Input>)
    requires Next(m, HandleOne).Some? && Follows(m.link, user, rate, heard, fed)
    ensures Follows(Next(m, HandleOne).value.link, user, rate, heard + HeardAt(m, HandleOne), fed)
    ensures FedAt(m, HandleOne) == []
  {
    hide S1.Next, S1.Run, V.Run, Count;
    if m.link.V1? {
      S1.RunJoin(heard, m.phase.items[0].message);
    }
  }

  lemma ReadFollows(m: State, ms: seq<Codec.Message>, user: Bytes, rate: u32, heard: seq<S1.Message>,
                    fed: seq<V.Input>)
    requires Next(m, ReadV2(ms)).Some? && Follows(m.link, user, rate, heard, fed)
    ensures Follows(Next(m, ReadV2(ms)).value.link, user, rate, heard, fed + FedAt(m, ReadV2(ms)))
  {
    hide ReadMessages, V.Run, S1.Run;
    ReadIsRun(V.Start(user, rate), fed, m.link.s2, ms);
  }

  lemma SubmitFollows(m: State, user: Bytes, rate: u32, heard: seq<S1.Message>, fed: seq<V.Input>)
    requires Next(m, SubmitOne).Some? && Follows(m.link, user, rate, heard, fed)
    ensures Follows(Next(m, SubmitOne).value.link, user, rate, heard, fed + FedAt(m, SubmitOne))
  {
    hide Solved, ValidJob, V.Next, V.Run, S1.Run;
    var f := m.sched.queue[0];
    assert fed + [] == fed;
    if m.link.V2? && m.nextId <= 0xffff_ffff {
      V.RunJoin(V.Start(user, rate), fed, V.Submitted(f.job, f.nonce, m.nextId));
    }
  }

  lemma StepFollows(m: State, step: Step, user: Bytes, rate: u32, heard: seq<S1.Message>, fed: seq<V.Input>)
    requires Next(m, step).Some? && Follows(m.link, user, rate, heard, fed)
    ensures Follows(Next(m, step).value.link, user, rate, heard + HeardAt(m, step), fed + FedAt(m, step))
  {
    hide Follows, Next, HeardAt, FedAt;
    assert heard + [] == heard && fed + [] == fed;
    match step {
      case ReadV2(ms) =>
        ReadFollows(m, ms, user, rate, heard, fed);
        NothingHeard(m, step);
      case HandleOne => HandledFollows(m, user, rate, heard, fed);
      case SubmitOne =>
        SubmitFollows(m, user, rate, heard, fed);
        NothingHeard(m, step);
      case _ => NothingFed(m, step);
    }
  }

  lemma NothingHeard(m: State, step: Step)
    requires !step.HandleOne?
    ensures HeardAt(m, step) == []
  {
  }

  /** The session of a connection is the run of its protocol on what the connection was fed, in that order. */
  lemma {:induction false} SessionOfRun(sv2: bool, user: Bytes, rate: u32, batches: seq<u32>, steps: seq<Step>)
    requires Run(Start(sv2, user, rate, batches), steps).Some?
    ensures var start := Start(sv2, user, rate, batches); var m := Run(start, steps).value;
            m.link.V2? == sv2 && Follows(m.link, user, rate, Heard(start, steps), Fed(start, steps))
  {
    if steps != [] {
      var start := Start(sv2, user, rate, batches);
      hide Next, Follows, HeardAt, FedAt;
      var a, step := steps[..|steps| - 1], steps[|steps| - 1];
      SessionOfRun(sv2, user, rate, batches, a);
      var m := Run(start, a).value;
      StepFollows(m, step, user, rate, Heard(start, a), Fed(start, a));
      SameProtocol(m, step);
    }
  }

  lemma SameProtocol(m: State, step: Step)
    requires Next(m, step).Some?
    ensures Next(m, step).value.link.V2? == m.link.V2?
  {
    hide Q.Scanned, S1.Next, Solved, V.Next, ReadMessages, ValidJob, Q.FindsOf, Q.Reserved, Q.Finished;
  }

  // ---------- Submission ----------

  /**
    The pool still wants a find: over SV1 it has granted the authorization, and the find's notify is the
    last with its identifier and no clean one followed; over SV2 no previous hash came after its activation.
   */
  ghost predicate Wanted(l: Link, heard: seq<S1.Message>, fed: seq<V.Input>, f: Q.Find) {
    var g := f.job.generation;
    match l
    case V1(t) => 1 <= g <= |t.history| && S1.Granted(heard) && S1.Latest(t.history, g - 1)
    case V2(t) => 1 <= g <= |t.history| && t.history[g - 1].job.epoch == |V.PrevHashes(fed)|
  }

  lemma WantedV1(heard: seq<S1.Message>, t: S1.Trace, f: Q.Find)
    requires S1.Run(heard) == Some(t) && Genuine(V1(t), f)
    ensures S1.Valid(t.state, f.job) <==> Wanted(V1(t), heard, [], f)
  {
    S1.ValidityIsHistory(heard, f.job.generation - 1);
    hide S1.Run, S1.Valid, S1.Granted, S1.Latest;
  }

  lemma WantedV2(user: Bytes, rate: u32, fed: seq<V.Input>, t: V.Trace, f: Q.Find)
    requires V.Run(V.Start(user, rate), fed) == Some(t) && Genuine(V2(t), f)
    requires f.job.epoch == t.history[f.job.generation - 1].job.epoch
    ensures V.Valid(t.state, f.job) <==> Wanted(V2(t), [], fed, f)
  {
    var j := t.history[f.job.generation - 1].job;
    V.JobValidity(user, rate, fed);
    V.SoundRun(user, rate, fed);
    V.StateReflectsMessages(user, rate, fed);
    hide V.Run, V.PrevHashes, V.Faithful, V.Kept, V.Known;
    assert j.generation == f.job.generation;
    assert V.Valid(t.state, f.job) <==> V.Valid(t.state, j);
    assert V.Reflects(t.state, V.PrevHashes(fed), V.AnnouncedTargets(fed));
  }

  /** A find keeps the epoch of the job it was found for. */
  lemma FindEpoch(issued: map<nat, Job>, f: Q.Find)
    requires Q.FindOk(true, issued, f)
    ensures f.job.generation in issued && f.job.epoch == issued[f.job.generation].epoch
  {
    hide Solves, N.TimeAt;
  }

  lemma InHistory(m: State, g: nat)
    requires IssuedFrom(m.link, m.issued) && g in m.issued
    ensures 1 <= g <= HistoryLength(m.link) && m.issued[g] == HistoryJob(m.link, g - 1)
  {
    assert FromHistory(m.link, g, m.issued[g]);
  }

  /** For a queued find the loop's validity test says whether the pool still wants it. */
  lemma ValidIsWanted(m: State, user: Bytes, rate: u32, heard: seq<S1.Message>, fed: seq<V.Input>)
    requires Inv(m) && m.sched.queue != [] && Follows(m.link, user, rate, heard, fed)
    ensures ValidJob(m.link, m.sched.queue[0].job) <==> Wanted(m.link, heard, fed, m.sched.queue[0])
  {
    hide Books, InStep, LinkSound, Solved, Q.FindOk, Q.Inv, FromHistory, Q.JobAt, IssuedFrom, Genuine, S1.Run, S1.Valid, V.Run, V.Valid,
         S1.Granted, S1.Latest, V.PrevHashes;
    QueuedFind(m);
    var f := m.sched.queue[0];
    FindIsGenuine(m.link, m.issued, f);
    match m.link {
      case V1(t) => WantedV1(heard, t, f);
      case V2(t) =>
        FindEpoch(m.issued, f);
        InHistory(m, f.job.generation);
        WantedV2(user, rate, fed, t, f);
    }
  }

  /** What a step of the submission loop does to the queue and to the books. */
  ghost predicate Took(m: State, n: State, due: bool)
    requires m.sched.queue != []
  {
    && n.sched.queue == m.sched.queue[1..] && n.sched.shared == m.sched.shared && n.sched.workers == m.sched.workers
    && n.phase == m.phase && n.draining == m.draining && n.activated == m.activated && n.tally == m.tally
    && (if due then
         && n.sched.sent == m.sched.sent + [m.sched.queue[0]]
         && n.pending == m.pending + {m.nextId} && n.nextId == m.nextId + 1
       else
         n.sched.sent == m.sched.sent && n.pending == m.pending && n.nextId == m.nextId && n.link == m.link)
  }

  lemma TakesOne(m: State)
    requires m.phase.Submitting? && m.sched.queue != [] && SubmitFind(m).Some?
    ensures Took(m, SubmitFind(m).value, !m.draining && ValidJob(m.link, m.sched.queue[0].job))
    ensures !m.draining && ValidJob(m.link, m.sched.queue[0].job) ==>
              |m.pending| < L.MAX_OUTSTANDING && (m.link.V2? ==> m.nextId <= 0xffff_ffff)
  {
    hide Solved, ValidJob, V.Next;
  }

  /**
    In every run, a find taken from the queue is submitted exactly when the connection is not draining and
    the pool still wants it; otherwise it is dropped. Either way only that find leaves the queue. The
    connection ends exactly when a share is due but 4096 are outstanding or an SV2 identifier is not left.
   */
  lemma SubmitOutcome(sv2: bool, user: Bytes, rate: u32, batches: seq<u32>, steps: seq<Step>, m: State)
    requires Reaches(sv2, user, rate, batches, steps, m) && m.phase.Submitting? && m.sched.queue != []
    ensures var start := Start(sv2, user, rate, batches); var n := Next(m, SubmitOne);
            var due := !m.draining && Wanted(m.link, Heard(start, steps), Fed(start, steps), m.sched.queue[0]);
            && (n.None? <==> due && (|m.pending| >= 4096 || (sv2 && m.nextId >= 0x1_0000_0000)))
            && (n.Some? ==> Took(m, n.value, due))
  {
    hide Next, Run, Inv, Took, Follows, Wanted, Solved;
    var start := Start(sv2, user, rate, batches);
    RunKeeps(sv2, user, rate, batches, steps);
    SessionOfRun(sv2, user, rate, batches, steps);
    ValidIsWanted(m, user, rate, Heard(start, steps), Fed(start, steps));
    SubmitIsStep(m);
    var valid := ValidJob(m.link, m.sched.queue[0].job);
    if !m.draining && valid && |m.pending| < L.MAX_OUTSTANDING && (sv2 ==> m.nextId <= 0xffff_ffff) {
      SubmitNeverRefused(sv2, user, rate, batches, steps, m);
    }
    hide ValidJob, SubmitFind;
    if Next(m, SubmitOne).Some? {
      TakesOne(m);
    }
  }

  lemma SubmitIsStep(m: State)
    requires m.phase.Submitting? && m.sched.queue != []
    ensures Next(m, SubmitOne) == SubmitFind(m)
    ensures m.draining || !ValidJob(m.link, m.sched.queue[0].job) ==> SubmitFind(m).Some?
  {
    hide ValidJob, Solved, V.Next;
  }

  // ---------- What the workers mine ----------

  /** Outside draining the workers have the session's newest job, as soon as its replies are answered. */
  ghost predicate UpToDate(m: State) {
    !m.draining ==>
      match m.link
      case V1(t) => m.sched.shared.work == if t.state.authorized then t.state.current else None
      case V2(t) => Unhandled(m.phase) == [] ==> m.sched.shared.work == t.state.current
  }

  lemma MessagePrompts(s: V.State, m: Codec.Message)
    requires V.Handle(s, m).Some?
    ensures V.Handle(s, m).value.replies != []
  {
    hide L.Acknowledge, L.Refuse, V.Activate, V.Padded, CompactTarget, IsHidden;
  }

  lemma {:induction false} ReadPrompts(t: V.Trace, ms: seq<Codec.Message>)
    requires ReadMessages(t, ms).Some?
    ensures t.replies <= ReadMessages(t, ms).value.replies
    ensures ms != [] ==> |ReadMessages(t, ms).value.replies| > |t.replies|
    decreases |ms|
  {
    if ms != [] {
      hide V.Next, V.Handle;
      NextReacts(t, ms[0]);
      MessagePrompts(t.state, ms[0]);
      ReadPrompts(V.Next(t, V.Received(ms[0])).value, ms[1..]);
    }
  }

  lemma ReadUpToDate(m: State, ms: seq<Codec.Message>)
    requires UpToDate(m) && Next(m, ReadV2(ms)).Some?
    ensures UpToDate(Next(m, ReadV2(ms)).value)
  {
    hide V.Next;
    ReadPrompts(m.link.s2, ms);
    if ms != [] {
      hide ReadMessages;
    }
  }

  lemma ReplyUpToDate(m: State)
    requires Inv(m) && UpToDate(m) && m.phase.Replies? && m.phase.rs != [] && m.link.V2?
    ensures UpToDate(HandleReply(m).value)
  {
    hide Count, LinkSound, Published;
    if Current(m.link).None? {
      NothingPublished(m);
    }
  }

  /** What an SV1 message does to the newest job and to the authorization. */
  lemma MessageMoves(t: S1.Trace, m: S1.Message)
    requires S1.Next(t, m).Some?
    ensures var (s, u) := (t.state, S1.Next(t, m).value.state);
            && (u.authorized <==> s.authorized || m == S1.AuthorizeReply(true))
            && (if m.Notify? then u.current.Some? else u.current == s.current)
  {
    S1.AuthorizedNext(t.state, m);
    hide Difficulty.DifficultyTarget, SiaWork, S1.NetworkTarget, S1.HasSize, S1.LeafOf;
  }

  lemma ItemUpToDate(m: State)
    requires Inv(m) && UpToDate(m) && m.phase.Items? && m.phase.items != [] && m.link.V1? && HandleItem(m).Some?
    ensures UpToDate(HandleItem(m).value)
  {
    hide Count, LinkSound, S1.Next;
    MessageMoves(m.link.s1, m.phase.items[0].message);
  }

  lemma SubmitUpToDate(m: State)
    requires UpToDate(m) && m.phase.Submitting? && m.sched.queue != [] && SubmitFind(m).Some?
    ensures UpToDate(SubmitFind(m).value)
  {
    hide Solved, ValidJob, V.Valid, V.Activated;
  }

  lemma OthersUpToDate(m: State, step: Step)
    requires UpToDate(m) && Next(m, step).Some? && !step.SubmitOne? && !step.ReadV2? && !step.HandleOne?
    ensures UpToDate(Next(m, step).value)
  {
    hide Q.Scanned, Q.Reserved, Q.Finished, Q.Failed, Q.Idle, Q.Busy;
    if step.Reserve? || step.Finish? || step.Crash? {
      WorkerFrame(m.sched, step.worker, if step.Finish? then step.nonces else []);
    }
  }

  lemma HandledUpToDate(m: State)
    requires Inv(m) && UpToDate(m) && Next(m, HandleOne).Some?
    ensures UpToDate(Next(m, HandleOne).value)
  {
    hide Inv, UpToDate, HandleReply, HandleItem;
    if m.link.V2? {
      ReplyUpToDate(m);
    } else {
      ItemUpToDate(m);
    }
  }

  lemma StepUpToDate(m: State, step: Step)
    requires Inv(m) && UpToDate(m) && Next(m, step).Some?
    ensures UpToDate(Next(m, step).value)
  {
    hide Inv, UpToDate, Next, SubmitFind;
    match step {
      case ReadV2(ms) => ReadUpToDate(m, ms);
      case HandleOne => HandledUpToDate(m);
      case SubmitOne =>
        SubmitTakes(m);
        SubmitUpToDate(m);
      case _ => OthersUpToDate(m, step);
    }
  }

  lemma SubmitTakes(m: State)
    requires Next(m, SubmitOne).Some?
    ensures m.phase.Submitting? && m.sched.queue != [] && Next(m, SubmitOne) == SubmitFind(m)
  {
    hide SubmitFind;
  }

  lemma {:induction false} RunUpToDate(sv2: bool, user: Bytes, rate: u32, batches: seq<u32>, steps: seq<Step>)
    requires |batches| <= Q.MAX_WORKERS && Run(Start(sv2, user, rate, batches), steps).Some?
    ensures UpToDate(Run(Start(sv2, user, rate, batches), steps).value)
  {
    if steps != [] {
      hide UpToDate, Inv, Next;
      RunUpToDate(sv2, user, rate, batches, steps[..|steps| - 1]);
      RunKeeps(sv2, user, rate, batches, steps[..|steps| - 1]);
      StepUpToDate(Run(Start(sv2, user, rate, batches), steps[..|steps| - 1]).value, steps[|steps| - 1]);
    }
  }

  /** The job a connection should be mining: the newest one, once an SV1 pool has granted the authorization. */
  ghost function Due(l: Link, heard: seq<S1.Message>): Option<Job> {
    match l
    case V1(t) => if S1.Granted(heard) && t.history != [] then Some(t.history[|t.history| - 1].job) else None
    case V2(t) => if t.history != [] then Some(t.history[|t.history| - 1].job) else None
  }

  lemma NewestIsCurrent(sv2: bool, user: Bytes, rate: u32, batches: seq<u32>, steps: seq<Step>, m: State)
    requires Reaches(sv2, user, rate, batches, steps, m)
    ensures var heard := Heard(Start(sv2, user, rate, batches), steps);
            match m.link
            case V1(t) => Due(m.link, heard) == if t.state.authorized then t.state.current else None
            case V2(t) => Due(m.link, heard) == t.state.current
  {
    var start := Start(sv2, user, rate, batches);
    SessionOfRun(sv2, user, rate, batches, steps);
    match m.link {
      case V1(t) =>
        S1.AuthorizedIsGranted(Heard(start, steps));
        S1.SoundRun(Heard(start, steps));
        hide Run, S1.Run, S1.Granted, S1.Tracked, Heard;
      case V2(t) =>
        V.JobValidity(user, rate, Fed(start, steps));
        hide Run, V.Run, V.Valid, Fed;
    }
  }

  /**
    In every run, whenever the connection is not draining and the replies of the last read are answered, the
    workers mine the newest job: the one of the last notify, once authorized, or of the last activation.
   */
  lemma WorkersHaveNewest(sv2: bool, user: Bytes, rate: u32, batches: seq<u32>, steps: seq<Step>, m: State)
    requires Reaches(sv2, user, rate, batches, steps, m) && !m.draining && Unhandled(m.phase) == []
    ensures m.sched.shared.work == Due(m.link, Heard(Start(sv2, user, rate, batches), steps))
  {
    RunUpToDate(sv2, user, rate, batches, steps);
    NewestIsCurrent(sv2, user, rate, batches, steps, m);
    hide Run, Due, Heard;
  }

  // ---------- Draining ----------

  predicate Expired(steps: seq<Step>) {
    exists i :: 0 <= i < |steps| && steps[i].Expire?
  }

  lemma DrainsByExpiry(m: State, step: Step)
    requires Next(m, step).Some?
    ensures Next(m, step).value.draining == (m.draining || step.Expire?)
  {
    hide Next, SubmitFind;
    if step.HandleOne? {
      HandlingDrains(m);
    } else if step.SubmitOne? {
      SubmitTakes(m);
      TakesOne(m);
    } else {
      OthersDrain(m, step);
    }
  }

  lemma OthersDrain(m: State, step: Step)
    requires Next(m, step).Some? && !step.HandleOne? && !step.SubmitOne?
    ensures Next(m, step).value.draining == (m.draining || step.Expire?)
  {
    hide Q.Scanned, Q.Reserved, Q.Finished, Q.Failed, Q.Idle, Q.Busy, ReadMessages;
  }

  lemma HandlingDrains(m: State)
    requires Next(m, HandleOne).Some?
    ensures Next(m, HandleOne).value.draining == m.draining
  {
    hide S1.Next;
  }

  lemma ExpiredStep(a: seq<Step>, step: Step)
    ensures Expired(a + [step]) == (Expired(a) || step.Expire?)
  {
    var b := a + [step];
    if Expired(a) {
      var i :| 0 <= i < |a| && a[i].Expire?;
      assert b[i].Expire?;
    } else if step.Expire? {
      assert b[|a|].Expire?;
    }
  }

  /** A connection is draining exactly when its time has run out, which is never taken back. */
  lemma {:induction false} DrainsOnceExpired(start: State, steps: seq<Step>)
    requires !start.draining && Run(start, steps).Some?
    ensures Run(start, steps).value.draining <==> Expired(steps)
  {
    if steps != [] {
      hide Next, Expired;
      var a, step := steps[..|steps| - 1], steps[|steps| - 1];
      assert steps == a + [step];
      DrainsOnceExpired(start, a);
      DrainsByExpiry(Run(start, a).value, step);
      ExpiredStep(a, step);
    }
  }

  // ---------- Failures ----------

  predicate Stopped(s: Q.State) {
    exists w :: 0 <= w < |s.workers| && s.workers[w].stopped
  }

  predicate Watched(s: Q.State) {
    s.shared.failure <==> Stopped(s)
  }

  /** Worker w is changed, and what becomes of it is recorded. */
  predicate Watches(s: Q.State, u: Q.State, w: nat) {
    && w < |s.workers| == |u.workers| && u.workers == s.workers[w := u.workers[w]]
    && (if u.workers[w].stopped then u.shared.failure
        else u.shared.failure == s.shared.failure && !s.workers[w].stopped)
  }

  lemma WorkerWatches(s: Q.State, w: nat, nonces: seq<u64>)
    ensures Q.Idle(s, w) && s.shared.work.Some? ==> Watches(s, Q.Reserved(s, w), w)
    ensures Q.Busy(s, w) ==> Watches(s, Q.Finished(s, w, nonces), w)
    ensures w < |s.workers| ==> Watches(s, Q.Failed(s, w), w)
  {
    hide Q.FindsOf, Q.Timed;
  }

  lemma StaysWatched(s: Q.State, u: Q.State, w: nat)
    requires Watched(s) && Watches(s, u, w)
    ensures Watched(u)
  {
    if u.workers[w].stopped {
      assert Stopped(u);
    } else if Stopped(s) {
      var v :| 0 <= v < |s.workers| && s.workers[v].stopped;
      assert u.workers[v].stopped;
    }
  }

  lemma AnnouncingHiresNoOne(m: State, brought: bool)
    ensures var u := Announce(m, brought).sched;
            u.workers == m.sched.workers && u.shared.failure == m.sched.shared.failure
  {
  }

  lemma HandlingHiresNoOne(m: State)
    requires Next(m, HandleOne).Some?
    ensures var u := Next(m, HandleOne).value.sched;
            u.workers == m.sched.workers && u.shared.failure == m.sched.shared.failure
  {
    hide Announce, Count, S1.Next;
    if m.link.V2? {
      AnnouncingHiresNoOne(Account(m, VerdictOf(m.phase.rs[0])), Current(m.link).Some?);
    } else {
      var item := m.phase.items[0];
      var b := m.(link := V1(S1.Next(m.link.s1, item.message).value));
      AnnouncingHiresNoOne(Account(b, item.verdict), item.message.Notify?);
    }
  }

  lemma OthersWatch(m: State, step: Step)
    requires Next(m, step).Some? && !step.Reserve? && !step.Finish? && !step.Crash?
    ensures var u := Next(m, step).value.sched;
            u.workers == m.sched.workers && u.shared.failure == m.sched.shared.failure
  {
    hide Next, SubmitFind;
    if step.HandleOne? {
      HandlingHiresNoOne(m);
    } else if step.SubmitOne? {
      SubmitTakes(m);
      TakesOne(m);
    } else {
      RestWatch(m, step);
    }
  }

  lemma RestWatch(m: State, step: Step)
    requires Next(m, step).Some? && !step.Reserve? && !step.Finish? && !step.Crash? && !step.HandleOne? && !step.SubmitOne?
    ensures var u := Next(m, step).value.sched;
            u.workers == m.sched.workers && u.shared.failure == m.sched.shared.failure
  {
    hide Q.Scanned, Q.Reserved, Q.Finished, Q.Failed, Q.Idle, Q.Busy, ReadMessages;
  }

  lemma StepWatched(m: State, step: Step)
    requires Watched(m.sched) && Next(m, step).Some?
    ensures Watched(Next(m, step).value.sched)
  {
    hide Watched, Watches, Q.Scanned, Q.Reserved, Q.Finished, Q.Failed, ReadMessages, SubmitFind;
    if step.Reserve? || step.Finish? || step.Crash? {
      WorkerWatches(m.sched, step.worker, if step.Finish? then step.nonces else []);
      var u := Next(m, step).value.sched;
      if step.Reserve? && m.sched.shared.work.None? {
        NothingToReserve(m.sched, step.worker);
      } else {
        StaysWatched(m.sched, u, step.worker);
      }
    } else {
      OthersWatch(m, step);
      SameWatch(m.sched, Next(m, step).value.sched);
    }
  }

  lemma NothingToReserve(s: Q.State, w: nat)
    requires Q.Idle(s, w) && s.shared.work.None?
    ensures Q.Reserved(s, w) == s
  {
  }

  lemma SameWatch(s: Q.State, u: Q.State)
    requires Watched(s) && u.workers == s.workers && u.shared.failure == s.shared.failure
    ensures Watched(u)
  {
  }

  /** A failure is recorded exactly when some worker has stopped. */
  lemma {:induction false} FailureIsAStop(sv2: bool, user: Bytes, rate: u32, batches: seq<u32>, steps: seq<Step>)
    requires Run(Start(sv2, user, rate, batches), steps).Some?
    ensures Watched(Run(Start(sv2, user, rate, batches), steps).value.sched)
  {
    if steps == [] {
      hide Next;
    } else {
      hide Next, Watched, Start;
      FailureIsAStop(sv2, user, rate, batches, steps[..|steps| - 1]);
      StepWatched(Run(Start(sv2, user, rate, batches), steps[..|steps| - 1]).value, steps[|steps| - 1]);
    }
  }
}
