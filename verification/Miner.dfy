/**
  One connection of the miner: the connection thread's loop over a session, with the workers of the
  scheduler running in between. Every step is atomic: a worker step is one critical section or local
  computation, a main-loop step touches only what the mutex or the connection thread owns.
 */
module Miner {
  import opened Base
  import opened Blake2b
  import opened Coin
  import opened Jobs
  import opened Scan
  import L = ShareLedger
  import Codec
  import Q = Scheduler
  import S1 = Stratum
  import V = Sv2

  datatype Link = V1(s1: S1.Trace) | V2(s2: V.Trace)

  /** The pool's answer to one submission. */
  datatype Verdict = Accept(id: nat) | Refuse(id: nat, code: int)

  /** One SV1 message: what the session makes of it, and the answer it carries, if any. */
  datatype Item = Item(message: S1.Message, verdict: Option<Verdict>)

  datatype Phase = Reading | Replies(rs: seq<V.Reply>) | Items(items: seq<Item>) | Submitting

  datatype Tally = Tally(accepted: nat, rejected: nat, stale: nat)

  datatype State = State(link: Link, sched: Q.State, issued: map<nat, Job>, pending: set<nat>, nextId: nat,
                         activated: bool, draining: bool, tally: Tally, phase: Phase)

  datatype Step =
    | Reserve(worker: nat) | Finish(worker: nat, nonces: seq<u64>) | Crash(worker: nat)
    | ReadV2(messages: seq<Codec.Message>) | ReadV1(items: seq<Item>) | HandleOne
    | TakeFinds | SubmitOne | Again | Expire

  const FIRST_ID := 10
  const STALE := 21

  function Current(l: Link): Option<Job> {
    match l case V1(t) => t.state.current case V2(t) => t.state.current
  }

  predicate Authorized(l: Link) {
    match l case V1(t) => t.state.authorized case V2(t) => t.state.current.Some?
  }

  predicate ValidJob(l: Link, j: Job) {
    match l case V1(t) => S1.Valid(t.state, j) case V2(t) => V.Valid(t.state, j)
  }

  function Start(sv2: bool, user: Bytes, rate: u32, batches: seq<u32>): State {
    State(if sv2 then V2(V.Trace(V.Start(user, rate), [], [], [])) else V1(S1.Trace(S1.Start(), [])),
          Q.Start(batches), map[], {}, FIRST_ID, false, false, Tally(0, 0, 0), Reading)
  }

  // ---------- The main loop ----------

  function Count(t: Tally, v: Verdict): Tally {
    match v
    case Accept(_) => t.(accepted := t.accepted + 1)
    case Refuse(_, code) => if code == STALE then t.(stale := t.stale + 1) else t.(rejected := t.rejected + 1)
  }

  /** Close the share an answer is about; answers about nothing outstanding are ignored. */
  function Account(m: State, v: Option<Verdict>): State {
    if v.Some? && v.value.id in m.pending
    then m.(pending := m.pending - {v.value.id}, tally := Count(m.tally, v.value))
    else m
  }

  /** Publish the current job to the workers; brought tells whether the message brought one. */
  function Announce(m: State, brought: bool): State {
    if !m.draining && Authorized(m.link) && (brought || !m.activated) then
      match Current(m.link)
      case None => m.(sched := m.sched.(shared := m.sched.shared.(work := None)), activated := false)
      case Some(j) =>
        m.(sched := Q.Published(m.sched, j), issued := m.issued[j.generation := j], activated := true)
    else m
  }

  function VerdictOf(r: V.Reply): Option<Verdict> {
    match r
    case ShareAccepted(id) => Some(Accept(id))
    case ShareRefused(id, code, _) => Some(Refuse(id, code))
    case _ => None
  }

  ghost function HandleReply(m: State): Option<State>
    requires m.phase.Replies? && m.phase.rs != [] && m.link.V2?
  {
    var r := m.phase.rs[0];
    Some(Announce(Account(m, VerdictOf(r)), Current(m.link).Some?).(phase := Replies(m.phase.rs[1..])))
  }

  function HandleItem(m: State): Option<State>
    requires m.phase.Items? && m.phase.items != [] && m.link.V1?
  {
    var item := m.phase.items[0];
    match S1.Next(m.link.s1, item.message)
    case None => None
    case Some(t) =>
      Some(Announce(Account(m.(link := V1(t)), item.verdict), item.message.Notify?)
           .(phase := Items(m.phase.items[1..])))
  }

  /** Everything one socket read delivers changes the session before the loop sees the replies. */
  ghost function ReadMessages(t: V.Trace, ms: seq<Codec.Message>): Option<V.Trace>
    decreases |ms|
  {
    if ms == [] then Some(t)
    else match V.Next(t, V.Received(ms[0]))
         case None => None
         case Some(u) => ReadMessages(u, ms[1..])
  }

  predicate Solved(f: Q.Find) {
    Meets(HashOf(WithNonce(f.job.work.header, f.nonce)), f.job.work.target)
  }

  function Register(m: State, l: Link): State
    requires m.sched.queue != []
  {
    m.(link := l, sched := Q.Sent(m.sched), pending := m.pending + {m.nextId}, nextId := m.nextId + 1)
  }

  /** The first queued find: dropped when stale, otherwise checked and submitted. */
  ghost function SubmitFind(m: State): Option<State>
    requires m.sched.queue != []
  {
    var f := m.sched.queue[0];
    if m.draining || !ValidJob(m.link, f.job) then Some(m.(sched := Q.Dropped(m.sched)))
    else if |m.pending| >= L.MAX_OUTSTANDING || !Solved(f) then None
    else
      match m.link
      case V1(_) => Some(Register(m, m.link))
      case V2(t) =>
        if m.nextId > 0xffff_ffff then None
        else match V.Next(t, V.Submitted(f.job, f.nonce, m.nextId))
             case None => None
             case Some(u) => Some(Register(m, V2(u)))
  }

  /** One step; None when it cannot be taken or ends the connection. */
  ghost function Next(m: State, step: Step): Option<State> {
    match step
    case Reserve(w) => if Q.Idle(m.sched, w) then Some(m.(sched := Q.Reserved(m.sched, w))) else None
    case Finish(w, nonces) =>
      if Q.Busy(m.sched, w) && Q.Scanned(m.sched.workers[w].task.value, nonces)
      then Some(m.(sched := Q.Finished(m.sched, w, nonces))) else None
    case Crash(w) => if w < |m.sched.workers| then Some(m.(sched := Q.Failed(m.sched, w))) else None
    case ReadV2(ms) =>
      if m.phase.Reading? && m.link.V2? then
        match ReadMessages(m.link.s2, ms)
        case None => None
        case Some(t) =>
          if |m.link.s2.replies| <= |t.replies|
          then Some(m.(link := V2(t), phase := Replies(t.replies[|m.link.s2.replies|..]))) else None
      else None
    case ReadV1(items) => if m.phase.Reading? && m.link.V1? then Some(m.(phase := Items(items))) else None
    case HandleOne =>
      if m.phase.Replies? && m.phase.rs != [] && m.link.V2? then HandleReply(m)
      else if m.phase.Items? && m.phase.items != [] && m.link.V1? then HandleItem(m)
      else None
    case TakeFinds =>
      if ((m.phase.Replies? && m.phase.rs == []) || (m.phase.Items? && m.phase.items == [])) && !m.sched.shared.failure
      then Some(m.(sched := Q.Taken(m.sched), phase := Submitting)) else None
    case SubmitOne => if m.phase.Submitting? && m.sched.queue != [] then SubmitFind(m) else None
    case Again => if m.phase.Submitting? && m.sched.queue == [] then Some(m.(phase := Reading)) else None
    case Expire => if m.phase.Reading? then Some(m.(draining := true)) else None
  }

  ghost function Run(start: State, steps: seq<Step>): Option<State> {
    if steps == [] then Some(start)
    else match Run(start, steps[..|steps| - 1])
         case None => None
         case Some(m) => Next(m, steps[|steps| - 1])
  }

  // ---------- The invariant ----------

  function HistoryLength(l: Link): nat {
    match l case V1(t) => |t.history| case V2(t) => |t.history|
  }

  function HistoryJob(l: Link, i: nat): Job
    requires i < HistoryLength(l)
  {
    match l case V1(t) => t.history[i].job case V2(t) => t.history[i].job
  }

  ghost predicate LinkSound(l: Link) {
    match l case V1(t) => S1.Kept(t) case V2(t) => V.Sound(t)
  }

  predicate FromHistory(l: Link, g: nat, j: Job) {
    1 <= g <= HistoryLength(l) && HistoryJob(l, g - 1) == j
  }

  ghost predicate IssuedFrom(l: Link, issued: map<nat, Job>) {
    forall g :: g in issued ==> FromHistory(l, g, issued[g])
  }

  ghost predicate Published(m: State) {
    && Q.Inv(m.link.V2?, m.issued, m.sched)
    && IssuedFrom(m.link, m.issued)
    && (m.activated <==> m.sched.shared.work.Some?)
    && (m.sched.shared.work.None? ==> m.issued == map[])
  }

  /** Main-loop books: identifiers are consecutive, and every share is answered or outstanding. */
  ghost predicate Books(m: State) {
    && (forall id :: id in m.pending ==> FIRST_ID <= id < m.nextId)
    && m.nextId == FIRST_ID + |m.sched.sent|
    && m.tally.accepted + m.tally.rejected + m.tally.stale + |m.pending| == |m.sched.sent|
  }

  /** The outstanding shares before the replies are those after them plus, once each, those they resolve. */
  ghost predicate Owes(before: set<nat>, after: set<nat>, rs: seq<V.Reply>)
    decreases |rs|
  {
    if rs == [] then before == after
    else match VerdictOf(rs[0])
         case None => Owes(before, after, rs[1..])
         case Some(v) => v.id in before && Owes(before - {v.id}, after, rs[1..])
  }

  function Unhandled(p: Phase): seq<V.Reply> {
    match p case Replies(rs) => rs case _ => []
  }

  ghost predicate InStep(m: State) {
    match m.link
    case V1(_) => true
    case V2(t) => t.state.ledger.lastSent < m.nextId && Owes(m.pending, t.state.ledger.pending, Unhandled(m.phase))
  }

  ghost predicate Inv(m: State) {
    && LinkSound(m.link) && Published(m) && Books(m) && InStep(m)
    && (!m.phase.Submitting? ==> m.sched.queue == [])
  }

  // ---------- Replies and outstanding shares ----------

  lemma {:induction false} OwesJoin(p: set<nat>, q: set<nat>, r: set<nat>, a: seq<V.Reply>, b: seq<V.Reply>)
    requires Owes(p, q, a) && Owes(q, r, b)
    ensures Owes(p, r, a + b)
    decreases |a|
  {
    if a == [] {
      assert a + b == b;
    } else {
      assert (a + b)[1..] == a[1..] + b && (a + b)[0] == a[0];
      match VerdictOf(a[0])
      case None => OwesJoin(p, q, r, a[1..], b);
      case Some(v) => OwesJoin(p - {v.id}, q, r, a[1..], b);
    }
  }

  ghost predicate Draws(p: set<nat>, q: set<nat>, ids: seq<u32>)
    decreases |ids|
  {
    if ids == [] then p == q else ids[0] in p && Draws(p - {ids[0]}, q, ids[1..])
  }

  lemma {:induction false} OwesReports(p: set<nat>, q: set<nat>, ids: seq<u32>)
    requires Draws(p, q, ids)
    ensures Owes(p, q, V.Reports(ids))
    decreases |ids|
  {
    if ids != [] {
      assert V.Reports(ids)[1..] == V.Reports(ids[1..]);
      OwesReports(p - {ids[0]}, q, ids[1..]);
    }
  }

  lemma {:induction false} DrawsAll(p: set<nat>, q: set<nat>, d: set<nat>, ids: seq<u32>)
    requires q <= p && d == p - q
    requires forall x: nat :: x in d <==> x in ids
    requires forall i, k :: 0 <= i < k < |ids| ==> ids[i] != ids[k]
    ensures Draws(p, q, ids)
    decreases |ids|
  {
    if ids == [] {
      assert d == {};
      forall x | x in p
        ensures x in q
      {
        assert x !in d;
      }
    } else {
      var x, rest := ids[0], ids[1..];
      assert ids == [x] + rest;
      assert x in ids && x in d && x !in rest;
      DrawsAll(p - {x}, q, d - {x}, rest);
    }
  }

  lemma DrawsSorted(p: set<u32>, q: set<u32>)
    requires q <= p
    ensures Draws(p, q, L.Ordering.Sorted(p - q))
  {
    var d: set<nat> := p - q;
    var ids := L.Ordering.Sorted(p - q);
    L.Ordering.SortedElements(p - q);
    forall i, k | 0 <= i < k < |ids|
      ensures ids[i] != ids[k]
    {
      L.Ordering.SortedIncreasing(p - q, i, k);
    }
    hide L.Ordering.Sorted;
    DrawsAll(p, q, d, ids);
  }

  lemma OwesQuiet(p: set<nat>, rs: seq<V.Reply>)
    requires forall i :: 0 <= i < |rs| ==> VerdictOf(rs[i]).None?
    ensures Owes(p, p, rs)
    decreases |rs|
  {
    if rs != [] {
      OwesQuiet(p, rs[1..]);
    }
  }

  /** Settling reports exactly the shares it removes. */
  lemma OwesSettled(l: L.Ledger)
    requires L.Settled(l).Some?
    ensures var o := L.Settled(l).value;
            o.ledger.lastSent == l.lastSent && Owes(l.pending, o.ledger.pending, V.Reports(o.accepted) + [V.Prompt])
  {
    L.SettleConserves(l.pending, l.batches);
    var o := L.Settled(l).value;
    hide L.Settle;
    DrawsSorted(l.pending, o.ledger.pending);
    OwesReports(l.pending, o.ledger.pending, o.accepted);
    OwesQuiet(o.ledger.pending, [V.Prompt]);
    OwesJoin(l.pending, o.ledger.pending, o.ledger.pending, V.Reports(o.accepted), [V.Prompt]);
  }

  ghost predicate Paid(before: V.State, after: V.State, rs: seq<V.Reply>) {
    after.ledger.lastSent == before.ledger.lastSent && Owes(before.ledger.pending, after.ledger.pending, rs)
  }

  lemma PaidQuiet(before: V.State, after: V.State, rs: seq<V.Reply>)
    requires after.ledger == before.ledger && forall i :: 0 <= i < |rs| ==> VerdictOf(rs[i]).None?
    ensures Paid(before, after, rs)
  {
    OwesQuiet(before.ledger.pending, rs);
  }

  lemma PaidAccepted(s: V.State, c: u32, last: u32, n: u32)
    requires V.OnAccepted(s, c, last, n).Some?
    ensures var r := V.OnAccepted(s, c, last, n).value; Paid(s, r.state, r.replies)
  {
    hide L.Settled, Owes;
    OwesSettled(s.ledger.(lastAck := last, batches := s.ledger.batches + [L.Batch(last, n)]));
  }

  lemma PaidRejected(s: V.State, c: u32, id: u32, reason: Bytes)
    requires V.OnRejected(s, c, id, reason).Some?
    ensures var r := V.OnRejected(s, c, id, reason).value; Paid(s, r.state, r.replies)
  {
    var l := s.ledger.(pending := s.ledger.pending - {id});
    var o := L.Refuse(s.ledger, id).value;
    hide L.Settled;
    OwesSettled(l);
    var refusal := V.ShareRefused(id, V.Code(reason), reason);
    assert Owes(s.ledger.pending, l.pending, [refusal]) by {
      assert [refusal][1..] == [];
    }
    hide Owes;
    OwesJoin(s.ledger.pending, l.pending, o.ledger.pending, [refusal], V.Reports(o.accepted) + [V.Prompt]);
    assert [refusal] + V.Reports(o.accepted) + [V.Prompt] == [refusal] + (V.Reports(o.accepted) + [V.Prompt]);
  }

  /** The replies to a message resolve exactly the shares the session closes, once each. */
  lemma PaidMessage(s: V.State, m: Codec.Message)
    requires V.Handle(s, m).Some?
    ensures var r := V.Handle(s, m).value; Paid(s, r.state, r.replies)
  {
    match m {
      case Accepted(c, last, n, _) => PaidAccepted(s, c, last, n);
      case Rejected(c, id, reason) => PaidRejected(s, c, id, reason);
      case _ => PaidOther(s, m);
    }
  }

  lemma PaidOther(s: V.State, m: Codec.Message)
    requires V.Handle(s, m).Some? && !m.Accepted? && !m.Rejected?
    ensures var r := V.Handle(s, m).value; Paid(s, r.state, r.replies)
  {
    hide Paid, StandardWork, V.JobFor;
    var r := V.Handle(s, m).value;
    assert r.state.ledger == s.ledger;
    PaidQuiet(s, r.state, r.replies);
  }

  /** One message's reaction, as the trace records it. */
  lemma NextReacts(t: V.Trace, m: Codec.Message)
    requires V.Next(t, V.Received(m)).Some?
    ensures V.Handle(t.state, m).Some?
    ensures var r := V.Handle(t.state, m).value; var u := V.Next(t, V.Received(m)).value;
            u.state == r.state && u.replies == t.replies + r.replies
  {
  }

  lemma RestOfReplies(a: seq<V.Reply>, b: seq<V.Reply>, all: seq<V.Reply>)
    requires a + b <= all
    ensures a <= all && all[|a|..] == b + all[|a + b|..]
  {
  }

  lemma PaidJoin(s: V.State, t: V.State, u: V.State, a: seq<V.Reply>, b: seq<V.Reply>)
    requires Paid(s, t, a) && Paid(t, u, b)
    ensures Paid(s, u, a + b)
  {
    hide Owes;
    OwesJoin(s.ledger.pending, t.ledger.pending, u.ledger.pending, a, b);
  }

  lemma NothingPaid(t: V.Trace)
    ensures Paid(t.state, t.state, t.replies[|t.replies|..])
  {
    PaidQuiet(t.state, t.state, t.replies[|t.replies|..]);
  }

  lemma {:induction false} ReadPays(t: V.Trace, ms: seq<Codec.Message>)
    requires V.Sound(t) && ReadMessages(t, ms).Some?
    ensures var u := ReadMessages(t, ms).value;
            && V.Sound(u) && t.history <= u.history && t.replies <= u.replies
            && Paid(t.state, u.state, u.replies[|t.replies|..])
    decreases |ms|
  {
    hide V.Sound;
    if ms == [] {
      NothingPaid(t);
    } else {
      var u := V.Next(t, V.Received(ms[0])).value;
      var v := ReadMessages(u, ms[1..]).value;
      V.SoundNext(t, V.Received(ms[0]));
      V.EpochGrows(t, V.Received(ms[0]));
      NextReacts(t, ms[0]);
      var r := V.Handle(t.state, ms[0]).value;
      PaidMessage(t.state, ms[0]);
      ReadPays(u, ms[1..]);
      RestOfReplies(t.replies, r.replies, v.replies);
      PaidJoin(t.state, u.state, v.state, r.replies, v.replies[|u.replies|..]);
    }
  }

  // ---------- Publishing ----------

  lemma NewestV1(t: S1.Trace)
    requires S1.Kept(t) && t.state.current.Some?
    ensures |t.history| > 0
    ensures var j := t.state.current.value; j == t.history[|t.history| - 1].job && j.generation == |t.history| && !j.sv2
  {
    hide S1.LeavesNumbered;
    assert S1.Tracks(t.state.validIds, t.state.epoch, t.history, |t.history| - 1);
  }

  lemma NewestV2(t: V.Trace)
    requires V.Sound(t) && t.state.current.Some?
    ensures |t.history| > 0
    ensures var j := t.state.current.value; j == t.history[|t.history| - 1].job && j.generation == |t.history| && j.sv2
  {
    assert V.Faithful(t.history[|t.history| - 1]);
  }

  /** The current job is the newest on record. */
  lemma CurrentIsNewest(l: Link)
    requires LinkSound(l) && Current(l).Some?
    ensures var j := Current(l).value;
            j.generation == HistoryLength(l) && FromHistory(l, j.generation, j) && j.sv2 == l.V2?
  {
    hide S1.Kept;
    match l
    case V1(t) => NewestV1(t);
    case V2(t) => NewestV2(t);
  }

  lemma StillFromHistory(l: Link, k: Link, issued: map<nat, Job>)
    requires IssuedFrom(l, issued) && Longer(l, k)
    ensures IssuedFrom(k, issued)
  {
    forall g | g in issued
      ensures FromHistory(k, g, issued[g])
    {
      assert FromHistory(l, g, issued[g]);
    }
  }

  /** The same session later. */
  ghost predicate Longer(l: Link, k: Link) {
    match (l, k)
    case (V1(a), V1(b)) => a.history <= b.history
    case (V2(a), V2(b)) => a.history <= b.history
    case _ => false
  }

  lemma AnnounceKeeps(m: State, brought: bool)
    requires LinkSound(m.link) && Published(m)
    ensures Published(Announce(m, brought))
    ensures var n := Announce(m, brought);
            n == m.(sched := n.sched, issued := n.issued, activated := n.activated)
            && n.sched.queue == m.sched.queue && n.sched.sent == m.sched.sent
  {
    hide LinkSound, Q.Inv;
    if Current(m.link).None? {
      NothingPublished(m);
    } else if Announce(m, brought) != m {
      var j := Current(m.link).value;
      CurrentIsNewest(m.link);
      NewestIsNewer(m, j);
      Q.PublishKeeps(m.link.V2?, m.issued, m.sched, j);
      assert IssuedFrom(m.link, m.issued[j.generation := j]);
    }
  }

  lemma NoHistoryYet(l: Link)
    requires LinkSound(l) && Current(l).None?
    ensures HistoryLength(l) == 0
  {
    hide S1.Tracked, V.AllKept, V.AllKnown, V.AllFaithful;
  }

  lemma WorkIsOnRecord(m: State)
    requires Published(m) && m.sched.shared.work.Some?
    ensures HistoryLength(m.link) > 0
  {
    var g := m.sched.shared.work.value.generation;
    assert FromHistory(m.link, g, m.issued[g]);
  }

  lemma NothingPublished(m: State)
    requires LinkSound(m.link) && Published(m) && Current(m.link).None?
    ensures m.sched.shared.work.None?
  {
    NoHistoryYet(m.link);
    hide *;
    if m.sched.shared.work.Some? {
      WorkIsOnRecord(m);
    }
  }

  lemma NewestIsNewer(m: State, j: Job)
    requires Published(m) && FromHistory(m.link, j.generation, j) && j.generation == HistoryLength(m.link)
    requires j.sv2 == m.link.V2?
    ensures Q.Newer(m.link.V2?, m.sched.shared.work, j)
  {
    hide Q.BookOf, Q.FindsOk, Q.TasksOk, Q.Clocks, Q.Current;
    if m.sched.shared.work.Some? {
      var g := m.sched.shared.work.value.generation;
      assert FromHistory(m.link, g, m.issued[g]);
    }
  }

  // ---------- Every step keeps the invariant ----------

  /** A worker step touches neither the queue of the main thread nor what was submitted or published. */
  ghost predicate WorkerOnly(a: Q.State, b: Q.State) {
    && b.queue == a.queue && b.sent == a.sent && b.shared.work == a.shared.work
    && (a.shared.failure ==> b.shared.failure)
  }

  lemma WorkerFrame(s: Q.State, w: nat, nonces: seq<u64>)
    ensures Q.Idle(s, w) ==> WorkerOnly(s, Q.Reserved(s, w))
    ensures Q.Busy(s, w) ==> WorkerOnly(s, Q.Finished(s, w, nonces))
    ensures w < |s.workers| ==> WorkerOnly(s, Q.Failed(s, w))
  {
    hide Q.FindsOf, Q.Timed;
  }

  lemma WorkerKeeps(m: State, s: Q.State)
    requires Inv(m) && Q.Inv(m.link.V2?, m.issued, s) && WorkerOnly(m.sched, s)
    ensures Inv(m.(sched := s))
  {
  }

  lemma WorkerStepKeeps(m: State, step: Step)
    requires Inv(m) && Next(m, step).Some? && (step.Reserve? || step.Finish? || step.Crash?)
    ensures Inv(Next(m, step).value)
  {
    hide LinkSound, Q.BookOf, Q.Failed, Q.Finished, Q.Inv, Q.Reserved, Q.Scanned, ReadMessages, SubmitFind;
    var sv2 := m.link.V2?;
    assert Q.Inv(sv2, m.issued, m.sched);
    WorkerFrame(m.sched, step.worker, if step.Finish? then step.nonces else []);
    match step {
      case Reserve(w) => Q.ReserveKeeps(sv2, m.issued, m.sched, w);
      case Finish(w, nonces) =>
        assert m.sched.workers[w].task.Some?;
        Q.FinishKeeps(sv2, m.issued, m.sched, w, nonces);
      case Crash(w) => Q.FailKeeps(sv2, m.issued, m.sched, w);
    }
    WorkerKeeps(m, Next(m, step).value.sched);
  }

  lemma ReadKeeps(m: State, ms: seq<Codec.Message>)
    requires Inv(m) && Next(m, ReadV2(ms)).Some?
    ensures Inv(Next(m, ReadV2(ms)).value)
  {
    hide Q.Inv, Q.Reserved, Q.Scanned, ReadMessages, S1.Kept, SubmitFind, V.Sound;
    var t, u := m.link.s2, ReadMessages(m.link.s2, ms).value;
    assert V.Sound(t);
    ReadPays(t, ms);
    StillFromHistory(m.link, V2(u), m.issued);
    assert LinkSound(V2(u));
  }

  lemma AccountBooks(m: State, v: Option<Verdict>)
    requires Books(m)
    ensures Books(Account(m, v))
    ensures var n := Account(m, v);
            n == m.(pending := n.pending, tally := n.tally)
            && n.pending == if v.Some? then m.pending - {v.value.id} else m.pending
  {
    if v.Some? && v.value.id !in m.pending {
      assert m.pending - {v.value.id} == m.pending;
    }
  }

  lemma HandleReplyKeeps(m: State)
    requires Inv(m) && m.phase.Replies? && m.phase.rs != [] && m.link.V2?
    ensures Inv(HandleReply(m).value)
  {
    hide LinkSound, Q.Inv;
    var v := VerdictOf(m.phase.rs[0]);
    var a := Account(m, v);
    assert Books(m) && LinkSound(m.link) && Published(m);
    AccountBooks(m, v);
    assert Published(a);
    AnnounceKeeps(a, Current(m.link).Some?);
    assert Owes(a.pending, m.link.s2.state.ledger.pending, m.phase.rs[1..]);
    FinishHandling(m, a, Announce(a, Current(m.link).Some?), Replies(m.phase.rs[1..]));
  }

  /** After the books and the board are done, the loop moves on to the next message. */
  lemma FinishHandling(m: State, a: State, n: State, p: Phase)
    requires Inv(m) && !m.phase.Submitting? && !p.Submitting?
    requires LinkSound(a.link) && Published(n) && Books(a)
    requires a.sched == m.sched && a.nextId == m.nextId && a.link.V1? == m.link.V1?
    requires n == a.(sched := n.sched, issued := n.issued, activated := n.activated)
    requires n.sched.queue == a.sched.queue && n.sched.sent == a.sched.sent
    requires a.link.V2? ==> a.link == m.link && Owes(a.pending, a.link.s2.state.ledger.pending, Unhandled(p))
    ensures Inv(n.(phase := p))
  {
  }

  lemma HandleItemKeeps(m: State)
    requires Inv(m) && m.phase.Items? && m.phase.items != [] && m.link.V1? && HandleItem(m).Some?
    ensures Inv(HandleItem(m).value)
  {
    hide Q.Inv, S1.Kept, S1.Next;
    var item := m.phase.items[0];
    var t := S1.Next(m.link.s1, item.message).value;
    var b := m.(link := V1(t));
    var a := Account(b, item.verdict);
    assert Books(b);
    AccountBooks(b, item.verdict);
    assert S1.Kept(m.link.s1);
    S1.KeptNext(m.link.s1, item.message);
    assert LinkSound(a.link);
    StillFromHistory(m.link, V1(t), m.issued);
    assert Published(a);
    AnnounceKeeps(a, item.message.Notify?);
    FinishHandling(m, a, Announce(a, item.message.Notify?), Items(m.phase.items[1..]));
  }

  lemma TakeFindsKeeps(m: State)
    requires Inv(m) && Next(m, TakeFinds).Some?
    ensures Inv(Next(m, TakeFinds).value)
  {
    hide LinkSound, Q.All, Q.Busy, Q.Failed, Q.Inv, Q.Reserved, ReadMessages, SubmitFind;
    Q.TakeKeeps(m.link.V2?, m.issued, m.sched);
  }

  lemma RegisterKeeps(m: State, l: Link)
    requires Inv(m) && m.phase.Submitting? && m.sched.queue != []
    requires LinkSound(l) && l.V2? == m.link.V2? && Longer(m.link, l)
    requires l.V2? ==> var a := m.link.s2.state.ledger; var b := l.s2.state.ledger;
               b.pending == a.pending + {m.nextId} && b.lastSent == m.nextId
    ensures Inv(Register(m, l))
  {
    hide Q.All, Q.Inv;
    StillFromHistory(m.link, l, m.issued);
    Q.SendKeeps(m.link.V2?, m.issued, m.sched);
    assert m.nextId !in m.pending;
  }

  lemma SubmitMoves(t: V.Trace, j: Job, nonce: u64, sequence: u32)
    requires V.Sound(t) && V.Next(t, V.Submitted(j, nonce, sequence)).Some?
    ensures var u := V.Next(t, V.Submitted(j, nonce, sequence)).value;
            && V.Sound(u) && t.history <= u.history
            && u.state.ledger.pending == t.state.ledger.pending + {sequence} && u.state.ledger.lastSent == sequence
  {
    hide V.Valid;
    V.SoundNext(t, V.Submitted(j, nonce, sequence));
    V.EpochGrows(t, V.Submitted(j, nonce, sequence));
  }

  lemma DroppingKeeps(m: State)
    requires Inv(m) && m.phase.Submitting? && m.sched.queue != []
    ensures Inv(m.(sched := Q.Dropped(m.sched)))
  {
    hide Q.Inv, LinkSound, IssuedFrom, Q.All;
    Q.DropKeeps(m.link.V2?, m.issued, m.sched);
  }

  lemma SubmitKeeps(m: State)
    requires Inv(m) && m.phase.Submitting? && m.sched.queue != [] && SubmitFind(m).Some?
    ensures Inv(SubmitFind(m).value)
  {
    hide Inv, Solved, ValidJob, V.Next, V.Sound, S1.Kept, Register, Q.Dropped;
    var f := m.sched.queue[0];
    if m.draining || !ValidJob(m.link, f.job) {
      DroppingKeeps(m);
    } else if m.link.V2? {
      SoundLink(m);
      SubmitMoves(m.link.s2, f.job, f.nonce, m.nextId);
      var u := V.Next(m.link.s2, V.Submitted(f.job, f.nonce, m.nextId)).value;
      assert LinkSound(V2(u)) && Longer(m.link, V2(u));
      RegisterKeeps(m, V2(u));
    } else {
      SoundLink(m);
      assert Longer(m.link, m.link);
      RegisterKeeps(m, m.link);
    }
  }

  lemma SoundLink(m: State)
    requires Inv(m)
    ensures LinkSound(m.link) && (m.link.V2? ==> V.Sound(m.link.s2))
  {
  }

  lemma HandleOneKeeps(m: State)
    requires Inv(m) && Next(m, HandleOne).Some?
    ensures Inv(Next(m, HandleOne).value)
  {
    hide Inv, HandleReply, HandleItem;
    if m.link.V2? {
      HandleReplyKeeps(m);
    } else {
      HandleItemKeeps(m);
    }
  }

  lemma SubmitOneKeeps(m: State)
    requires Inv(m) && Next(m, SubmitOne).Some?
    ensures Inv(Next(m, SubmitOne).value)
  {
    hide Inv, SubmitFind;
    SubmitKeeps(m);
  }

  /** The steps that only move the loop on. */
  lemma MovingKeeps(m: State, step: Step)
    requires Inv(m) && Next(m, step).Some? && (step.ReadV1? || step.Again? || step.Expire?)
    ensures Inv(Next(m, step).value)
  {
    hide LinkSound, Q.Busy, Q.Failed, Q.Inv, ReadMessages, SubmitFind;
  }

  lemma StepKeeps(m: State, step: Step)
    requires Inv(m) && Next(m, step).Some?
    ensures Inv(Next(m, step).value)
  {
    hide Inv, Next;
    match step {
      case Reserve(_) => WorkerStepKeeps(m, step);
      case Finish(_, _) => WorkerStepKeeps(m, step);
      case Crash(_) => WorkerStepKeeps(m, step);
      case ReadV2(ms) => ReadKeeps(m, ms);
      case HandleOne => HandleOneKeeps(m);
      case TakeFinds => TakeFindsKeeps(m);
      case SubmitOne => SubmitOneKeeps(m);
      case _ => MovingKeeps(m, step);
    }
  }

  lemma StartKeeps(sv2: bool, user: Bytes, rate: u32, batches: seq<u32>)
    requires |batches| <= Q.MAX_WORKERS
    ensures Inv(Start(sv2, user, rate, batches))
  {
    hide Q.Inv, V.Sound;
    assert S1.Kept(S1.Trace(S1.Start(), []));
    Q.StartSound(sv2, batches);
    V.SoundStart(user, rate);
  }

  /** The invariant holds after every run of one connection, whatever the pool sends and workers do. */
  lemma {:induction false} RunKeeps(sv2: bool, user: Bytes, rate: u32, batches: seq<u32>, steps: seq<Step>)
    requires |batches| <= Q.MAX_WORKERS && Run(Start(sv2, user, rate, batches), steps).Some?
    ensures Inv(Run(Start(sv2, user, rate, batches), steps).value)
  {
    hide Next;
    if steps == [] {
      StartKeeps(sv2, user, rate, batches);
    } else {
      RunKeeps(sv2, user, rate, batches, steps[..|steps| - 1]);
      StepKeeps(Run(Start(sv2, user, rate, batches), steps[..|steps| - 1]).value, steps[|steps| - 1]);
    }
  }

  // ---------- What holds of every run ----------

  /** A run of one connection of at most 192 workers. */
  ghost predicate Reaches(sv2: bool, user: Bytes, rate: u32, batches: seq<u32>, steps: seq<Step>, m: State) {
    |batches| <= Q.MAX_WORKERS && Run(Start(sv2, user, rate, batches), steps) == Some(m)
  }

  /**
    No share is submitted twice on a connection, in any interleaving of pool messages, reservations,
    scans, queueing, draining and submission.
   */
  lemma NoDuplicateShare(sv2: bool, user: Bytes, rate: u32, batches: seq<u32>, steps: seq<Step>, m: State)
    requires Reaches(sv2, user, rate, batches, steps, m)
    ensures Q.KeysDistinct(m.sched.sent)
  {
    hide Run;
    RunKeeps(sv2, user, rate, batches, steps);
    Q.NoShareTwice(m.link.V2?, m.issued, m.sched);
  }

  /** At the end of every iteration the loop and the session agree on which shares are outstanding. */
  lemma PendingCoincides(sv2: bool, user: Bytes, rate: u32, batches: seq<u32>, steps: seq<Step>, m: State)
    requires Reaches(sv2, user, rate, batches, steps, m) && m.link.V2? && m.phase.Reading?
    ensures m.pending == m.link.s2.state.ledger.pending
  {
    hide Run;
    RunKeeps(sv2, user, rate, batches, steps);
  }

  /** Every submitted share is accepted, rejected, stale or outstanding; identifiers count up from ten. */
  lemma CountersBalance(sv2: bool, user: Bytes, rate: u32, batches: seq<u32>, steps: seq<Step>, m: State)
    requires Reaches(sv2, user, rate, batches, steps, m)
    ensures m.tally.accepted + m.tally.rejected + m.tally.stale + |m.pending| == |m.sched.sent|
    ensures m.nextId == FIRST_ID + |m.sched.sent|
  {
    hide Run;
    RunKeeps(sv2, user, rate, batches, steps);
  }

  /** A find in the queue: what the invariant says about it. */
  lemma QueuedFind(m: State)
    requires Inv(m) && m.sched.queue != []
    ensures Q.FindOk(m.link.V2?, m.issued, m.sched.queue[0]) && Solved(m.sched.queue[0])
  {
    var fs := Q.All(m.sched);
    var f := m.sched.queue[0];
    assert |fs| > |m.sched.sent| && fs[|m.sched.sent|] == f;
    assert Q.FindOk(m.link.V2?, m.issued, f);
  }

  lemma NonceFits(issued: map<nat, Job>, f: Q.Find)
    requires Q.FindOk(true, issued, f)
    ensures f.nonce < 0x1_0000_0000
  {
    hide Solves, Q.JobAt;
  }

  /**
    Once a queued find has passed the loop's own tests (not draining, valid, room among the outstanding
    shares, an identifier left), submitting it cannot fail: the independent hash check succeeds and the
    session accepts the submit.
   */
  lemma SubmitNeverRefused(sv2: bool, user: Bytes, rate: u32, batches: seq<u32>, steps: seq<Step>, m: State)
    requires Reaches(sv2, user, rate, batches, steps, m) && m.phase.Submitting? && m.sched.queue != []
    requires !m.draining && ValidJob(m.link, m.sched.queue[0].job)
    requires |m.pending| < L.MAX_OUTSTANDING && (m.link.V2? ==> m.nextId <= 0xffff_ffff)
    ensures Solved(m.sched.queue[0])
    ensures Next(m, SubmitOne).Some? && Next(m, SubmitOne).value.sched == Q.Sent(m.sched)
  {
    hide Books, HandleItem, HandleReply, LinkSound, Published, Q.Busy, Q.FindOk, Q.Finished, Run, S1.Valid, Solved,
         Start;
    RunKeeps(sv2, user, rate, batches, steps);
    var f := m.sched.queue[0];
    QueuedFind(m);
    if m.link.V2? {
      NonceFits(m.issued, f);
      var l := m.link.s2.state.ledger;
      assert l.pending == m.pending && l.lastSent < m.nextId;
      SessionAccepts(m.link.s2, f.job, f.nonce, m.nextId);
    }
  }

  lemma SessionAccepts(t: V.Trace, j: Job, nonce: u64, sequence: u32)
    requires V.Valid(t.state, j) && nonce < 0x1_0000_0000
    requires sequence > t.state.ledger.lastSent && |t.state.ledger.pending| < L.MAX_OUTSTANDING
    ensures V.Next(t, V.Submitted(j, nonce, sequence)).Some?
  {
    hide V.Valid, V.Activated;
  }

  /** The find came from the activation its generation names. */
  ghost predicate Genuine(l: Link, f: Q.Find) {
    match l
    case V2(t) =>
      var g := f.job.generation;
      && 1 <= g <= |t.history| && f.nonce < 0x1_0000_0000
      && var a := t.history[g - 1];
         && f.job.wireJob == a.job.wireJob && f.job.version == a.job.version && f.job.channel == a.job.channel
         && f.job.work.target == V.ShareTarget(a.share)
         && StandardWork(a.previous, a.commitment, a.extra, f.job.time32) == Success(f.job.work.header)
    case V1(t) => 1 <= f.job.generation <= |t.history| && f.job == t.history[f.job.generation - 1].job
  }

  lemma TimedIsStandard(a: V.Activation, time: u32)
    requires V.Faithful(a)
    ensures StandardWork(a.previous, a.commitment, a.extra, time)
            == Success(Q.Timed(a.job, time).work.header)
  {
    RetimedIsStandard(a.previous, a.commitment, a.extra, a.job.time32, time);
    hide StandardWork;
  }

  lemma FindIsGenuine(l: Link, issued: map<nat, Job>, f: Q.Find)
    requires LinkSound(l) && IssuedFrom(l, issued) && Q.FindOk(l.V2?, issued, f)
    ensures Genuine(l, f)
  {
    hide S1.Kept, Solves, StandardWork;
    var g := f.job.generation;
    assert g in issued && f.job == Q.JobAt(l.V2?, issued[g], f.position);
    assert FromHistory(l, g, issued[g]);
    if l.V2? {
      NonceFits(issued, f);
      var a := l.s2.history[g - 1];
      assert V.Faithful(a);
      TimedIsStandard(a, f.job.time32);
    }
  }

  /**
    Submission fidelity: every submitted SV2 share carries the identifiers of an activated job, and the
    header that was checked is the standard header rebuilt from that job's previous hash, commitment and
    extranonce with the submitted time, laid out with the nonce at byte 32 and zero upper halves. Its
    hash meets the job's target.
   */
  lemma SubmissionFidelity(user: Bytes, rate: u32, batches: seq<u32>, steps: seq<Step>, m: State, i: nat)
    requires Reaches(true, user, rate, batches, steps, m) && m.link.V2? && i < |m.sched.sent|
    ensures var f := m.sched.sent[i]; Genuine(m.link, f) && Solved(f)
    ensures LaidOut(m.link.s2, m.sched.sent[i])
  {
    hide HashOf, Inv, Run;
    RunKeeps(true, user, rate, batches, steps);
    SentIsGenuine(m, i);
    var f := m.sched.sent[i];
    assert Genuine(V2(m.link.s2), f);
    var a := m.link.s2.history[f.job.generation - 1];
    var leaf := StandardLayout(a.previous, a.commitment, a.extra, f.job.time32, f.nonce);
    LeafBytes(leaf, a.commitment, a.extra);
  }

  /** The header of a share of an activation, field by field. */
  function HeaderOf(a: V.Activation, time: u32, nonce: u64): Bytes {
    a.previous + (LeBytes(nonce, 4) + Zeros(4)) + (LeBytes(time, 4) + Zeros(4))
    + HashOf(Zeros(4) + a.commitment + Zeros(4) + a.extra)
  }

  predicate LaidOut(t: V.Trace, f: Q.Find) {
    && 1 <= f.job.generation <= |t.history|
    && WithNonce(f.job.work.header, f.nonce) == HeaderOf(t.history[f.job.generation - 1], f.job.time32, f.nonce)
  }

  lemma SentIsGenuine(m: State, i: nat)
    requires Inv(m) && i < |m.sched.sent|
    ensures Genuine(m.link, m.sched.sent[i]) && Solved(m.sched.sent[i])
  {
    hide HashOf;
    var fs := Q.All(m.sched);
    var f := m.sched.sent[i];
    assert i < |fs| && fs[i] == f;
    assert Q.FindOk(m.link.V2?, m.issued, f);
    FindIsGenuine(m.link, m.issued, f);
  }

  lemma DrainingStep(m: State, step: Step)
    requires m.draining && Next(m, step).Some?
    ensures var n := Next(m, step).value;
            n.draining && n.sched.sent == m.sched.sent && n.sched.shared.work == m.sched.shared.work
            && n.nextId == m.nextId
  {
    hide Q.Reserved, Q.Finished, Q.Failed, Q.Idle, Q.Busy;
    if step.Reserve? || step.Finish? || step.Crash? {
      WorkerFrame(m.sched, step.worker, if step.Finish? then step.nonces else []);
    }
  }

  lemma FailureStep(m: State, step: Step)
    requires m.sched.shared.failure && Next(m, step).Some?
    ensures var n := Next(m, step).value;
            && n.sched.shared.failure
            && (!m.phase.Submitting? ==> !n.phase.Submitting? && n.sched.sent == m.sched.sent)
  {
    hide Q.Reserved, Q.Scanned, S1.Next, S1.StratumState.View, Solved, V.Next;
    if step.Reserve? || step.Finish? || step.Crash? {
      WorkerFrame(m.sched, step.worker, if step.Finish? then step.nonces else []);
    }
  }

  lemma RunJoin(start: State, a: seq<Step>, step: Step)
    ensures Run(start, a + [step]) == match Run(start, a) case None => None case Some(m) => Next(m, step)
  {
    assert (a + [step])[..|a + [step]| - 1] == a;
  }

  /** From the moment the connection drains, no run submits anything or publishes another job. */
  lemma {:induction false} DrainingStops(start: State, a: seq<Step>, b: seq<Step>)
    requires Run(start, a).Some? && Run(start, a).value.draining && Run(start, a + b).Some?
    ensures var (m, n) := (Run(start, a).value, Run(start, a + b).value);
            n.draining && n.sched.sent == m.sched.sent && n.sched.shared.work == m.sched.shared.work
            && n.nextId == m.nextId
  {
    hide Run, Next;
    if b == [] {
      assert a + b == a;
    } else {
      var c, step := b[..|b| - 1], b[|b| - 1];
      assert a + b == (a + c) + [step];
      RunJoin(start, a + c, step);
      DrainingStops(start, a, c);
      DrainingStep(Run(start, a + c).value, step);
    }
  }

  /**
    A worker's failure is never forgotten. Once it is recorded outside the submission loop, no run comes
    to submit anything again: the next take of finds ends the connection.
   */
  lemma {:induction false} FailureIsFinal(start: State, a: seq<Step>, b: seq<Step>)
    requires Run(start, a).Some? && Run(start, a).value.sched.shared.failure && Run(start, a + b).Some?
    ensures var (m, n) := (Run(start, a).value, Run(start, a + b).value);
            && n.sched.shared.failure
            && (!m.phase.Submitting? ==> !n.phase.Submitting? && n.sched.sent == m.sched.sent)
  {
    hide Run, Next;
    if b == [] {
      assert a + b == a;
    } else {
      var c, step := b[..|b| - 1], b[|b| - 1];
      assert a + b == (a + c) + [step];
      RunJoin(start, a + c, step);
      FailureIsFinal(start, a, c);
      FailureStep(Run(start, a + c).value, step);
    }
  }

  // ---------- SV1 shares as the pool sees them ----------

  /** Two submitted SV1 shares never repeat an extranonce2 and nonce, up to 2^64 notifies. */
  lemma NoDuplicateSv1Share(user: Bytes, rate: u32, batches: seq<u32>, steps: seq<Step>, m: State, i: nat, k: nat)
    requires Reaches(false, user, rate, batches, steps, m) && m.link.V1? && i < k < |m.sched.sent|
    requires |m.link.s1.history| < 0xffff_ffff_ffff_ffff
    ensures m.sched.sent[i].job.en2 != m.sched.sent[k].job.en2 || m.sched.sent[i].nonce != m.sched.sent[k].nonce
  {
    hide HashOf, Published, Run;
    NoDuplicateShare(false, user, rate, batches, steps, m);
    RunKeeps(false, user, rate, batches, steps);
    var f, g := m.sched.sent[i], m.sched.sent[k];
    SentIsGenuine(m, i);
    SentIsGenuine(m, k);
    assert Genuine(V1(m.link.s1), f) && Genuine(V1(m.link.s1), g);
    assert Q.KeyOf(f) != Q.KeyOf(g);
    if f.job.generation != g.job.generation {
      var h := m.link.s1.history;
      var a, b := f.job.generation, g.job.generation;
      assert S1.LeafNumbered(h[a - 1], a) && S1.LeafNumbered(h[b - 1], b);
      S1.NumberedApart(h[a - 1], h[b - 1], a, b);
    }
  }
}
