/** What becomes of every hit of every batch over a whole run. */
module Fates {
  import opened Base
  import opened Jobs
  import opened Scan
  import opened Miner
  import H = Histories
  import Q = Scheduler
  import S1 = Stratum
  import V = Sv2

  datatype Share = Share(job: Job, nonce: u64)

  function SharesOf(fs: seq<Q.Find>): (shares: seq<Share>)
    ensures |shares| == |fs|
  {
    seq(|fs|, i requires 0 <= i < |fs| => Share(fs[i].job, fs[i].nonce))
  }

  function SharesAt(j: Job, nonces: seq<u64>): (shares: seq<Share>)
    ensures |shares| == |nonces|
  {
    seq(|nonces|, i requires 0 <= i < |nonces| => Share(j, nonces[i]))
  }

  /** The solving nonces of a batch that a step finishes. */
  ghost function FoundAt(m: State, step: Step): multiset<Share> {
    if step.Finish? && Q.Busy(m.sched, step.worker) then
      var t := m.sched.workers[step.worker].task.value;
      if t.start + t.count <= 0x1_0000_0000_0000_0000
      then multiset(SharesAt(t.job, Hits(t.job.work, t.start, t.count))) else multiset{}
    else multiset{}
  }

  /** Every hit of every batch finished in a run. */
  ghost function FoundIn(start: State, steps: seq<Step>): multiset<Share> {
    if steps == [] then multiset{}
    else
      FoundIn(start, steps[..|steps| - 1])
      + match Run(start, steps[..|steps| - 1]) case None => multiset{} case Some(m) => FoundAt(m, steps[|steps| - 1])
  }

  /** A find is due when it is taken while the connection is not draining and the pool still wants it. */
  ghost predicate Due(start: State, steps: seq<Step>, m: State)
    requires m.sched.queue != []
  {
    !m.draining && H.Wanted(m.link, H.Heard(start, steps), H.Fed(start, steps), m.sched.queue[0])
  }

  ghost function DroppedAt(start: State, steps: seq<Step>, m: State, step: Step): multiset<Share> {
    if step.SubmitOne? && m.sched.queue != [] && !Due(start, steps, m)
    then multiset{Share(m.sched.queue[0].job, m.sched.queue[0].nonce)} else multiset{}
  }

  /** The finds that were taken from the queue while draining or when the pool no longer wanted them. */
  ghost function DroppedIn(start: State, steps: seq<Step>): multiset<Share> {
    if steps == [] then multiset{}
    else
      var a := steps[..|steps| - 1];
      DroppedIn(start, a)
      + match Run(start, a) case None => multiset{} case Some(m) => DroppedAt(start, a, m, steps[|steps| - 1])
  }

  /** The finds that are submitted, taken for submission, or queued. */
  function Held(s: Q.State): multiset<Share> {
    multiset(SharesOf(s.sent)) + multiset(SharesOf(s.queue)) + multiset(SharesOf(s.shared.found))
  }

  ghost predicate Accounted(s: Q.State, found: multiset<Share>, dropped: multiset<Share>) {
    && Held(s) + dropped <= found
    && (!s.shared.failure ==> Held(s) + dropped == found)
  }

  // ---------- Multisets of shares ----------

  lemma SharesJoin(a: seq<Q.Find>, b: seq<Q.Find>)
    ensures multiset(SharesOf(a + b)) == multiset(SharesOf(a)) + multiset(SharesOf(b))
  {
    assert SharesOf(a + b) == SharesOf(a) + SharesOf(b);
  }

  lemma {:induction false} CountAt(j: Job, nonces: seq<u64>, s: Share)
    ensures multiset(SharesAt(j, nonces))[s] == if s.job == j then multiset(nonces)[s.nonce] else 0
  {
    if nonces != [] {
      var front, last := nonces[..|nonces| - 1], nonces[|nonces| - 1];
      CountAt(j, front, s);
      assert nonces == front + [last];
      assert SharesAt(j, nonces) == SharesAt(j, front) + [Share(j, last)];
    }
  }

  /** The order in which a backend reports does not matter. */
  lemma SameShares(j: Job, a: seq<u64>, b: seq<u64>)
    requires multiset(a) == multiset(b)
    ensures multiset(SharesAt(j, a)) == multiset(SharesAt(j, b))
  {
    forall s: Share
      ensures multiset(SharesAt(j, a))[s] == multiset(SharesAt(j, b))[s]
    {
      CountAt(j, a, s);
      CountAt(j, b, s);
    }
  }

  // ---------- Steps ----------

  lemma FinishedShares(s: Q.State, w: nat, nonces: seq<u64>)
    requires Q.Busy(s, w)
    ensures var (t, u) := (s.workers[w].task.value, Q.Finished(s, w, nonces));
            && u.sent == s.sent && u.queue == s.queue && (s.shared.failure ==> u.shared.failure)
            && (if |s.shared.found| + |nonces| > 8192 then u.shared.failure && Held(u) == Held(s)
                else Held(u) == Held(s) + multiset(SharesAt(t.job, nonces)))
  {
    Q.FinishQueues(s, w, nonces);
    var (t, u, n) := (s.workers[w].task.value, Q.Finished(s, w, nonces), |s.shared.found|);
    hide Q.Finished;
    if n + |nonces| <= 8192 {
      var more := u.shared.found[n..];
      assert u.shared.found == s.shared.found + more;
      forall i | 0 <= i < |nonces|
        ensures SharesOf(more)[i] == Share(t.job, nonces[i])
      {
        assert Q.HandedIn(u.shared.found[n + i], t.job, nonces[i]);
      }
      assert SharesOf(more) == SharesAt(t.job, nonces);
      SharesJoin(s.shared.found, more);
    }
  }

  lemma FinishAccounts(m: State, step: Step, found: multiset<Share>, dropped: multiset<Share>)
    requires step.Finish? && Next(m, step).Some? && Accounted(m.sched, found, dropped)
    ensures Accounted(Next(m, step).value.sched, found + FoundAt(m, step), dropped)
  {
    hide Hits, Q.Finished, Held, SharesAt;
    var t := m.sched.workers[step.worker].task.value;
    FinishedShares(m.sched, step.worker, step.nonces);
    SameShares(t.job, step.nonces, Hits(t.job.work, t.start, t.count));
  }

  lemma TakeAccounts(s: Q.State)
    ensures Held(Q.Taken(s)) == Held(s)
  {
    SharesJoin(s.queue, s.shared.found);
    assert SharesOf([]) == [];
  }

  lemma SubmitAccounts(m: State, n: State, due: bool)
    requires m.sched.queue != [] && H.Took(m, n, due)
    ensures Held(m.sched) == Held(n.sched)
                             + if due then multiset{} else multiset{Share(m.sched.queue[0].job, m.sched.queue[0].nonce)}
  {
    var f := m.sched.queue[0];
    assert m.sched.queue == [f] + m.sched.queue[1..];
    SharesJoin([f], m.sched.queue[1..]);
    SharesJoin(m.sched.sent, [f]);
    assert SharesOf([f]) == [Share(f.job, f.nonce)];
    hide SharesOf;
  }

  lemma WorkersTouchNothing(s: Q.State, w: nat)
    ensures Q.Idle(s, w) ==> SameFinds(s, Q.Reserved(s, w))
    ensures w < |s.workers| ==> SameFinds(s, Q.Failed(s, w))
  {
    hide Q.Timed;
  }

  predicate SameFinds(s: Q.State, u: Q.State) {
    u.sent == s.sent && u.queue == s.queue && u.shared.found == s.shared.found
    && (s.shared.failure ==> u.shared.failure)
  }

  lemma AnnouncingTouchesNothing(m: State, brought: bool)
    ensures SameFinds(m.sched, Announce(m, brought).sched)
  {
  }

  lemma HandlingTouchesNothing(m: State)
    ensures m.phase.Replies? && m.phase.rs != [] && m.link.V2? ==> SameFinds(m.sched, HandleReply(m).value.sched)
    ensures m.phase.Items? && m.phase.items != [] && m.link.V1? && HandleItem(m).Some? ==>
              SameFinds(m.sched, HandleItem(m).value.sched)
  {
    hide Announce, Count, S1.Next;
    if m.phase.Replies? && m.phase.rs != [] && m.link.V2? {
      AnnouncingTouchesNothing(Account(m, VerdictOf(m.phase.rs[0])), Current(m.link).Some?);
    } else if m.phase.Items? && m.phase.items != [] && m.link.V1? && HandleItem(m).Some? {
      var item := m.phase.items[0];
      var b := m.(link := V1(S1.Next(m.link.s1, item.message).value));
      AnnouncingTouchesNothing(Account(b, item.verdict), item.message.Notify?);
    }
  }

  /** The other steps touch no find. */
  lemma OthersAccount(m: State, step: Step)
    requires Next(m, step).Some? && !step.Finish? && !step.TakeFinds? && !step.SubmitOne?
    ensures SameFinds(m.sched, Next(m, step).value.sched)
  {
    HandlingTouchesNothing(m);
    hide HandleReply, HandleItem, Q.Idle, Q.Scanned, ReadMessages, S1.Next, Q.Reserved, Q.Failed;
    if step.Reserve? || step.Crash? {
      WorkersTouchNothing(m.sched, step.worker);
    }
  }

  lemma Quiet(start: State, steps: seq<Step>, m: State, step: Step)
    ensures !step.Finish? ==> FoundAt(m, step) == multiset{}
    ensures !step.SubmitOne? ==> DroppedAt(start, steps, m, step) == multiset{}
  {
  }

  lemma TakesAll(m: State)
    requires Next(m, TakeFinds).Some?
    ensures Next(m, TakeFinds).value.sched == Q.Taken(m.sched)
  {
  }

  lemma StepAccounts(start: State, steps: seq<Step>, m: State, step: Step, found: multiset<Share>,
                     dropped: multiset<Share>)
    requires Next(m, step).Some? && Accounted(m.sched, found, dropped)
    requires step.SubmitOne? ==> m.sched.queue != [] && H.Took(m, Next(m, step).value, Due(start, steps, m))
    ensures Accounted(Next(m, step).value.sched, found + FoundAt(m, step), dropped + DroppedAt(start, steps, m, step))
  {
    hide Held, Due, FoundAt, Next, H.Took;
    Quiet(start, steps, m, step);
    match step {
      case Finish(_, _) => FinishAccounts(m, step, found, dropped);
      case TakeFinds =>
        TakesAll(m);
        TakeAccounts(m.sched);
      case SubmitOne =>
        SubmitAccounts(m, Next(m, step).value, Due(start, steps, m));
        SharedStays(m, Next(m, step).value, Due(start, steps, m));
      case _ =>
        OthersAccount(m, step);
        SameHeld(m.sched, Next(m, step).value.sched);
    }
  }

  lemma SharedStays(m: State, n: State, due: bool)
    requires m.sched.queue != [] && H.Took(m, n, due)
    ensures n.sched.shared == m.sched.shared
  {
  }

  lemma SameHeld(s: Q.State, u: Q.State)
    requires SameFinds(s, u)
    ensures Held(u) == Held(s)
  {
  }

  /** What SubmitOutcome says of a step of the submission loop that succeeds. */
  lemma Taking(sv2: bool, user: Bytes, rate: u32, batches: seq<u32>, steps: seq<Step>, m: State)
    requires Reaches(sv2, user, rate, batches, steps, m) && Next(m, SubmitOne).Some?
    ensures m.sched.queue != []
    ensures H.Took(m, Next(m, SubmitOne).value, Due(Start(sv2, user, rate, batches), steps, m))
  {
    H.SubmitTakes(m);
    H.SubmitOutcome(sv2, user, rate, batches, steps, m);
    hide Next, Run, H.Took, H.Wanted;
  }

  /**
    Nothing that was found is lost or made up: in every run without a recorded failure, the hits of all finished
    batches are, each as often as it was found, the finds submitted, taken or queued together with those taken
    while draining or no longer wanted by the pool. With a failure they still include all of those.
   */
  lemma {:induction false} HitsAreKept(sv2: bool, user: Bytes, rate: u32, batches: seq<u32>, steps: seq<Step>, m: State)
    requires Reaches(sv2, user, rate, batches, steps, m)
    ensures var start := Start(sv2, user, rate, batches);
            Accounted(m.sched, FoundIn(start, steps), DroppedIn(start, steps))
  {
    var start := Start(sv2, user, rate, batches);
    if steps == [] {
      assert SharesOf([]) == [];
    } else {
      hide Next, Accounted, FoundAt, DroppedAt, Due, H.Took;
      var a, step := steps[..|steps| - 1], steps[|steps| - 1];
      var l := Run(start, a).value;
      HitsAreKept(sv2, user, rate, batches, a, l);
      if step.SubmitOne? {
        Taking(sv2, user, rate, batches, a, l);
      }
      StepAccounts(start, a, l, step, FoundIn(start, a), DroppedIn(start, a));
    }
  }
}
