/** The counters of a connection against the answers the pool gave. */
module Answers {
  import opened Base
  import opened Codec
  import opened Coin
  import opened Jobs
  import opened Miner
  import opened Targets
  import H = Histories
  import L = ShareLedger
  import Q = Scheduler
  import S1 = Stratum
  import V = Sv2

  // ---------- Both protocols ----------

  /** The answer about a share that a step handles. */
  ghost function AnswerAt(m: State, step: Step): Option<Verdict> {
    if !step.HandleOne? then None
    else match m.phase
         case Items(items) => if items != [] then items[0].verdict else None
         case Replies(rs) =>
           if rs == [] then None
           else (match rs[0]
                 case ShareAccepted(id) => Some(Accept(id))
                 case ShareRefused(id, code, _) => Some(Refuse(id, code))
                 case _ => None)
         case _ => None
  }

  function Ids(c: seq<Verdict>): set<nat> {
    set i | 0 <= i < |c| :: c[i].id
  }

  /** An answer counts when it is the first about a share that was submitted; identifiers start at ten. */
  ghost function CountsAt(c: seq<Verdict>, m: State, step: Step): seq<Verdict> {
    match AnswerAt(m, step)
    case None => []
    case Some(v) => if 10 <= v.id < 10 + |m.sched.sent| && v.id !in Ids(c) then [v] else []
  }

  /** The answers of a run that count, in order. */
  ghost function Counted(start: State, steps: seq<Step>): seq<Verdict> {
    if steps == [] then []
    else
      var c := Counted(start, steps[..|steps| - 1]);
      c + match Run(start, steps[..|steps| - 1]) case None => [] case Some(m) => CountsAt(c, m, steps[|steps| - 1])
  }

  datatype Kind = Good | Stale | Bad

  function KindOf(v: Verdict): Kind {
    match v case Accept(_) => Good case Refuse(_, code) => if code == 21 then Stale else Bad
  }

  function HowMany(c: seq<Verdict>, kind: Kind): nat {
    if c == [] then 0 else HowMany(c[..|c| - 1], kind) + if KindOf(c[|c| - 1]) == kind then 1 else 0
  }

  /** Each counter is the number of answers of its kind; the shares without one are outstanding. */
  ghost predicate Tallied(m: State, c: seq<Verdict>) {
    && m.tally.accepted == HowMany(c, Good)
    && m.tally.stale == HowMany(c, Stale)
    && m.tally.rejected == HowMany(c, Bad)
    && (forall id: nat :: id in m.pending <==> 10 <= id < 10 + |m.sched.sent| && id !in Ids(c))
  }

  lemma OneMore(c: seq<Verdict>, v: Verdict, kind: Kind)
    ensures HowMany(c + [v], kind) == HowMany(c, kind) + if KindOf(v) == kind then 1 else 0
    ensures Ids(c + [v]) == Ids(c) + {v.id}
  {
    var d := c + [v];
    assert d[..|d| - 1] == c;
    forall id | id in Ids(c) + {v.id}
      ensures id in Ids(d)
    {
      if id in Ids(c) {
        var i :| 0 <= i < |c| && c[i].id == id;
        assert d[i].id == id;
      } else {
        assert d[|c|].id == id;
      }
    }
  }

  lemma Answered(m: State, a: Option<Verdict>, c: seq<Verdict>)
    requires Tallied(m, c)
    ensures var more := match a
                        case None => []
                        case Some(v) => if 10 <= v.id < 10 + |m.sched.sent| && v.id !in Ids(c) then [v] else [];
            Tallied(Account(m, a), c + more)
  {
    assert c + [] == c;
    if a.Some? && a.value.id in m.pending {
      OneMore(c, a.value, Good);
      OneMore(c, a.value, Stale);
      OneMore(c, a.value, Bad);
      hide HowMany, Ids;
    }
  }

  /** Publishing and moving on touch no counter. */
  lemma SameBooks(m: State, n: State, c: seq<Verdict>)
    requires Tallied(m, c) && n.tally == m.tally && n.pending == m.pending && |n.sched.sent| == |m.sched.sent|
    ensures Tallied(n, c)
  {
    hide HowMany, Ids;
  }

  lemma AnnounceBooks(m: State, brought: bool)
    ensures var n := Announce(m, brought);
            n.tally == m.tally && n.pending == m.pending && n.sched.sent == m.sched.sent
  {
  }

  lemma HandledTallies(m: State, c: seq<Verdict>)
    requires Tallied(m, c) && Next(m, HandleOne).Some?
    ensures Tallied(Next(m, HandleOne).value, c + CountsAt(c, m, HandleOne))
  {
    hide Account, Announce, Tallied, Ids, S1.Next, Q.Scanned, ReadMessages, SubmitFind;
    var n := Next(m, HandleOne).value;
    if m.link.V2? {
      var a := Account(m, VerdictOf(m.phase.rs[0]));
      Answered(m, VerdictOf(m.phase.rs[0]), c);
      AnnounceBooks(a, Current(m.link).Some?);
      SameBooks(a, n, c + CountsAt(c, m, HandleOne));
    } else {
      var item := m.phase.items[0];
      var b := m.(link := V1(S1.Next(m.link.s1, item.message).value));
      var a := Account(b, item.verdict);
      SameBooks(m, b, c);
      Answered(b, item.verdict, c);
      AnnounceBooks(a, item.message.Notify?);
      SameBooks(a, n, c + CountsAt(c, m, HandleOne));
    }
  }

  lemma SubmitTallies(m: State, n: State, due: bool, c: seq<Verdict>)
    requires Tallied(m, c) && m.sched.queue != [] && H.Took(m, n, due) && m.nextId == 10 + |m.sched.sent|
    requires forall id: nat :: id in Ids(c) ==> id < m.nextId
    ensures Tallied(n, c)
  {
    hide HowMany, Ids;
  }

  lemma OthersTally(m: State, step: Step)
    requires Next(m, step).Some? && !step.HandleOne? && !step.SubmitOne?
    ensures var n := Next(m, step).value;
            n.tally == m.tally && n.pending == m.pending && n.sched.sent == m.sched.sent
  {
    hide Q.Scanned, ReadMessages, Q.Reserved, Q.Finished, Q.Failed, Q.Idle, Q.Busy;
    if step.Reserve? || step.Finish? || step.Crash? {
      WorkerFrame(m.sched, step.worker, if step.Finish? then step.nonces else []);
    }
  }

  lemma SomeTook(m: State)
    requires Next(m, SubmitOne).Some?
    ensures m.sched.queue != []
    ensures H.Took(m, Next(m, SubmitOne).value, !m.draining && ValidJob(m.link, m.sched.queue[0].job))
  {
    H.SubmitTakes(m);
    hide Next, SubmitFind, ValidJob, H.Took;
    H.TakesOne(m);
  }

  lemma SentGrows(m: State, step: Step)
    requires Next(m, step).Some?
    ensures |Next(m, step).value.sched.sent| >= |m.sched.sent|
  {
    if step.SubmitOne? {
      SomeTook(m);
      hide Next, ValidJob;
    } else if step.HandleOne? {
      HandledSends(m);
      hide Next;
    } else {
      OthersTally(m, step);
      hide Next;
    }
  }

  lemma HandledSends(m: State)
    requires Next(m, HandleOne).Some?
    ensures Next(m, HandleOne).value.sched.sent == m.sched.sent
  {
    hide Count, S1.Next;
  }

  ghost predicate Below(c: seq<Verdict>, n: nat) {
    forall id: nat :: id in Ids(c) ==> id < n
  }

  lemma StepTallies(m: State, step: Step, c: seq<Verdict>)
    requires Next(m, step).Some? && Tallied(m, c) && Below(c, 10 + |m.sched.sent|)
    requires m.nextId == 10 + |m.sched.sent|
    ensures Tallied(Next(m, step).value, c + CountsAt(c, m, step))
    ensures Below(c + CountsAt(c, m, step), 10 + |Next(m, step).value.sched.sent|)
  {
    SentGrows(m, step);
    assert c + [] == c;
    hide Next, Tallied, HowMany, ValidJob;
    match step {
      case HandleOne => HandledTallies(m, c);
      case SubmitOne =>
        SomeTook(m);
        SubmitTallies(m, Next(m, step).value, !m.draining && ValidJob(m.link, m.sched.queue[0].job), c);
      case _ =>
        OthersTally(m, step);
        SameBooks(m, Next(m, step).value, c);
    }
    if CountsAt(c, m, step) != [] {
      OneMore(c, AnswerAt(m, step).value, Good);
    }
  }

  /**
    In every run the accepted, stale and rejected counters are the numbers of answers of their kind, only the
    first answer about a submitted share counting; the submitted shares without an answer are the outstanding ones.
   */
  lemma {:induction false} CountersAreAnswers(sv2: bool, user: Bytes, rate: u32, batches: seq<u32>,
                                              steps: seq<Step>, m: State)
    requires Reaches(sv2, user, rate, batches, steps, m)
    ensures var c := Counted(Start(sv2, user, rate, batches), steps);
            Tallied(m, c) && Below(c, 10 + |m.sched.sent|)
  {
    var start := Start(sv2, user, rate, batches);
    if steps != [] {
      hide Next, Tallied, Below, CountsAt;
      var a, step := steps[..|steps| - 1], steps[|steps| - 1];
      var l := Run(start, a).value;
      CountersAreAnswers(sv2, user, rate, batches, a, l);
      CountersBalance(sv2, user, rate, batches, a, l);
      StepTallies(l, step, Counted(start, a));
    }
  }

  // ---------- SV2: the counters are what the pool's messages say ----------

  function SaidOne(r: V.Reply, kind: Kind): nat {
    match r
    case ShareAccepted(_) => if kind == Good then 1 else 0
    case ShareRefused(_, code, _) => if kind == (if code == 21 then Stale else Bad) then 1 else 0
    case _ => 0
  }

  function Said(rs: seq<V.Reply>, kind: Kind): nat {
    if rs == [] then 0 else SaidOne(rs[0], kind) + Said(rs[1..], kind)
  }

  lemma {:induction false} SaidJoin(a: seq<V.Reply>, b: seq<V.Reply>, kind: Kind)
    ensures Said(a + b, kind) == Said(a, kind) + Said(b, kind)
    decreases |a|
  {
    if a == [] {
      assert a + b == b;
    } else {
      assert (a + b)[0] == a[0] && (a + b)[1..] == a[1..] + b;
      SaidJoin(a[1..], b, kind);
    }
  }

  function CounterOf(t: Tally, kind: Kind): nat {
    match kind case Good => t.accepted case Stale => t.stale case Bad => t.rejected
  }

  /** What was said is counted, but for the replies still to be looked at. */
  ghost predicate Heeded(m: State, kind: Kind) {
    m.link.V2? ==> CounterOf(m.tally, kind) + Said(Unhandled(m.phase), kind) == Said(m.link.s2.replies, kind)
  }

  lemma ReadHeeds(m: State, ms: seq<Message>, kind: Kind)
    requires Heeded(m, kind) && Next(m, ReadV2(ms)).Some?
    ensures Heeded(Next(m, ReadV2(ms)).value, kind)
  {
    ReadMoves(m, ms);
    hide Next;
    var a, all := m.link.s2.replies, Next(m, ReadV2(ms)).value.link.s2.replies;
    assert all == a + all[|a|..];
    SaidJoin(a, all[|a|..], kind);
    hide Said;
  }

  /** The replies of a read are what it adds to the session's. */
  lemma ReadMoves(m: State, ms: seq<Message>)
    requires Next(m, ReadV2(ms)).Some?
    ensures m.link.V2? && Unhandled(m.phase) == []
    ensures var n := Next(m, ReadV2(ms)).value;
            && n.link.V2? && n.tally == m.tally && m.link.s2.replies <= n.link.s2.replies
            && Unhandled(n.phase) == n.link.s2.replies[|m.link.s2.replies|..]
  {
    H.ReadPrompts(m.link.s2, ms);
    hide ReadMessages;
  }

  lemma ReplyHeeds(m: State, kind: Kind)
    requires Inv(m) && Heeded(m, kind) && m.phase.Replies? && m.phase.rs != [] && m.link.V2?
    ensures Heeded(HandleReply(m).value, kind)
  {
    hide LinkSound, Published, Books;
    AnnounceBooks(Account(m, VerdictOf(m.phase.rs[0])), Current(m.link).Some?);
    AnnounceLink(Account(m, VerdictOf(m.phase.rs[0])), Current(m.link).Some?);
    hide Announce;
  }

  lemma AnnounceLink(m: State, brought: bool)
    ensures Announce(m, brought).link == m.link
  {
  }

  lemma SubmitHeeds(m: State, kind: Kind)
    requires Heeded(m, kind) && m.phase.Submitting? && m.sched.queue != [] && SubmitFind(m).Some?
    ensures Heeded(SubmitFind(m).value, kind)
  {
    hide Solved, ValidJob, V.Valid, V.Activated, SaidOne;
    if m.link.V2? {
      assert m.link.s2.replies + [] == m.link.s2.replies;
    }
  }

  lemma OthersHeed(m: State, step: Step, kind: Kind)
    requires Heeded(m, kind) && Next(m, step).Some? && !step.SubmitOne? && !step.ReadV2? && !step.HandleOne?
    ensures Heeded(Next(m, step).value, kind)
  {
    OthersTally(m, step);
    H.NothingFed(m, step);
    PhaseMoves(m, step);
    hide Next, Said;
  }

  lemma PhaseMoves(m: State, step: Step)
    requires Next(m, step).Some? && !step.SubmitOne? && !step.ReadV2? && !step.HandleOne?
    ensures Unhandled(Next(m, step).value.phase) == Unhandled(m.phase)
  {
    hide Q.Scanned, Q.Reserved, Q.Finished, Q.Failed, Q.Idle, Q.Busy;
  }

  lemma HandledHeeds(m: State, kind: Kind)
    requires Inv(m) && Heeded(m, kind) && Next(m, HandleOne).Some?
    ensures Heeded(Next(m, HandleOne).value, kind)
  {
    hide Inv, HandleReply, Said;
    if m.link.V2? {
      ReplyHeeds(m, kind);
    } else {
      H.SameProtocol(m, HandleOne);
    }
  }

  lemma StepHeeds(m: State, step: Step, kind: Kind)
    requires Inv(m) && Heeded(m, kind) && Next(m, step).Some?
    ensures Heeded(Next(m, step).value, kind)
  {
    hide Inv, Heeded, Next, SubmitFind;
    match step {
      case ReadV2(ms) => ReadHeeds(m, ms, kind);
      case HandleOne => HandledHeeds(m, kind);
      case SubmitOne =>
        H.SubmitTakes(m);
        SubmitHeeds(m, kind);
      case _ => OthersHeed(m, step, kind);
    }
  }

  lemma {:induction false} RunHeeds(user: Bytes, rate: u32, batches: seq<u32>, steps: seq<Step>, kind: Kind)
    requires |batches| <= Q.MAX_WORKERS && Run(Start(true, user, rate, batches), steps).Some?
    ensures Heeded(Run(Start(true, user, rate, batches), steps).value, kind)
  {
    if steps != [] {
      hide Heeded, Inv, Next;
      RunHeeds(user, rate, batches, steps[..|steps| - 1], kind);
      RunKeeps(true, user, rate, batches, steps[..|steps| - 1]);
      StepHeeds(Run(Start(true, user, rate, batches), steps[..|steps| - 1]).value, steps[|steps| - 1], kind);
    }
  }

  /** "stale-share", "invalid-job-id" and "stale-job", byte by byte. */
  predicate StaleReason(reason: Bytes) {
    || reason == [0x73, 0x74, 0x61, 0x6c, 0x65, 0x2d, 0x73, 0x68, 0x61, 0x72, 0x65]
    || reason == [0x69, 0x6e, 0x76, 0x61, 0x6c, 0x69, 0x64, 0x2d, 0x6a, 0x6f, 0x62, 0x2d, 0x69, 0x64]
    || reason == [0x73, 0x74, 0x61, 0x6c, 0x65, 0x2d, 0x6a, 0x6f, 0x62]
  }

  lemma CodeOfReason(reason: Bytes)
    ensures V.Code(reason) == 21 <==> StaleReason(reason)
  {
    assert V.Ascii("stale-share") == [0x73, 0x74, 0x61, 0x6c, 0x65, 0x2d, 0x73, 0x68, 0x61, 0x72, 0x65];
    assert V.Ascii("invalid-job-id")
        == [0x69, 0x6e, 0x76, 0x61, 0x6c, 0x69, 0x64, 0x2d, 0x6a, 0x6f, 0x62, 0x2d, 0x69, 0x64];
    assert V.Ascii("stale-job") == [0x73, 0x74, 0x61, 0x6c, 0x65, 0x2d, 0x6a, 0x6f, 0x62];
  }

  predicate IsRefusal(i: V.Input, stale: bool) {
    i.Received? && i.message.Rejected? && StaleReason(i.message.reason) == stale
  }

  /** The pool's individual refusals, with a stale reason or with another. */
  function Refusals(fed: seq<V.Input>, stale: bool): nat {
    if fed == [] then 0
    else Refusals(fed[..|fed| - 1], stale) + if IsRefusal(fed[|fed| - 1], stale) then 1 else 0
  }

  /** The sum of the counts the pool acknowledged. */
  function Acknowledged(fed: seq<V.Input>): nat {
    if fed == [] then 0
    else
      var i := fed[|fed| - 1];
      Acknowledged(fed[..|fed| - 1]) + if i.Received? && i.message.Accepted? then i.message.count else 0
  }

  lemma {:induction false} SaidReports(ids: seq<u32>, kind: Kind)
    ensures Said(V.Reports(ids), kind) == if kind == Good then |ids| else 0
    decreases |ids|
  {
    if ids != [] {
      assert V.Reports(ids)[1..] == V.Reports(ids[1..]);
      SaidReports(ids[1..], kind);
    }
  }

  lemma SaidSingle(r: V.Reply, kind: Kind)
    ensures Said([r], kind) == SaidOne(r, kind)
  {
  }

  lemma SaidNothing(target: Hash, kind: Kind)
    ensures Said([], kind) == Said([V.Prompt], kind) == Said([V.Retarget(target), V.Prompt], kind) == 0
  {
    SaidSingle(V.Prompt, kind);
    SaidSingle(V.Retarget(target), kind);
    SaidJoin([V.Retarget(target)], [V.Prompt], kind);
    assert [V.Retarget(target), V.Prompt] == [V.Retarget(target)] + [V.Prompt];
  }

  lemma SaidSettled(r: seq<V.Reply>, ids: seq<u32>, kind: Kind)
    ensures Said(r + V.Reports(ids) + [V.Prompt], kind) == Said(r, kind) + if kind == Good then |ids| else 0
  {
    SaidReports(ids, kind);
    SaidJoin(r, V.Reports(ids), kind);
    SaidJoin(r + V.Reports(ids), [V.Prompt], kind);
    SaidSingle(V.Prompt, kind);
    hide Said;
  }

  /** The replies to one input refuse what the input refuses. */
  lemma SaidByInput(s: V.State, i: V.Input, kind: Kind)
    requires V.React(s, i).Some? && kind != Good
    ensures Said(V.React(s, i).value.replies, kind) == if IsRefusal(i, kind == Stale) then 1 else 0
  {
    hide StandardWork, CompactTarget, V.ShareTarget, DecimalText, Said, L.Acknowledge, L.Refuse, V.Code, StaleReason;
    SaidNothing(s.target, kind);
    match i {
      case Received(Accepted(_, last, count, _)) =>
        var ids := L.Acknowledge(s.ledger, L.Batch(last, count)).value.accepted;
        SaidSettled([], ids, kind);
        assert [] + V.Reports(ids) + [V.Prompt] == V.Reports(ids) + [V.Prompt];
      case Received(Rejected(_, sequence, reason)) =>
        CodeOfReason(reason);
        var refusal := V.ShareRefused(sequence, V.Code(reason), reason);
        SaidSettled([refusal], L.Refuse(s.ledger, sequence).value.accepted, kind);
        SaidSingle(refusal, kind);
      case Received(Target(_, target)) => SaidNothing(target, kind);
      case _ =>
    }
  }

  lemma {:induction false} SaidInRun(user: Bytes, rate: u32, fed: seq<V.Input>, kind: Kind)
    requires V.Run(V.Start(user, rate), fed).Some? && kind != Good
    ensures Said(V.Run(V.Start(user, rate), fed).value.replies, kind) == Refusals(fed, kind == Stale)
  {
    if fed != [] {
      hide V.React, Said, IsRefusal;
      var a, i := fed[..|fed| - 1], fed[|fed| - 1];
      SaidInRun(user, rate, a, kind);
      var t := V.Run(V.Start(user, rate), a).value;
      SaidByInput(t.state, i, kind);
      SaidJoin(t.replies, V.React(t.state, i).value.replies, kind);
    } else {
      SaidNothing(V.Start(user, rate).target, kind);
    }
  }

  lemma {:induction false} AcceptedSaid(rs: seq<V.Reply>)
    ensures |V.AcceptedIds(rs)| == Said(rs, Good)
  {
    if rs != [] {
      var front, last := rs[..|rs| - 1], rs[|rs| - 1];
      AcceptedSaid(front);
      SaidJoin(front, [last], Good);
      SaidSingle(last, Good);
      assert rs == front + [last];
    }
  }

  lemma {:induction false} AcknowledgedIsTotal(fed: seq<V.Input>)
    ensures L.TotalCount(L.Acks(V.ShareEvents(fed))) == Acknowledged(fed)
  {
    if fed != [] {
      var a, i := fed[..|fed| - 1], fed[|fed| - 1];
      AcknowledgedIsTotal(a);
      OneEvent(V.ShareEvents(a), i);
    }
  }

  lemma OneEvent(es: seq<L.Event>, i: V.Input)
    ensures L.TotalCount(L.Acks(es + V.ShareEvent(i)))
            == L.TotalCount(L.Acks(es)) + if i.Received? && i.message.Accepted? then i.message.count else 0
  {
    if V.ShareEvent(i) == [] {
      assert es + [] == es;
    } else {
      var e := V.ShareEvent(i)[0];
      L.Extend(es, e);
      hide L.Acks, L.Run, L.SentIds, L.RefusedIds;
      if e.Acked? {
        L.TotalCountSplit(L.Acks(es), [e.batch]);
        assert [e.batch][..0] == [];
      }
    }
  }

  /**
    Between two iterations of an SV2 connection its counters are what the pool's messages add up to: stale
    and rejected count the refusals with and without one of the three stale reasons, accepted the sum of the
    acknowledged counts but for the batches whose shares are not all resolved yet.
   */
  lemma CountersAreMessages(user: Bytes, rate: u32, batches: seq<u32>, steps: seq<Step>, m: State)
    requires Reaches(true, user, rate, batches, steps, m) && m.phase.Reading?
    ensures var fed := H.Fed(Start(true, user, rate, batches), steps);
            && m.link.V2?
            && m.tally.stale == Refusals(fed, true) && m.tally.rejected == Refusals(fed, false)
            && m.tally.accepted + L.TotalCount(m.link.s2.state.ledger.batches) == Acknowledged(fed)
  {
    var fed := H.Fed(Start(true, user, rate, batches), steps);
    H.SessionOfRun(true, user, rate, batches, steps);
    RunHeeds(user, rate, batches, steps, Good);
    RunHeeds(user, rate, batches, steps, Stale);
    RunHeeds(user, rate, batches, steps, Bad);
    SaidNothing(Zeros(32), Good);
    SaidNothing(Zeros(32), Stale);
    SaidNothing(Zeros(32), Bad);
    SaidInRun(user, rate, fed, Stale);
    SaidInRun(user, rate, fed, Bad);
    V.SharesConserved(user, rate, fed);
    AcknowledgedIsTotal(fed);
    AcceptedSaid(m.link.s2.replies);
    hide Run, V.Run, Said, Refusals, Acknowledged, V.AcceptedIds, H.Fed, H.Heard, L.TotalCount, V.ShareEvents, L.Acks;
    var t := m.link.s2;
    var es := V.ShareEvents(fed);
    L.Ordering.SortedElements(L.SentIds(es) - L.RefusedIds(es) - t.state.ledger.pending);
  }
}
