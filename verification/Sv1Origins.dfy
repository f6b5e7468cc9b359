/** Where an SV1 job comes from, and what the pool rebuilds from a submission, read off the messages alone. */
module Sv1Origins {
  import opened Base
  import opened Blake2b
  import opened Coin
  import opened Jobs
  import opened Scan
  import opened Stratum
  import Difficulty
  import H = Histories
  import Hex
  import M = Miner
  import Q = Scheduler

  /** A notify with the difficulty and the extranonce announced last before it. */
  datatype Origin = Origin(notify: Message, difficulty: Option<string>, en1: Option<string>)

  function Origins(ms: seq<Message>): seq<Origin> {
    if ms == [] then []
    else
      var a, m := ms[..|ms| - 1], ms[|ms| - 1];
      Origins(a) + if m.Notify? then [Origin(m, LastDifficulty(a), LastExtranonce(a))] else []
  }

  /** The g-th job is the one its messages describe; its extranonce2 is g, least byte first, in hexadecimal. */
  predicate Follows(n: Notice, g: nat, o: Origin) {
    && o.notify.Notify? && o.difficulty.Some? && o.en1.Some?
    && n.clean == o.notify.clean && n.job.generation == g
    && n.job.id == o.notify.id && n.job.ntime == o.notify.ntime && n.job.en2 == Hex.ToHex(LeBytes(g, 8))
    && Success(n.job.work.target) == Difficulty.DifficultyTarget(o.difficulty.value)
    && Success(n.job.networkTarget) == NetworkTarget(o.notify.nbits)
    && Success(n.job.work.header)
       == SiaWork(o.notify.prev, o.notify.c1, o.notify.c2, o.en1.value, n.job.en2, n.job.ntime)
  }

  ghost predicate AllFollow(h: seq<Notice>, os: seq<Origin>) {
    |h| == |os| && forall i :: 0 <= i < |h| ==> Follows(h[i], i + 1, os[i])
  }

  lemma FollowAppend(h: seq<Notice>, os: seq<Origin>, n: Notice, o: Origin)
    requires AllFollow(h, os) && Follows(n, |h| + 1, o)
    ensures AllFollow(h + [n], os + [o])
  {
    hide Follows;
  }

  lemma NotifyFollows(ms: seq<Message>, m: Message)
    requires m.Notify? && Run(ms + [m]).Some?
    ensures Run(ms).Some?
    ensures var h, h' := Run(ms).value.history, Run(ms + [m]).value.history;
            h' == h + [h'[|h|]] && Follows(h'[|h|], |h| + 1, Origin(m, LastDifficulty(ms), LastExtranonce(ms)))
  {
    NotifyUsesStaged(ms, m);
    RunJoin(ms, m);
    CleanIsNoted(Run(ms).value, m);
    hide Run, SiaWork, NetworkTarget, Difficulty.DifficultyTarget, LastDifficulty, LastExtranonce;
  }

  lemma CleanIsNoted(t: Trace, m: Message)
    requires m.Notify? && Next(t, m).Some?
    ensures var h' := Next(t, m).value.history; |h'| > |t.history| && h'[|t.history|].clean == m.clean
  {
    hide SiaWork, NetworkTarget, HasSize, Extranonce2;
  }

  lemma OriginsJoin(a: seq<Message>, m: Message)
    ensures Origins(a + [m])
            == Origins(a) + if m.Notify? then [Origin(m, LastDifficulty(a), LastExtranonce(a))] else []
  {
    hide LastDifficulty, LastExtranonce;
    assert (a + [m])[..|a|] == a;
  }

  lemma OneMoreFollows(a: seq<Message>, m: Message)
    requires Run(a).Some? && AllFollow(Run(a).value.history, Origins(a)) && Run(a + [m]).Some?
    ensures AllFollow(Run(a + [m]).value.history, Origins(a + [m]))
  {
    RunJoin(a, m);
    OriginsJoin(a, m);
    hide AllFollow, Follows, LastDifficulty, LastExtranonce, Next, Origins, Run;
    var h, h' := Run(a).value.history, Run(a + [m]).value.history;
    if m.Notify? {
      NotifyFollows(a, m);
      FollowAppend(h, Origins(a), h'[|h|], Origin(m, LastDifficulty(a), LastExtranonce(a)));
    } else {
      NothingNotified(Run(a).value, m);
      assert Origins(a) + [] == Origins(a);
    }
  }

  /**
    The jobs of a run are determined by its messages alone: one per notify, in order, each built from that notify
    and from the difficulty and the extranonce announced last before it.
   */
  lemma {:induction false} JobsFollowMessages(ms: seq<Message>)
    requires Run(ms).Some?
    ensures AllFollow(Run(ms).value.history, Origins(ms))
  {
    if ms != [] {
      hide Follows, LastDifficulty, LastExtranonce, Next;
      var a, m := ms[..|ms| - 1], ms[|ms| - 1];
      JobsFollowMessages(a);
      assert a + [m] == ms;
      OneMoreFollows(a, m);
    }
  }

  lemma NothingNotified(t: Trace, m: Message)
    requires !m.Notify? && Next(t, m).Some?
    ensures Next(t, m).value.history == t.history
  {
    hide OnExtranonce, Difficulty.DifficultyTarget;
    assert t.history + [] == t.history;
  }

  // ---------- Submissions ----------

  /** The parameters of a submission besides the user. */
  datatype Submission = Submission(id: string, en2: string, ntime: string, nonce: string)

  function SubmissionOf(f: Q.Find): Submission {
    Submission(f.job.id, f.job.en2, f.job.ntime, Hex.ToHex(LeBytes(f.nonce, 8)))
  }

  /**
    The pool's check: with its own notify it rebuilds the header from the submitted texts, and the hash of that
    meets the difficulty it had announced before the notify.
   */
  predicate Accepts(o: Origin, s: Submission) {
    && o.notify.Notify? && o.difficulty.Some? && o.en1.Some? && s.id == o.notify.id && s.ntime == o.notify.ntime
    && var h := SiaWork(o.notify.prev, o.notify.c1, o.notify.c2, o.en1.value, s.en2, s.ntime);
       var nonce := Hex.Unhex(s.nonce);
       var target := Difficulty.DifficultyTarget(o.difficulty.value);
       && h.Success? && nonce.Success? && |nonce.value| == 8 && target.Success?
       && Be(HashOf(h.value[..32] + nonce.value + h.value[40..])) <= Be(target.value)
  }

  lemma SolvedBytes(f: Q.Find)
    requires M.Solved(f)
    ensures var h := f.job.work.header;
            Be(HashOf(h[..32] + LeBytes(f.nonce, 8) + h[40..])) <= Be(f.job.work.target)
  {
    MeetsNumeric(HashOf(WithNonce(f.job.work.header, f.nonce)), f.job.work.target);
    hide HashOf, LeBytes, Be, Meets;
  }

  lemma SolvedIsAccepted(n: Notice, g: nat, o: Origin, f: Q.Find)
    requires Follows(n, g, o) && f.job == n.job && M.Solved(f)
    ensures Accepts(o, SubmissionOf(f))
  {
    hide HashOf, Hex.Unhex, Hex.ToHex, LeBytes, SiaWork, Difficulty.DifficultyTarget, NetworkTarget, Be, M.Solved;
    Hex.UnhexOfHex(LeBytes(f.nonce, 8));
    SolvedBytes(f);
  }

  /** Every share submitted over SV1 passes the pool's check against the notify it was found for. */
  lemma SubmissionsAreAccepted(user: Bytes, rate: u32, batches: seq<u32>, steps: seq<M.Step>, m: M.State, i: nat)
    requires M.Reaches(false, user, rate, batches, steps, m) && i < |m.sched.sent|
    ensures var os := Origins(H.Heard(M.Start(false, user, rate, batches), steps));
            var f := m.sched.sent[i];
            1 <= f.job.generation <= |os| && Accepts(os[f.job.generation - 1], SubmissionOf(f))
  {
    hide HashOf, M.Run, Run, Origins, H.Heard, H.Fed, Follows, Accepts, M.Inv, M.Solved;
    var heard := H.Heard(M.Start(false, user, rate, batches), steps);
    M.RunKeeps(false, user, rate, batches, steps);
    H.SessionOfRun(false, user, rate, batches, steps);
    M.SentIsGenuine(m, i);
    var f := m.sched.sent[i];
    var h := m.link.s1.history;
    JobsFollowMessages(heard);
    SolvedIsAccepted(h[f.job.generation - 1], f.job.generation, Origins(heard)[f.job.generation - 1], f);
  }
}
