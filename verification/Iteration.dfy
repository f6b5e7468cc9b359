/** An iteration of the SV2 loop object is a run of the interleaved model in which no worker steps in between. */
module Iteration {
  import opened Base
  import opened Connection
  import Codec
  import Framing
  import M = Miner
  import Q = Scheduler
  import V = Sv2

  function SnapshotOf(m: M.State): Snapshot
    requires m.link.V2?
  {
    Snapshot(DeskOf(m), m.sched.shared, m.activated, m.draining)
  }

  lemma {:induction false} RunConcat(m: M.State, a: seq<M.Step>, b: seq<M.Step>)
    requires M.Run(m, a).Some?
    ensures M.Run(m, a + b) == M.Run(M.Run(m, a).value, b)
  {
    hide M.Next;
    if b == [] {
      assert a + b == a;
    } else {
      var c := b[..|b| - 1];
      RunConcat(m, a, c);
      assert (a + b)[..|a + b| - 1] == a + c && (a + b)[|a + b| - 1] == b[|b| - 1];
    }
  }

  lemma RunOne(m: M.State, step: M.Step)
    ensures M.Run(m, [step]) == M.Next(m, step)
  {
    hide M.Next;
    assert [step][..0] == [];
  }

  /** One step, then a run from there. */
  lemma StepThen(m: M.State, step: M.Step, rest: seq<M.Step>) returns (steps: seq<M.Step>)
    requires M.Next(m, step).Some?
    ensures M.Run(m, steps) == M.Run(M.Next(m, step).value, rest)
  {
    hide M.Next, M.Run;
    RunOne(m, step);
    RunConcat(m, [step], rest);
    steps := [step] + rest;
  }

  lemma {:induction false} ReadSnoc(t: V.Trace, ms: seq<Codec.Message>, m: Codec.Message)
    ensures M.ReadMessages(t, ms + [m])
            == match M.ReadMessages(t, ms) case None => None case Some(u) => V.Next(u, V.Received(m))
    decreases |ms|
  {
    hide V.Next;
    if ms == [] {
      assert ms + [m] == [m] && [m][1..] == [];
    } else {
      assert (ms + [m])[0] == ms[0] && (ms + [m])[1..] == ms[1..] + [m];
      if V.Next(t, V.Received(ms[0])).Some? {
        ReadSnoc(V.Next(t, V.Received(ms[0])).value, ms[1..], m);
      }
    }
  }

  /** The last of some handled frames. */
  lemma LastFrame(s: V.State, fs: seq<Framing.Frame>)
    requires fs != [] && V.HandleFrames(s, fs).Some?
    ensures V.HandleFrames(s, fs[..|fs| - 1]).Some? && Codec.Decode(fs[|fs| - 1]).Success?
    ensures var r := V.HandleFrames(s, fs[..|fs| - 1]).value; var m := Codec.Decode(fs[|fs| - 1]).value;
            && V.Handle(r.state, m).Some?
            && var q := V.Handle(r.state, m).value;
               V.HandleFrames(s, fs).value == V.Reaction(q.state, r.replies + q.replies, r.frames + q.frames)
  {
    hide Codec.Decode, V.Handle;
  }

  lemma NextOf(t: V.Trace, m: Codec.Message)
    requires V.Handle(t.state, m).Some?
    ensures var q := V.Handle(t.state, m).value; var u := V.Next(t, V.Received(m));
            u.Some? && u.value.state == q.state && u.value.replies == t.replies + q.replies
  {
    hide V.Handle, V.Activated;
  }

  lemma NoFrames(t: V.Trace)
    ensures V.HandleFrames(t.state, []) == Some(V.Reaction(t.state, [], []))
    ensures M.ReadMessages(t, []) == Some(t) && t.replies + [] == t.replies
  {
  }

  /** Frames that are handled carry messages with the same effect. */
  lemma {:induction false} FramesAreMessages(t: V.Trace, fs: seq<Framing.Frame>) returns (ms: seq<Codec.Message>)
    requires V.HandleFrames(t.state, fs).Some?
    ensures var r := V.HandleFrames(t.state, fs).value; var u := M.ReadMessages(t, ms);
            u.Some? && u.value.state == r.state && u.value.replies == t.replies + r.replies
    decreases |fs|
  {
    hide *;
    if fs == [] {
      ms := [];
      NoFrames(t);
    } else {
      LastFrame(t.state, fs);
      var front := fs[..|fs| - 1];
      ms := FramesAreMessages(t, front);
      var m := Codec.Decode(fs[|fs| - 1]).value;
      var u := M.ReadMessages(t, ms).value;
      var r := V.HandleFrames(t.state, front).value;
      ReadSnoc(t, ms, m);
      NextOf(u, m);
      ms := ms + [m];
      assert t.replies + r.replies + V.Handle(u.state, m).value.replies
          == t.replies + (r.replies + V.Handle(u.state, m).value.replies);
    }
  }

  /** The step of one reply. */
  lemma ReplyStep(m: M.State)
    requires m.link.V2? && m.phase.Replies? && m.phase.rs != []
    ensures M.Next(m, M.HandleOne).Some?
    ensures var n := M.Next(m, M.HandleOne).value;
            && n.link == m.link && n.phase == M.Replies(m.phase.rs[1..]) && n.sched.queue == m.sched.queue
            && SnapshotOf(n) == Answer(SnapshotOf(m), m.phase.rs[0])
  {
    hide M.Count, M.SubmitFind, M.HandleItem, Q.Reserved, Q.Finished, Q.Failed, Q.Scanned, M.ReadMessages;
  }

  lemma {:induction false} RepliesRun(m: M.State) returns (steps: seq<M.Step>)
    requires m.link.V2? && m.phase.Replies?
    ensures M.Run(m, steps).Some?
    ensures var n := M.Run(m, steps).value;
            && n.link.V2? && n.phase == M.Replies([]) && n.sched.queue == m.sched.queue
            && SnapshotOf(n) == AnswerAll(SnapshotOf(m), m.phase.rs)
    decreases |m.phase.rs|
  {
    if m.phase.rs == [] {
      steps := [];
    } else {
      ReplyStep(m);
      hide M.Next, M.Run, Answer, SnapshotOf;
      var n := M.Next(m, M.HandleOne).value;
      var rest := RepliesRun(n);
      steps := StepThen(m, M.HandleOne, rest);
    }
  }

  /** Whatever is done with a queued find, the board and the mode stay. */
  lemma FindFrame(m: M.State)
    requires m.link.V2? && m.sched.queue != [] && M.SubmitFind(m).Some?
    ensures var n := M.SubmitFind(m).value;
            && n.link.V2? && n.phase == m.phase && n.sched.queue == m.sched.queue[1..]
            && n.sched.shared == m.sched.shared && n.activated == m.activated && n.draining == m.draining
            && (m.draining ==> DeskOf(n) == DeskOf(m))
  {
    hide M.Solved, M.ValidJob, V.Next;
  }

  lemma SubmitIsNext(m: M.State)
    requires m.phase.Submitting? && m.sched.queue != []
    ensures M.Next(m, M.SubmitOne) == M.SubmitFind(m)
  {
    hide M.SubmitFind;
  }

  /** The step of one queued find. */
  lemma FindStep(m: M.State)
    requires m.link.V2? && m.phase.Submitting? && m.sched.queue != []
    requires !m.draining ==> Offered(DeskOf(m), m.sched.queue[0]).Some?
    ensures M.Next(m, M.SubmitOne).Some?
    ensures var n := M.Next(m, M.SubmitOne).value;
            && n.link.V2? && n.phase.Submitting? && n.sched.queue == m.sched.queue[1..]
            && SnapshotOf(n)
               == SnapshotOf(m).(desk := if m.draining then DeskOf(m)
                                         else Offered(DeskOf(m), m.sched.queue[0]).value)
  {
    SubmitIsNext(m);
    if m.draining {
      assert M.SubmitFind(m).Some?;
    } else {
      SubmitAgrees(m);
    }
    FindFrame(m);
    hide Offered, M.Next, M.SubmitFind;
  }

  lemma {:induction false} FindsRun(m: M.State) returns (steps: seq<M.Step>)
    requires m.link.V2? && m.phase.Submitting?
    requires !m.draining ==> OfferedAll(DeskOf(m), m.sched.queue).Some?
    ensures M.Run(m, steps).Some?
    ensures var n := M.Run(m, steps).value;
            && n.link.V2? && n.phase.Submitting? && n.sched.queue == []
            && SnapshotOf(n)
               == SnapshotOf(m).(desk := if m.draining then DeskOf(m)
                                         else OfferedAll(DeskOf(m), m.sched.queue).value)
    decreases |m.sched.queue|
  {
    hide Offered;
    if m.sched.queue == [] {
      steps := [];
    } else {
      FindStep(m);
      hide M.Next, M.Run;
      var n := M.Next(m, M.SubmitOne).value;
      var rest := FindsRun(n);
      steps := StepThen(m, M.SubmitOne, rest);
    }
  }

  lemma TakeStep(m: M.State)
    requires m.link.V2? && m.phase == M.Replies([]) && m.sched.queue == [] && !m.sched.shared.failure
    ensures M.Next(m, M.TakeFinds).Some?
    ensures var n := M.Next(m, M.TakeFinds).value;
            && n.link == m.link && n.phase.Submitting? && n.sched.queue == m.sched.shared.found
            && SnapshotOf(n) == SnapshotOf(m).(board := m.sched.shared.(found := []))
  {
  }

  lemma ReadStep(m: M.State, ms: seq<Codec.Message>, u: V.Trace, rs: seq<V.Reply>)
    requires m.link.V2? && m.phase.Reading? && M.ReadMessages(m.link.s2, ms) == Some(u)
    requires u.replies == m.link.s2.replies + rs
    ensures M.Next(m, M.ReadV2(ms)).Some?
    ensures M.Next(m, M.ReadV2(ms)).value == m.(link := M.V2(u), phase := M.Replies(rs))
  {
    hide M.ReadMessages;
    assert u.replies[|m.link.s2.replies|..] == rs;
  }

  lemma AgainStep(m: M.State)
    requires m.phase.Submitting? && m.sched.queue == []
    ensures M.Next(m, M.Again) == Some(m.(phase := M.Reading))
  {
  }

  /** Answering replies leaves the finds and the failure mark on the board alone. */
  lemma {:induction false} AnswersKeepBoard(s: Snapshot, rs: seq<V.Reply>)
    ensures var t := AnswerAll(s, rs);
            t.board.found == s.board.found && t.board.failure == s.board.failure && t.draining == s.draining
    decreases |rs|
  {
    if rs != [] {
      AnswersKeepBoard(Answer(s, rs[0]), rs[1..]);
    }
  }

  /**
    Whenever an iteration on a reaction succeeds, the interleaved model has a run - read, answer each
    reply, take the finds, submit each, start over - from the same snapshot to the same snapshot.
   */
  lemma IterationIsARun(m: M.State, fs: seq<Framing.Frame>) returns (steps: seq<M.Step>)
    requires m.link.V2? && m.phase.Reading? && m.sched.queue == []
    requires Iterated(SnapshotOf(m), V.HandleFrames(m.link.s2.state, fs)).Some?
    ensures M.Run(m, steps).Some?
    ensures var n := M.Run(m, steps).value;
            && n.link.V2? && n.phase.Reading? && n.sched.queue == []
            && Iterated(SnapshotOf(m), V.HandleFrames(m.link.s2.state, fs)) == Some(SnapshotOf(n))
  {
    hide M.Next, M.Run, AnswerAll, OfferedAll, V.HandleFrames, M.ReadMessages;
    var r := V.HandleFrames(m.link.s2.state, fs).value;
    var ms := FramesAreMessages(m.link.s2, fs);
    var u := M.ReadMessages(m.link.s2, ms).value;
    ReadStep(m, ms, u, r.replies);
    var m1 := m.(link := M.V2(u), phase := M.Replies(r.replies));
    var s1 := RepliesRun(m1);
    var m2 := M.Run(m1, s1).value;
    TakeStep(m2);
    var m3 := M.Next(m2, M.TakeFinds).value;
    var s3 := FindsRun(m3);
    var m4 := M.Run(m3, s3).value;
    AgainStep(m4);
    RunOne(m4, M.Again);
    RunConcat(m3, s3, [M.Again]);
    var s2 := StepThen(m2, M.TakeFinds, s3 + [M.Again]);
    RunConcat(m1, s1, s2);
    steps := StepThen(m, M.ReadV2(ms), s1 + s2);
  }
}
