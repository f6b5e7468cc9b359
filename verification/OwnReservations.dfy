/** The nonces each worker of an SV1 connection searches over a whole run. */
module OwnReservations {
  import opened Base
  import opened Jobs
  import opened Miner
  import Q = Scheduler
  import S1 = Stratum
  import V = Sv2

  /** A batch: its first nonce and how many there are. */
  datatype Stretch = Stretch(start: nat, count: nat)

  /** The batch a step gives worker w for a generation. */
  ghost function StretchOf(n: State, step: Step, w: nat, g: nat): seq<Stretch> {
    if step == Step.Reserve(w) && w < |n.sched.workers| && n.sched.workers[w].task.Some? then
      var t := n.sched.workers[w].task.value;
      if t.job.generation == g then [Stretch(t.start, t.count)] else []
    else []
  }

  /** The batches worker w was given for a generation in a run, in order. */
  ghost function StretchesOf(start: State, steps: seq<Step>, w: nat, g: nat): seq<Stretch> {
    if steps == [] then []
    else
      StretchesOf(start, steps[..|steps| - 1], w, g)
      + match Run(start, steps) case None => [] case Some(n) => StretchOf(n, steps[|steps| - 1], w, g)
  }

  /** The i-th batch of worker w starts i batches into the worker's own 2^56 nonces. */
  ghost predicate InOrder(cs: seq<Stretch>, w: nat, batch: u32) {
    forall i :: 0 <= i < |cs| ==> cs[i] == Stretch(w * 0x100_0000_0000_0000 + i * batch, batch)
  }

  function Held(worker: Q.Worker): nat {
    worker.cursor + if worker.task.Some? then worker.task.value.count else 0
  }

  ghost predicate Marching(worker: Q.Worker, cs: seq<Stretch>, w: nat, g: nat) {
    && InOrder(cs, w, worker.batch)
    && (g == worker.generation ==> |cs| * worker.batch == Held(worker))
    && (g > worker.generation ==> cs == [])
  }

  ghost predicate Marches(m: State, cs: seq<Stretch>, w: nat, g: nat) {
    if w < |m.sched.workers| then Marching(m.sched.workers[w], cs, w, g) else cs == []
  }

  lemma OneMoreStretch(cs: seq<Stretch>, w: nat, batch: u32)
    requires InOrder(cs, w, batch)
    ensures InOrder(cs + [Stretch(w * 0x100_0000_0000_0000 + |cs| * batch, batch)], w, batch)
    ensures (|cs| + 1) * batch == |cs| * batch + batch
  {
  }

  /** What a reservation of an SV1 job does to the worker. */
  lemma OwnOutcome(s: Q.State, w: nat, j: Job)
    requires Q.Idle(s, w) && s.shared.work == Some(j) && !j.sv2
    ensures var u := Q.Reserved(s, w); var started := Q.Starting(s.workers[w], j.generation);
            && |u.workers| == |s.workers|
            && (forall v :: 0 <= v < |s.workers| && v != w ==> u.workers[v] == s.workers[v])
            && u.workers[w].batch == s.workers[w].batch
            && (u.workers[w].task.None? <==> started.cursor + s.workers[w].batch > 0x100_0000_0000_0000)
            && (u.workers[w].task.None? ==> u == Q.Failed(s, w))
            && (u.workers[w].task.Some? ==>
                  && u.workers[w] == started.(task := u.workers[w].task)
                  && var t := u.workers[w].task.value;
                     t.job == j && t.count == s.workers[w].batch
                     && t.start == w * 0x100_0000_0000_0000 + started.cursor)
  {
  }

  lemma WorkerMarches(worker: Q.Worker, cs: seq<Stretch>, w: nat, g: nat, j: Job, next: Q.Worker)
    requires Marching(worker, cs, w, g) && worker.task.None? && worker.generation <= j.generation
    requires next.task.Some? && next == Q.Starting(worker, j.generation).(task := next.task)
    requires var t := next.task.value; var started := Q.Starting(worker, j.generation);
             t.job == j && t.count == worker.batch && t.start == w * 0x100_0000_0000_0000 + started.cursor
    ensures Marching(next, cs + if j.generation == g then [Stretch(next.task.value.start, next.task.value.count)] else [],
                     w, g)
  {
    assert cs + [] == cs;
    if j.generation == g {
      OneMoreStretch(cs, w, worker.batch);
    }
  }

  lemma FailedMarches(worker: Q.Worker, cs: seq<Stretch>, w: nat, g: nat)
    requires Marching(worker, cs, w, g)
    ensures Marching(worker.(stopped := true), cs, w, g)
  {
  }

  lemma FinishedMarches(worker: Q.Worker, cs: seq<Stretch>, w: nat, g: nat, next: Q.Worker)
    requires Marching(worker, cs, w, g) && worker.task.Some?
    requires next == worker.(cursor := worker.cursor + worker.task.value.count, task := None, stopped := next.stopped)
    ensures Marching(next, cs, w, g)
  {
  }

  /** Before it reserves, a worker's clock is not ahead of the published job, which is an SV1 job. */
  lemma ClockIsBehind(m: State, w: nat, j: Job)
    requires Inv(m) && m.link.V1? && m.sched.shared.work == Some(j) && w < |m.sched.workers|
    ensures !j.sv2 && m.sched.workers[w].generation <= j.generation
  {
    hide LinkSound, Books, InStep, IssuedFrom, Q.FindsOk, Q.TasksOk;
    assert Q.Clocks(false, m.sched)[w].generation == m.sched.workers[w].generation;
    hide Q.BookOf;
  }

  lemma ReserveMarches(m: State, n: State, v: nat, cs: seq<Stretch>, w: nat, g: nat)
    requires Inv(m) && m.link.V1? && Marches(m, cs, w, g) && Q.Idle(m.sched, v) && n.sched == Q.Reserved(m.sched, v)
    ensures Marches(n, cs + StretchOf(n, Step.Reserve(v), w, g), w, g)
  {
    hide Inv, Marching, Q.Reserved, Q.Starting;
    assert cs + [] == cs;
    if m.sched.shared.work.None? {
      NothingPublishedYet(m.sched, v);
    } else {
      var j := m.sched.shared.work.value;
      ClockIsBehind(m, v, j);
      OwnOutcome(m.sched, v, j);
      if w == v {
        if n.sched.workers[w].task.None? {
          FailedMarches(m.sched.workers[w], cs, w, g);
        } else {
          WorkerMarches(m.sched.workers[w], cs, w, g, j, n.sched.workers[w]);
        }
      }
    }
  }

  lemma NothingPublishedYet(s: Q.State, v: nat)
    requires Q.Idle(s, v) && s.shared.work.None?
    ensures Q.Reserved(s, v) == s && s.workers[v].task.None?
  {
  }

  lemma FinishMarches(m: State, v: nat, nonces: seq<u64>, cs: seq<Stretch>, w: nat, g: nat)
    requires Q.Busy(m.sched, v) && Marches(m, cs, w, g)
    ensures Marches(m.(sched := Q.Finished(m.sched, v, nonces)), cs, w, g)
  {
    hide Marching, Q.FindsOf;
    if w == v {
      FinishedMarches(m.sched.workers[w], cs, w, g, Q.Finished(m.sched, v, nonces).workers[w]);
    }
  }

  lemma CrashMarches(m: State, v: nat, cs: seq<Stretch>, w: nat, g: nat)
    requires v < |m.sched.workers| && Marches(m, cs, w, g)
    ensures Marches(m.(sched := Q.Failed(m.sched, v)), cs, w, g)
  {
    hide Marching;
    if w == v {
      FailedMarches(m.sched.workers[w], cs, w, g);
    }
  }

  lemma HandlingStays(m: State)
    ensures m.phase.Replies? && m.phase.rs != [] && m.link.V2? ==>
              HandleReply(m).value.sched.workers == m.sched.workers
    ensures m.phase.Items? && m.phase.items != [] && m.link.V1? && HandleItem(m).Some? ==>
              HandleItem(m).value.sched.workers == m.sched.workers
  {
    hide Count, S1.Next;
  }

  /** Only the workers' own steps touch the workers. */
  lemma WorkersStay(m: State, step: Step)
    requires Next(m, step).Some? && !step.Reserve? && !step.Finish? && !step.Crash?
    ensures Next(m, step).value.sched.workers == m.sched.workers
  {
    HandlingStays(m);
    hide HandleReply, HandleItem, Solved, V.Next, ReadMessages, ValidJob;
  }

  lemma WorkerSteps(m: State, step: Step)
    requires Next(m, step).Some?
    ensures step.Reserve? ==>
              Q.Idle(m.sched, step.worker) && Next(m, step).value == m.(sched := Q.Reserved(m.sched, step.worker))
    ensures step.Finish? ==>
              && Q.Busy(m.sched, step.worker)
              && Next(m, step).value == m.(sched := Q.Finished(m.sched, step.worker, step.nonces))
    ensures step.Crash? ==>
              step.worker < |m.sched.workers| && Next(m, step).value == m.(sched := Q.Failed(m.sched, step.worker))
  {
    hide Q.Scanned, Q.Reserved, Q.Finished, Q.Failed, Q.Idle, Q.Busy;
  }

  lemma NoStretch(n: State, step: Step, w: nat, g: nat)
    ensures !step.Reserve? ==> StretchOf(n, step, w, g) == []
  {
  }

  lemma StepMarches(m: State, step: Step, cs: seq<Stretch>, w: nat, g: nat)
    requires Inv(m) && m.link.V1? && Next(m, step).Some? && Marches(m, cs, w, g)
    ensures Marches(Next(m, step).value, cs + StretchOf(Next(m, step).value, step, w, g), w, g)
  {
    hide Inv, Marches, Next, StretchOf, Q.Reserved, Q.Finished, Q.Failed, Q.Idle, Q.Busy;
    assert cs + [] == cs;
    WorkerSteps(m, step);
    NoStretch(Next(m, step).value, step, w, g);
    match step {
      case Reserve(v) => ReserveMarches(m, Next(m, step).value, v, cs, w, g);
      case Finish(v, nonces) => FinishMarches(m, v, nonces, cs, w, g);
      case Crash(v) => CrashMarches(m, v, cs, w, g);
      case _ =>
        WorkersStay(m, step);
        SameWorkers(m, Next(m, step).value, cs, w, g);
    }
  }

  lemma SameWorkers(m: State, n: State, cs: seq<Stretch>, w: nat, g: nat)
    requires n.sched.workers == m.sched.workers && Marches(m, cs, w, g)
    ensures Marches(n, cs, w, g)
  {
  }

  lemma {:induction false} RunMarches(user: Bytes, rate: u32, batches: seq<u32>, steps: seq<Step>, w: nat, g: nat)
    requires |batches| <= Q.MAX_WORKERS && Run(Start(false, user, rate, batches), steps).Some?
    ensures var start := Start(false, user, rate, batches); var m := Run(start, steps).value;
            m.link.V1? && Marches(m, StretchesOf(start, steps, w, g), w, g)
  {
    var start := Start(false, user, rate, batches);
    if steps != [] {
      hide Next, Marches, Inv, StretchOf;
      var a, step := steps[..|steps| - 1], steps[|steps| - 1];
      RunMarches(user, rate, batches, a, w, g);
      RunKeeps(false, user, rate, batches, a);
      StepMarches(Run(start, a).value, step, StretchesOf(start, a, w, g), w, g);
      SameProtocolStep(Run(start, a).value, step);
    }
  }

  lemma SameProtocolStep(m: State, step: Step)
    requires Next(m, step).Some? && m.link.V1?
    ensures Next(m, step).value.link.V1?
  {
    hide Q.Scanned, S1.Next, Solved, V.Next, ReadMessages, ValidJob, Q.FindsOf, Q.Reserved, Q.Finished;
  }

  /**
    In every run of an SV1 connection the i-th batch of worker w for a generation is the nonces from
    w * 2^56 + i * batch on, as many as its batch size: nothing is left out and nothing repeated.
   */
  lemma OwnBatches(user: Bytes, rate: u32, batches: seq<u32>, steps: seq<Step>, m: State, w: nat, g: nat)
    requires Reaches(false, user, rate, batches, steps, m) && w < |m.sched.workers|
    ensures InOrder(StretchesOf(Start(false, user, rate, batches), steps, w, g), w, m.sched.workers[w].batch)
  {
    hide Run, InOrder, StretchesOf;
    RunMarches(user, rate, batches, steps, w, g);
  }

  /** A worker fails to reserve exactly when its next batch would leave its own 2^56 nonces. */
  lemma OwnBatchFails(user: Bytes, rate: u32, batches: seq<u32>, steps: seq<Step>, m: State, w: nat)
    requires Reaches(false, user, rate, batches, steps, m) && Q.Idle(m.sched, w) && m.sched.shared.work.Some?
    ensures var k := |StretchesOf(Start(false, user, rate, batches), steps, w, m.sched.shared.work.value.generation)|;
            Q.Reserved(m.sched, w).workers[w].task.None?
            <==> (k + 1) * m.sched.workers[w].batch > 0x100_0000_0000_0000
  {
    hide Run, StretchesOf, Inv, Q.Reserved, Marching, Q.Starting;
    var j := m.sched.shared.work.value;
    RunMarches(user, rate, batches, steps, w, j.generation);
    RunKeeps(false, user, rate, batches, steps);
    ClockIsBehind(m, w, j);
    OwnOutcome(m.sched, w, j);
    MarchedTo(m.sched.workers[w], StretchesOf(Start(false, user, rate, batches), steps, w, j.generation), w, j.generation);
  }

  lemma MarchedTo(worker: Q.Worker, cs: seq<Stretch>, w: nat, g: nat)
    requires Marching(worker, cs, w, g) && worker.task.None? && worker.generation <= g
    ensures Q.Starting(worker, g).cursor + worker.batch == (|cs| + 1) * worker.batch
  {
  }
}
