/** The search space an SV2 connection hands out over a whole run. */
module Reservations {
  import opened Base
  import opened Jobs
  import opened Miner
  import N = NoncePartition
  import Q = Scheduler

  /** One successful reservation: the batch asked for and the positions given. */
  datatype Claim = Claim(batch: u32, position: nat, count: nat)

  function BatchesOf(cs: seq<Claim>): (bs: seq<u32>)
    ensures |bs| == |cs|
  {
    seq(|cs|, i requires 0 <= i < |cs| => cs[i].batch)
  }

  function RangesOf(cs: seq<Claim>): (rs: seq<(nat, nat)>)
    ensures |rs| == |cs|
  {
    seq(|cs|, i requires 0 <= i < |cs| => (cs[i].position, cs[i].count))
  }

  /** What a step gave out in a generation: a reservation that left its worker with a batch to scan. */
  ghost function ClaimOf(n: State, step: Step, g: nat): seq<Claim> {
    if step.Reserve? && step.worker < |n.sched.workers| && n.sched.workers[step.worker].task.Some? then
      var worker := n.sched.workers[step.worker];
      var t := worker.task.value;
      if t.job.generation == g then [Claim(worker.batch, t.position, t.count)] else []
    else []
  }

  /** All reservations of a generation in a run, in the order they were made. */
  ghost function ClaimsOf(start: State, steps: seq<Step>, g: nat): seq<Claim> {
    if steps == [] then []
    else
      ClaimsOf(start, steps[..|steps| - 1], g)
      + match Run(start, steps) case None => [] case Some(n) => ClaimOf(n, steps[|steps| - 1], g)
  }

  lemma {:induction false} ReserveAppend(cursor: nat, bs: seq<u32>, b: u32)
    requires N.Reserve(cursor, bs).Success?
    ensures var rs := N.Reserve(cursor, bs).value; var p := N.Partition(0, 0, cursor + N.Total(rs), b);
            N.Reserve(cursor, bs + [b])
            == if p.Failure? then Failure else Success(rs + [(cursor + N.Total(rs), p.value.count as nat)])
    decreases |bs|
  {
    hide N.Partition;
    if bs == [] {
      var one := [b];
      assert bs + one == one && one[1..] == [];
      assert N.Reserve(cursor, []) == Success([]) && N.Total([]) == 0;
      var p := N.Partition(0, 0, cursor, b);
      if p.Success? {
        var r := [(cursor, p.value.count as nat)];
        assert r + [] == r && [] + r == r;
      }
    } else {
      var p := N.Partition(0, 0, cursor, bs[0]).value;
      assert (bs + [b])[1..] == bs[1..] + [b];
      ReserveAppend(cursor + p.count, bs[1..], b);
      var rest := N.Reserve(cursor + p.count, bs[1..]).value;
      var first := [(cursor, p.count as nat)];
      var all := first + rest;
      assert all[1..] == rest && (bs + [b])[0] == bs[0];
      var q := N.Partition(0, 0, cursor + p.count + N.Total(rest), b);
      if q.Success? {
        var last := [(cursor + p.count + N.Total(rest), q.value.count as nat)];
        assert first + (rest + last) == all + last;
      }
    }
  }

  lemma {:induction false} TotalAppend(rs: seq<(nat, nat)>, r: (nat, nat))
    ensures N.Total(rs + [r]) == N.Total(rs) + r.1
  {
    if rs == [] {
      assert rs + [r] == [r] && [r][1..] == [];
    } else {
      assert (rs + [r])[1..] == rs[1..] + [r];
      TotalAppend(rs[1..], r);
    }
  }

  /** The reservations of generation g are those of the partition function, up to the shared cursor. */
  ghost predicate Tiled(sh: Q.Shared, cs: seq<Claim>, g: nat) {
    && N.Reserve(0, BatchesOf(cs)) == Success(RangesOf(cs)) && N.Positive(BatchesOf(cs))
    && (g == sh.generation ==> N.Total(RangesOf(cs)) == sh.cursor)
    && (g > sh.generation ==> cs == [])
  }

  lemma TiledTurn(sh: Q.Shared, cs: seq<Claim>, g: nat, j: Job)
    requires Tiled(sh, cs, g) && sh.generation <= j.generation
    ensures Tiled(Q.Reserving(sh, j), cs, g)
  {
    if cs == [] {
      assert RangesOf(cs) == [];
    }
    hide N.Reserve;
  }

  /** The size of a partition does not depend on the base time. */
  lemma SameCount(base: u32, cursor: nat, batch: u32)
    ensures N.Partition(base, 0, cursor, batch).Success? <==> N.Partition(0, 0, cursor, batch).Success?
    ensures N.Partition(base, 0, cursor, batch).Success? ==>
              N.Partition(base, 0, cursor, batch).value.count == N.Partition(0, 0, cursor, batch).value.count && batch > 0
  {
    hide N.TimeAt;
  }

  lemma TiledTake(sh: Q.Shared, cs: seq<Claim>, base: u32, batch: u32)
    requires Tiled(sh, cs, sh.generation) && N.Partition(base, 0, sh.cursor, batch).Success?
    ensures var n := N.Partition(base, 0, sh.cursor, batch).value.count;
            Tiled(sh.(cursor := sh.cursor + n), cs + [Claim(batch, sh.cursor, n)], sh.generation)
  {
    SameCount(base, sh.cursor, batch);
    var n := N.Partition(base, 0, sh.cursor, batch).value.count;
    hide N.Partition;
    var cs' := cs + [Claim(batch, sh.cursor, n)];
    assert BatchesOf(cs') == BatchesOf(cs) + [batch] && RangesOf(cs') == RangesOf(cs) + [(sh.cursor, n as nat)];
    ReserveAppend(0, BatchesOf(cs), batch);
    TotalAppend(RangesOf(cs), (sh.cursor, n as nat));
    hide N.Reserve, N.Total;
  }

  /** Only a reservation moves the shared clock. */
  lemma ClockStays(m: State, step: Step)
    requires !step.Reserve? && Next(m, step).Some?
    ensures var n := Next(m, step).value.sched.shared;
            n.cursor == m.sched.shared.cursor && n.generation == m.sched.shared.generation
  {
    hide Q.Scanned, S1.Next, Solved, V.Next, ReadMessages, ValidJob, Q.FindsOf;
  }

  /** What a reservation of an SV2 job does to the shared state, and the batch it leaves the worker with. */
  lemma ReserveOutcome(s: Q.State, w: nat, j: Job)
    requires Q.Idle(s, w) && s.shared.work == Some(j) && j.sv2
    ensures var u := Q.Reserved(s, w); var sh := Q.Reserving(s.shared, j);
            var p := N.Partition(j.time32, 0, sh.cursor, s.workers[w].batch);
            && |u.workers| == |s.workers| && u.workers[w].batch == s.workers[w].batch
            && (p.Failure? ==> u.shared == sh.(failure := true) && u.workers[w].task.None?)
            && (p.Success? ==>
                  && u.shared == sh.(cursor := sh.cursor + p.value.count)
                  && u.workers[w].task.Some?
                  && var t := u.workers[w].task.value;
                     t.job.generation == j.generation && t.position == sh.cursor && t.count == p.value.count)
  {
    hide N.Partition;
  }

  lemma TiledReserve(s: Q.State, w: nat, j: Job, m: State, cs: seq<Claim>, g: nat)
    requires Q.Idle(s, w) && s.shared.work == Some(j) && j.sv2 && s.shared.generation <= j.generation
    requires m.sched == Q.Reserved(s, w) && Tiled(s.shared, cs, g)
    ensures Tiled(m.sched.shared, cs + ClaimOf(m, Step.Reserve(w), g), g)
  {
    ReserveOutcome(s, w, j);
    hide Q.Reserved, Tiled, N.Partition;
    assert cs + [] == cs;
    TiledTurn(s.shared, cs, g, j);
    var sh := Q.Reserving(s.shared, j);
    var p := N.Partition(j.time32, 0, sh.cursor, s.workers[w].batch);
    if p.Failure? {
      OtherFail(sh, cs, g);
    } else if g == j.generation {
      TiledTake(sh, cs, j.time32, s.workers[w].batch);
    } else {
      OtherTake(sh, cs, g, sh.cursor + p.value.count);
    }
  }

  lemma NothingToReserve(m: State, w: nat, cs: seq<Claim>, g: nat)
    requires Q.Idle(m.sched, w) && m.sched.shared.work.None? && Tiled(m.sched.shared, cs, g)
    ensures Q.Reserved(m.sched, w) == m.sched && ClaimOf(m, Step.Reserve(w), g) == []
  {
    hide Tiled;
  }

  lemma OtherTake(sh: Q.Shared, cs: seq<Claim>, g: nat, cursor: nat)
    requires Tiled(sh, cs, g) && g != sh.generation
    ensures Tiled(sh.(cursor := cursor), cs, g)
  {
    hide N.Reserve;
  }

  lemma OtherFail(sh: Q.Shared, cs: seq<Claim>, g: nat)
    requires Tiled(sh, cs, g)
    ensures Tiled(sh.(failure := true), cs, g)
  {
    hide N.Reserve;
  }

  lemma WorkIsAhead(m: State, j: Job)
    requires Inv(m) && m.link.V2? && m.sched.shared.work == Some(j)
    ensures j.sv2 && m.sched.shared.generation <= j.generation
  {
    hide LinkSound, Books, InStep, IssuedFrom, Q.FindsOk, Q.TasksOk;
    assert Q.Clocks(true, m.sched)[0].generation == m.sched.shared.generation;
    hide Q.BookOf;
  }

  /**
    In every run of an SV2 connection the reservations of a generation, by whichever workers and of
    whatever batch sizes, are the ones the partition function makes in that order from 0; for the current
    generation they end at the shared cursor.
   */
  lemma {:induction false} ReservationsOfRun(user: Bytes, rate: u32, batches: seq<u32>, steps: seq<Step>, g: nat)
    requires |batches| <= Q.MAX_WORKERS && Run(Start(true, user, rate, batches), steps).Some?
    ensures var m := Run(Start(true, user, rate, batches), steps).value;
            m.link.V2? && Tiled(m.sched.shared, ClaimsOf(Start(true, user, rate, batches), steps, g), g)
  {
    var start := Start(true, user, rate, batches);
    if steps == [] {
      assert BatchesOf([]) == [] && RangesOf([]) == [];
    } else {
      var a, step := steps[..|steps| - 1], steps[|steps| - 1];
      ReservationsOfRun(user, rate, batches, a, g);
      RunKeeps(true, user, rate, batches, a);
      var m, n := Run(start, a).value, Run(start, steps).value;
      var cs := ClaimsOf(start, a, g);
      SameLink(m, step);
      if step.Reserve? {
        hide Tiled, ClaimOf;
        assert cs + [] == cs;
        if m.sched.shared.work.None? {
          NothingToReserve(n, step.worker, cs, g);
        } else {
          WorkIsAhead(m, m.sched.shared.work.value);
          TiledReserve(m.sched, step.worker, m.sched.shared.work.value, n, cs, g);
        }
      } else {
        ClockStays(m, step);
        assert cs + [] == cs;
        hide N.Reserve, Inv, Next;
      }
    }
  }

  lemma SameLink(m: State, step: Step)
    requires m.link.V2? && Next(m, step).Some?
    ensures Next(m, step).value.link.V2?
    ensures step.Reserve? ==> Q.Idle(m.sched, step.worker)
  {
    hide Q.Scanned, S1.Next, Solved, V.Next, ReadMessages, ValidJob, Q.FindsOf, Q.Reserved, Q.Finished;
  }

  /**
    So they are end to end from 0, and cover every position below the shared cursor exactly once
    (TiledOnce).
   */
  lemma RunTiles(user: Bytes, rate: u32, batches: seq<u32>, steps: seq<Step>, m: State)
    requires Reaches(true, user, rate, batches, steps, m)
    ensures var rs := RangesOf(ClaimsOf(Start(true, user, rate, batches), steps, m.sched.shared.generation));
            N.EndToEnd(0, rs) && N.Total(rs) == m.sched.shared.cursor <= 0x100_0000_0000_0000
  {
    var g := m.sched.shared.generation;
    ReservationsOfRun(user, rate, batches, steps, g);
    N.ReservationsTile(0, BatchesOf(ClaimsOf(Start(true, user, rate, batches), steps, g)));
    hide Run, ClaimsOf, N.Reserve, N.EndToEnd;
  }

  /** A worker's reservation in the current generation fails exactly when the cursor has reached 2^56. */
  lemma ReservationFailsAtTheEnd(user: Bytes, rate: u32, batches: seq<u32>, steps: seq<Step>, m: State, w: nat)
    requires Reaches(true, user, rate, batches, steps, m) && Q.Idle(m.sched, w) && m.sched.workers[w].batch > 0
    requires m.sched.shared.work.Some? && m.sched.shared.work.value.generation == m.sched.shared.generation
    ensures Q.Reserved(m.sched, w).workers[w].task.None? <==> m.sched.shared.cursor == 0x100_0000_0000_0000
    ensures m.sched.shared.cursor == 0x100_0000_0000_0000 ==> Q.Reserved(m.sched, w).shared.failure
  {
    var j := m.sched.shared.work.value;
    RunTiles(user, rate, batches, steps, m);
    RunKeeps(true, user, rate, batches, steps);
    SameMode(user, rate, batches, steps, m);
    WorkIsAhead(m, j);
    ReserveOutcome(m.sched, w, j);
    hide Inv, Reaches, ClaimsOf, N.EndToEnd, N.TimeAt, Q.Reserved;
  }

  lemma SameMode(user: Bytes, rate: u32, batches: seq<u32>, steps: seq<Step>, m: State)
    requires Reaches(true, user, rate, batches, steps, m)
    ensures m.link.V2?
  {
    hide Run, ClaimsOf, Tiled;
    ReservationsOfRun(user, rate, batches, steps, 0);
  }
}
