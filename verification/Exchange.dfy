/** The mutex-protected objects the workers and the connection thread share, against the scheduler's steps. */
module Exchange {
  import opened Base
  import opened Coin
  import opened Jobs
  import opened NoncePartition
  import opened Scan
  import opened Scheduler

  /** One worker's reservation: what it does to the shared state and to the worker. */
  function ReserveBy(sh: Shared, worker: Worker, index: nat): (Shared, Worker)
    requires index < MAX_WORKERS
  {
    match sh.work
    case None => (sh, worker)
    case Some(j) =>
      if j.sv2 then
        var turned := Reserving(sh, j);
        var p := Partition(j.time32, 0, turned.cursor, worker.batch);
        if p.Failure? then (turned.(failure := true), worker.(stopped := true))
        else
          (turned.(cursor := turned.cursor + p.value.count),
           Starting(worker, j.generation)
           .(task := Some(Task(Timed(j, p.value.ntime), p.value.nonce, p.value.count, turned.cursor))))
      else
        var started := Starting(worker, j.generation);
        if started.cursor > SPACE - started.batch then (sh.(failure := true), worker.(stopped := true))
        else (sh, started.(task := Some(Task(j, index * SPACE + started.cursor, started.batch, started.cursor))))
  }

  function FinishBy(sh: Shared, worker: Worker, index: nat, nonces: seq<u64>): (Shared, Worker)
    requires worker.task.Some?
  {
    var t := worker.task.value;
    var advanced := worker.(cursor := worker.cursor + t.count, task := None);
    if |sh.found| + |nonces| > MAX_FOUND then (sh.(failure := true), advanced.(stopped := true))
    else (sh.(found := sh.found + FindsOf(t, if t.job.sv2 then 0 else index, nonces)), advanced)
  }

  /** The scheduler's steps are these, for the worker concerned. */
  lemma StepsAreLocal(s: State, w: nat, nonces: seq<u64>)
    requires |s.workers| <= MAX_WORKERS && w < |s.workers|
    ensures Idle(s, w) ==> var (sh, worker) := ReserveBy(s.shared, s.workers[w], w);
              Reserved(s, w) == s.(shared := sh, workers := s.workers[w := worker])
    ensures Busy(s, w) ==> var (sh, worker) := FinishBy(s.shared, s.workers[w], w, nonces);
              Finished(s, w, nonces) == s.(shared := sh, workers := s.workers[w := worker])
  {
    hide Partition, Timed, FindsOf;
    assert s.workers[w := s.workers[w]] == s.workers;
  }

  class Board {
    var work: Option<Job>
    var found: seq<Find>
    var failure: bool
    var cursor: nat
    var generation: nat

    ghost function View(): Shared
      reads this
    {
      Shared(work, found, failure, cursor, generation)
    }

    constructor ()
      ensures View() == Shared(None, [], false, 0, 0)
    {
      work, found, failure, cursor, generation := None, [], false, 0, 0;
    }

    method Publish(j: Option<Job>)
      modifies this`work
      ensures View() == old(View()).(work := j)
    {
      work := j;
    }

    /** The locked part of a reservation. */
    method Claim(batch: u32) returns (ok: bool, j: Option<Job>, reserved: nat)
      modifies this`cursor, this`generation
      ensures j == old(work)
      ensures j.Some? && j.value.sv2 ==>
                var turned := Reserving(old(View()), j.value);
                var p := Partition(j.value.time32, 0, turned.cursor, batch);
                && ok == p.Success? && reserved == turned.cursor
                && View() == if p.Success? then turned.(cursor := turned.cursor + p.value.count) else turned
      ensures j.None? || !j.value.sv2 ==> ok && View() == old(View())
    {
      j := work;
      reserved := 0;
      if j.Some? && j.value.sv2 {
        if generation != j.value.generation {
          generation := j.value.generation;
          cursor := 0;
        }
        reserved := cursor;
        var p := Partition(j.value.time32, 0, cursor, batch);
        if p.Failure? {
          return false, j, reserved;
        }
        cursor := cursor + p.value.count;
      }
      return true, j, reserved;
    }

    method Fail()
      modifies this`failure
      ensures View() == old(View()).(failure := true)
    {
      failure := true;
    }

    /** Append to the queue under the lock unless it would overflow. */
    method Queue(finds: seq<Find>) returns (ok: bool)
      modifies this`found
      ensures ok <==> |old(found)| + |finds| <= MAX_FOUND
      ensures View() == if ok then old(View()).(found := old(found) + finds) else old(View())
    {
      ok := |found| + |finds| <= MAX_FOUND;
      if ok {
        found := found + finds;
      }
    }

    /** What the connection thread takes: a failure ends it, otherwise the whole queue is swapped out. */
    method Drain() returns (r: Result<seq<Find>>)
      modifies this`found
      ensures r == if failure then Failure else Success(old(found))
      ensures View() == if failure then old(View()) else old(View()).(found := [])
    {
      if failure {
        return Failure;
      }
      r := Success(found);
      found := [];
    }
  }

  class Thread {
    const index: nat
    const batch: u32
    var generation: nat
    var cursor: nat
    var task: Option<Task>
    var stopped: bool

    ghost function View(): Worker
      reads this
    {
      Worker(batch, generation, cursor, task, stopped)
    }

    constructor (index: nat, batch: u32)
      ensures View() == Worker(batch, 0, 0, None, false) && this.index == index
    {
      this.index, this.batch := index, batch;
      generation, cursor, task, stopped := 0, 0, None, false;
    }

    /** Reserve a batch of the published job, if there is one. */
    method Reserve(board: Board)
      requires index < MAX_WORKERS && task.None? && !stopped
      modifies this, board
      ensures (board.View(), View()) == old(ReserveBy(board.View(), View(), index))
    {
      hide WithTime, TimeAt;
      var ok, j, reserved := board.Claim(batch);
      if !ok {
        board.Fail();
        stopped := true;
        return;
      }
      if j.None? {
        return;
      }
      var job := j.value;
      var started := if job.generation != generation then 0 else cursor;
      if job.sv2 {
        var p := Partition(job.time32, 0, reserved, batch);
        task := Some(Task(Timed(job, p.value.ntime), p.value.nonce, p.value.count, reserved));
      } else if started > SPACE - batch {
        board.Fail();
        stopped := true;
        return;
      } else {
        task := Some(Task(job, index * SPACE + started, batch, started));
      }
      generation, cursor := job.generation, started;
    }

    /** Record a finished batch and queue its hits. */
    method Finish(board: Board, nonces: seq<u64>)
      requires index < MAX_WORKERS && task.Some?
      modifies this, board
      ensures (board.View(), View()) == old(FinishBy(board.View(), View(), index, nonces))
    {
      hide FindsOf;
      var t := task.value;
      cursor := cursor + t.count;
      task := None;
      var ok := board.Queue(FindsOf(t, if t.job.sv2 then 0 else index, nonces));
      if !ok {
        board.Fail();
        stopped := true;
      }
    }
  }
}
