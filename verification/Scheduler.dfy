/**
  The shared scheduler: workers reserve search space and queue what they find under one mutex, the
  connection thread publishes jobs, takes the finds and submits them. Every function is one atomic step.
 */
module Scheduler {
  import opened Base
  import opened Jobs
  import opened Scan
  import opened Coin
  import opened NoncePartition
  import C = Claims

  /** A batch being scanned; position is where its start lies in the lane's search space. */
  datatype Task = Task(job: Job, start: u64, count: u32, position: nat)

  datatype Worker = Worker(batch: u32, generation: nat, cursor: nat, task: Option<Task>, stopped: bool)

  /** A solution on its way to submission, with the lane and position it came from. */
  datatype Find = Find(job: Job, nonce: u64, lane: nat, position: nat)

  datatype Shared = Shared(work: Option<Job>, found: seq<Find>, failure: bool, cursor: nat, generation: nat)

  datatype State = State(shared: Shared, workers: seq<Worker>, queue: seq<Find>, sent: seq<Find>)

  const MAX_FOUND := 8192
  const MAX_WORKERS := 192

  // ---------- Steps ----------

  function Published(s: State, j: Job): State {
    s.(shared := s.shared.(work := Some(j)))
  }

  /** The job a worker scans in an SV2 batch: only the time field differs. */
  function Timed(j: Job, time: u32): Job {
    j.(time32 := time, work := Work(WithTime(j.work.header, time), j.work.target))
  }

  /** The reservation made under the mutex: the shared cursor starts over for a new generation. */
  function Reserving(sh: Shared, j: Job): Shared {
    if sh.generation != j.generation then sh.(generation := j.generation, cursor := 0) else sh
  }

  function Starting(w: Worker, generation: nat): Worker {
    if w.generation != generation then w.(generation := generation, cursor := 0) else w
  }

  function Failed(s: State, w: nat): State
    requires w < |s.workers|
  {
    s.(shared := s.shared.(failure := true), workers := s.workers[w := s.workers[w].(stopped := true)])
  }

  function ReservedShared(s: State, w: nat, j: Job): State
    requires w < |s.workers|
  {
    var sh := Reserving(s.shared, j);
    var p := Partition(j.time32, 0, sh.cursor, s.workers[w].batch);
    if p.Failure? then Failed(s.(shared := sh), w)
    else
      var task := Task(Timed(j, p.value.ntime), p.value.nonce, p.value.count, sh.cursor);
      s.(shared := sh.(cursor := sh.cursor + p.value.count),
         workers := s.workers[w := Starting(s.workers[w], j.generation).(task := Some(task))])
  }

  function ReservedOwn(s: State, w: nat, j: Job): State
    requires w < |s.workers| <= MAX_WORKERS
  {
    var worker := Starting(s.workers[w], j.generation);
    if worker.cursor > SPACE - worker.batch then Failed(s, w)
    else
      var task := Task(j, w * SPACE + worker.cursor, worker.batch, worker.cursor);
      s.(workers := s.workers[w := worker.(task := Some(task))])
  }

  predicate Idle(s: State, w: nat) {
    w < |s.workers| <= MAX_WORKERS && s.workers[w].task.None? && !s.workers[w].stopped
  }

  /** Worker w reserves its next batch of the published job. */
  function Reserved(s: State, w: nat): State
    requires Idle(s, w)
  {
    match s.shared.work
    case None => s
    case Some(j) => if j.sv2 then ReservedShared(s, w, j) else ReservedOwn(s, w, j)
  }

  predicate Busy(s: State, w: nat) {
    w < |s.workers| && s.workers[w].task.Some? && !s.workers[w].stopped
  }

  /** A backend returns every hit of the batch once, in some order. */
  ghost predicate Scanned(t: Task, nonces: seq<u64>) {
    && 0 < t.count && t.start + t.count <= 0x1_0000_0000_0000_0000
    && multiset(nonces) == multiset(Hits(t.job.work, t.start, t.count))
  }

  function FindsOf(t: Task, lane: nat, nonces: seq<u64>): (fs: seq<Find>)
    ensures |fs| == |nonces|
  {
    seq(|nonces|, i requires 0 <= i < |nonces| =>
      Find(t.job, nonces[i], lane, t.position + (if nonces[i] >= t.start then nonces[i] - t.start else 0)))
  }

  /** Worker w finishes its batch and queues the hits, unless the queue would overflow. */
  function Finished(s: State, w: nat, nonces: seq<u64>): State
    requires Busy(s, w)
  {
    var worker := s.workers[w];
    var t := worker.task.value;
    var advanced := worker.(cursor := worker.cursor + t.count, task := None);
    var u := s.(workers := s.workers[w := advanced]);
    if |s.shared.found| + |nonces| > MAX_FOUND then Failed(u, w)
    else u.(shared := s.shared.(found := s.shared.found + FindsOf(t, if t.job.sv2 then 0 else w, nonces)))
  }

  /** The main thread swaps the shared queue for its own, which is empty at that point. */
  function Taken(s: State): State {
    s.(queue := s.queue + s.shared.found, shared := s.shared.(found := []))
  }

  function Dropped(s: State): State
    requires s.queue != []
  {
    s.(queue := s.queue[1..])
  }

  function Sent(s: State): State
    requires s.queue != []
  {
    s.(sent := s.sent + [s.queue[0]], queue := s.queue[1..])
  }

  // ---------- The invariant ----------

  /** Everything found so far that was not dropped, oldest first. */
  function All(s: State): seq<Find> {
    s.sent + s.queue + s.shared.found
  }

  function SlotOf(f: Find): C.Slot {
    C.Slot(f.job.generation, f.lane, f.position)
  }

  function Slots(fs: seq<Find>): (items: seq<C.Slot>)
    ensures |items| == |fs| && forall i :: 0 <= i < |fs| ==> items[i] == SlotOf(fs[i])
  {
    seq(|fs|, i requires 0 <= i < |fs| => SlotOf(fs[i]))
  }

  function LaneOf(sv2: bool, w: nat): nat {
    if sv2 then 0 else w
  }

  function SpanOf(sv2: bool, w: nat, worker: Worker): Option<C.Span> {
    match worker.task
    case None => None
    case Some(t) => Some(C.Span(t.job.generation, LaneOf(sv2, w), t.position, t.position + t.count))
  }

  function Spans(sv2: bool, workers: seq<Worker>): (spans: seq<Option<C.Span>>)
    ensures |spans| == |workers|
    ensures forall w :: 0 <= w < |workers| ==> spans[w] == SpanOf(sv2, w, workers[w])
  {
    seq(|workers|, w requires 0 <= w < |workers| => SpanOf(sv2, w, workers[w]))
  }

  function OwnClock(worker: Worker): C.Clock {
    C.Clock(worker.generation, worker.cursor + if worker.task.Some? then worker.task.value.count else 0)
  }

  function OwnClocks(workers: seq<Worker>): (clocks: seq<C.Clock>)
    ensures |clocks| == |workers|
    ensures forall w :: 0 <= w < |workers| ==> clocks[w] == OwnClock(workers[w])
  {
    seq(|workers|, w requires 0 <= w < |workers| => OwnClock(workers[w]))
  }

  function Clocks(sv2: bool, s: State): seq<C.Clock> {
    if sv2 then [C.Clock(s.shared.generation, s.shared.cursor)] else OwnClocks(s.workers)
  }

  function BookOf(sv2: bool, s: State): C.Book {
    C.Book(Clocks(sv2, s), Slots(All(s)), Spans(sv2, s.workers))
  }

  /** The job scanned at a position of a lane of a generation. */
  function JobAt(sv2: bool, j: Job, position: nat): Job {
    if sv2 then Timed(j, TimeAt(j.time32, 0, position)) else j
  }

  function NonceOf(sv2: bool, lane: nat, position: nat): nat {
    if sv2 then position % NONCES else lane * SPACE + position
  }

  predicate FindOk(sv2: bool, issued: map<nat, Job>, f: Find) {
    var g := f.job.generation;
    && g in issued && f.position < SPACE && f.lane < MAX_WORKERS && (sv2 ==> f.lane == 0)
    && f.job == JobAt(sv2, issued[g], f.position) && f.nonce == NonceOf(sv2, f.lane, f.position)
    && Solves(f.job.work, f.nonce)
  }

  predicate TaskOk(sv2: bool, issued: map<nat, Job>, w: nat, worker: Worker) {
    worker.task.Some? ==>
      var t := worker.task.value; var g := t.job.generation;
      && g in issued && t.job.sv2 == sv2 && w < MAX_WORKERS
      && (t.count > 0 ==> t.position + t.count <= SPACE)
      && (if sv2 then t.start == t.position % NONCES && (t.count > 0 ==> t.start + t.count <= NONCES)
          else t.start == w * SPACE + t.position && t.position == worker.cursor && g == worker.generation)
      && t.job == JobAt(sv2, issued[g], t.position)
  }

  ghost predicate FindsOk(sv2: bool, issued: map<nat, Job>, fs: seq<Find>) {
    forall i :: 0 <= i < |fs| ==> FindOk(sv2, issued, fs[i])
  }

  ghost predicate TasksOk(sv2: bool, issued: map<nat, Job>, workers: seq<Worker>) {
    forall w :: 0 <= w < |workers| ==> TaskOk(sv2, issued, w, workers[w])
  }

  function Newest(work: Option<Job>): nat {
    match work case None => 0 case Some(j) => j.generation
  }

  ghost predicate Issued(sv2: bool, issued: map<nat, Job>, work: Option<Job>) {
    && (work.Some? ==> work.value.generation in issued && issued[work.value.generation] == work.value)
    && (forall g :: g in issued ==> issued[g].generation == g && issued[g].sv2 == sv2 && g <= Newest(work))
  }

  ghost predicate Current(clocks: seq<C.Clock>, newest: nat) {
    forall lane :: 0 <= lane < |clocks| ==> clocks[lane].generation <= newest
  }

  ghost predicate Inv(sv2: bool, issued: map<nat, Job>, s: State) {
    && |s.workers| <= MAX_WORKERS
    && C.Sound(BookOf(sv2, s))
    && Issued(sv2, issued, s.shared.work)
    && Current(Clocks(sv2, s), Newest(s.shared.work))
    && FindsOk(sv2, issued, All(s))
    && TasksOk(sv2, issued, s.workers)
  }

  // ---------- Each step keeps the invariant ----------

  predicate Newer(sv2: bool, work: Option<Job>, j: Job) {
    j.sv2 == sv2 && (work.Some? ==> j.generation > work.value.generation || j == work.value)
  }

  lemma StillFound(sv2: bool, issued: map<nat, Job>, j: Job, fs: seq<Find>)
    requires FindsOk(sv2, issued, fs) && (j.generation in issued ==> issued[j.generation] == j)
    ensures FindsOk(sv2, issued[j.generation := j], fs)
  {
    hide JobAt, Solves;
    forall i | 0 <= i < |fs|
      ensures FindOk(sv2, issued[j.generation := j], fs[i])
    {
      assert FindOk(sv2, issued, fs[i]);
    }
  }

  lemma StillScanning(sv2: bool, issued: map<nat, Job>, j: Job, workers: seq<Worker>)
    requires TasksOk(sv2, issued, workers) && (j.generation in issued ==> issued[j.generation] == j)
    ensures TasksOk(sv2, issued[j.generation := j], workers)
  {
    hide JobAt;
    forall w | 0 <= w < |workers|
      ensures TaskOk(sv2, issued[j.generation := j], w, workers[w])
    {
      assert TaskOk(sv2, issued, w, workers[w]);
    }
  }

  lemma StillIssued(sv2: bool, issued: map<nat, Job>, work: Option<Job>, j: Job)
    requires Issued(sv2, issued, work) && Newer(sv2, work, j)
    requires work.None? ==> issued == map[]
    ensures Issued(sv2, issued[j.generation := j], Some(j)) && Newest(work) <= j.generation
    ensures j.generation in issued ==> issued[j.generation] == j
  {
  }

  lemma PublishKeeps(sv2: bool, issued: map<nat, Job>, s: State, j: Job)
    requires Inv(sv2, issued, s) && Newer(sv2, s.shared.work, j) && (s.shared.work.None? ==> issued == map[])
    ensures Inv(sv2, issued[j.generation := j], Published(s, j))
  {
    StillIssued(sv2, issued, s.shared.work, j);
    StillFound(sv2, issued, j, All(s));
    StillScanning(sv2, issued, j, s.workers);
  }

  lemma FailKeeps(sv2: bool, issued: map<nat, Job>, s: State, w: nat)
    requires Inv(sv2, issued, s) && w < |s.workers|
    ensures Inv(sv2, issued, Failed(s, w)) && BookOf(sv2, Failed(s, w)) == BookOf(sv2, s)
  {
    hide C.Sound, Issued, FindsOk, JobAt;
    var u := Failed(s, w);
    assert Spans(sv2, u.workers) == Spans(sv2, s.workers);
    assert Clocks(sv2, u) == Clocks(sv2, s);
    assert TasksOk(sv2, issued, u.workers) by {
      forall v | 0 <= v < |u.workers|
        ensures TaskOk(sv2, issued, v, u.workers[v])
      {
        assert TaskOk(sv2, issued, v, s.workers[v]);
      }
    }
  }

  lemma AllMoves(s: State)
    ensures All(Taken(s)) == All(s)
    ensures s.queue != [] ==> All(Sent(s)) == All(s)
    ensures s.queue != [] ==>
              (|s.sent| < |All(s)| && All(Dropped(s)) == All(s)[..|s.sent|] + All(s)[|s.sent| + 1..])
  {
    if s.queue != [] {
      assert s.queue == [s.queue[0]] + s.queue[1..];
    }
  }

  lemma TakeKeeps(sv2: bool, issued: map<nat, Job>, s: State)
    requires Inv(sv2, issued, s)
    ensures Inv(sv2, issued, Taken(s)) && All(Taken(s)) == All(s)
  {
    AllMoves(s);
  }

  lemma SendKeeps(sv2: bool, issued: map<nat, Job>, s: State)
    requires Inv(sv2, issued, s) && s.queue != []
    ensures Inv(sv2, issued, Sent(s)) && All(Sent(s)) == All(s)
  {
    AllMoves(s);
  }

  lemma DropFinds(sv2: bool, issued: map<nat, Job>, fs: seq<Find>, k: nat)
    requires FindsOk(sv2, issued, fs) && k < |fs|
    ensures FindsOk(sv2, issued, fs[..k] + fs[k + 1..])
    ensures Slots(fs[..k] + fs[k + 1..]) == Slots(fs)[..k] + Slots(fs)[k + 1..]
  {
    hide FindOk;
    var gs := fs[..k] + fs[k + 1..];
    assert forall i :: 0 <= i < |gs| ==> gs[i] == fs[if i < k then i else i + 1];
  }

  lemma DropKeeps(sv2: bool, issued: map<nat, Job>, s: State)
    requires Inv(sv2, issued, s) && s.queue != []
    ensures Inv(sv2, issued, Dropped(s))
  {
    var k := |s.sent|;
    AllMoves(s);
    DropFinds(sv2, issued, All(s), k);
    C.RemoveKeeps(BookOf(sv2, s), k);
  }

  // ---------- Reserving ----------

  lemma SpansUpdate(sv2: bool, workers: seq<Worker>, w: nat, worker: Worker)
    requires w < |workers|
    ensures Spans(sv2, workers[w := worker]) == Spans(sv2, workers)[w := SpanOf(sv2, w, worker)]
    ensures OwnClocks(workers[w := worker]) == OwnClocks(workers)[w := OwnClock(worker)]
  {
    hide SpanOf, OwnClock;
  }

  lemma TasksUpdate(sv2: bool, issued: map<nat, Job>, workers: seq<Worker>, w: nat, worker: Worker)
    requires w < |workers| && TasksOk(sv2, issued, workers) && TaskOk(sv2, issued, w, worker)
    ensures TasksOk(sv2, issued, workers[w := worker])
  {
    hide TaskOk;
  }

  lemma CurrentUpdate(clocks: seq<C.Clock>, newest: nat, lane: nat, c: C.Clock)
    requires lane < |clocks| && Current(clocks, newest) && c.generation <= newest
    ensures Current(clocks[lane := c], newest)
  {
  }

  /** Turning the shared cursor to the published job is a turn of the only lane. */
  lemma TurnShared(issued: map<nat, Job>, s: State, j: Job)
    requires Inv(true, issued, s) && s.shared.work == Some(j)
    ensures var u := s.(shared := Reserving(s.shared, j));
            Inv(true, issued, u) && Clocks(true, u) == [C.Clock(j.generation, u.shared.cursor)]
  {
    var u := s.(shared := Reserving(s.shared, j));
    var c := C.Clock(s.shared.generation, s.shared.cursor);
    assert s.shared.generation <= j.generation by {
      assert Clocks(true, s)[0] == c;
    }
    assert BookOf(true, u) == C.Turn(BookOf(true, s), 0, j.generation) by {
      assert [c][0 := C.Forward(c, j.generation)] == [C.Forward(c, j.generation)];
    }
    C.TurnKeeps(BookOf(true, s), 0, j.generation);
    assert Current(Clocks(true, u), j.generation);
  }

  lemma SharedTask(issued: map<nat, Job>, j: Job, cursor: nat, w: nat, worker: Worker)
    requires j.generation in issued && issued[j.generation] == j && j.sv2 && w < MAX_WORKERS
    requires Partition(j.time32, 0, cursor, worker.batch).Success?
    ensures var p := Partition(j.time32, 0, cursor, worker.batch).value;
            TaskOk(true, issued, w, worker.(task := Some(Task(Timed(j, p.ntime), p.nonce, p.count, cursor))))
  {
    CountFits(cursor, worker.batch);
    hide WithTime, TimeAt;
  }

  /** A reservation on the shared cursor. */
  lemma ReserveSharedKeeps(issued: map<nat, Job>, s: State, w: nat, j: Job)
    requires Inv(true, issued, s) && Idle(s, w) && s.shared.work == Some(j) && j.sv2
    ensures Inv(true, issued, ReservedShared(s, w, j))
  {
    hide FindsOk;
    TurnShared(issued, s, j);
    var u := s.(shared := Reserving(s.shared, j));
    assert u.workers == s.workers && u.shared.work == s.shared.work;
    var p := Partition(j.time32, 0, u.shared.cursor, s.workers[w].batch);
    if p.Failure? {
      FailKeeps(true, issued, u, w);
    } else {
      var worker := Starting(s.workers[w], j.generation);
      assert worker.batch == s.workers[w].batch;
      var task := Task(Timed(j, p.value.ntime), p.value.nonce, p.value.count, u.shared.cursor);
      assert j.generation in issued && issued[j.generation] == j;
      assert w < MAX_WORKERS;
      SharedTask(issued, j, u.shared.cursor, w, worker);
      TakeShared(issued, u, w, j, worker, task);
    }
  }

  lemma TakeShared(issued: map<nat, Job>, u: State, w: nat, j: Job, worker: Worker, task: Task)
    requires Inv(true, issued, u) && w < |u.workers| && Newest(u.shared.work) == j.generation
    requires Clocks(true, u) == [C.Clock(j.generation, u.shared.cursor)]
    requires task.position == u.shared.cursor && task.job.generation == j.generation
    requires TaskOk(true, issued, w, worker.(task := Some(task)))
    ensures Inv(true, issued, u.(shared := u.shared.(cursor := u.shared.cursor + task.count),
                                 workers := u.workers[w := worker.(task := Some(task))]))
  {
    hide FindsOk;
    var worker' := worker.(task := Some(task));
    var v := u.(shared := u.shared.(cursor := u.shared.cursor + task.count), workers := u.workers[w := worker']);
    var c := C.Clock(j.generation, u.shared.cursor + task.count);
    SpansUpdate(true, u.workers, w, worker');
    TasksUpdate(true, issued, u.workers, w, worker');
    C.TakeKeeps(BookOf(true, u), w, 0, task.count);
    assert Clocks(true, v) == [c] && u.shared.generation == j.generation;
    assert [C.Clock(j.generation, u.shared.cursor)][0 := c] == [c];
    assert SpanOf(true, w, worker') == Some(C.Span(j.generation, 0, task.position, task.position + task.count));
    assert Current([c], j.generation);
  }

  /** A reservation in the worker's own part of the nonce space. */
  lemma ReserveOwnKeeps(issued: map<nat, Job>, s: State, w: nat, j: Job)
    requires Inv(false, issued, s) && Idle(s, w) && s.shared.work == Some(j) && !j.sv2
    ensures Inv(false, issued, ReservedOwn(s, w, j))
  {
    var worker := Starting(s.workers[w], j.generation);
    assert j.generation in issued && issued[j.generation] == j;
    OwnTask(issued, s, w, j, worker);
    if ReservedOwn(s, w, j) == Failed(s, w) {
      FailKeeps(false, issued, s, w);
    } else {
      var task := ReservedOwn(s, w, j).workers[w].task.value;
      TakeOwn(issued, s, w, j, worker, task);
    }
  }

  lemma OwnTask(issued: map<nat, Job>, s: State, w: nat, j: Job, worker: Worker)
    requires j.generation in issued && issued[j.generation] == j && !j.sv2 && Idle(s, w)
    requires worker == Starting(s.workers[w], j.generation)
    ensures var t := ReservedOwn(s, w, j);
            t != Failed(s, w) ==>
              && |t.workers| == |s.workers| && t.workers[w].task.Some?
              && var task := t.workers[w].task.value;
                 && t == s.(workers := s.workers[w := worker.(task := Some(task))])
                 && task.position == worker.cursor && task.job.generation == j.generation
                 && TaskOk(false, issued, w, worker.(task := Some(task)))
  {
  }

  lemma TakeOwn(issued: map<nat, Job>, s: State, w: nat, j: Job, worker: Worker, task: Task)
    requires Inv(false, issued, s) && w < |s.workers| && s.workers[w].task.None? && s.shared.work == Some(j)
    requires worker == Starting(s.workers[w], j.generation)
    requires task.position == worker.cursor && task.job.generation == j.generation
    requires TaskOk(false, issued, w, worker.(task := Some(task)))
    ensures Inv(false, issued, s.(workers := s.workers[w := worker.(task := Some(task))]))
  {
    hide C.Sound, FindsOk, TasksOk, TaskOk, Issued;
    var worker' := worker.(task := Some(task));
    var v := s.(workers := s.workers[w := worker']);
    var b := BookOf(false, s);
    var clocks, c := OwnClocks(s.workers), C.Clock(j.generation, worker.cursor + task.count);
    assert OwnClock(worker') == c && clocks[w].generation <= j.generation
           && C.Forward(clocks[w], j.generation) == C.Clock(j.generation, worker.cursor);
    SpansUpdate(false, s.workers, w, worker');
    TasksUpdate(false, issued, s.workers, w, worker');
    C.TurnKeeps(b, w, j.generation);
    C.TakeKeeps(C.Turn(b, w, j.generation), w, w, task.count);
    CurrentUpdate(clocks, j.generation, w, c);
    assert clocks[w := C.Clock(j.generation, worker.cursor)][w := c] == clocks[w := c];
    assert SpanOf(false, w, worker') == Some(C.Span(j.generation, w, task.position, task.position + task.count));
  }

  lemma ReserveKeeps(sv2: bool, issued: map<nat, Job>, s: State, w: nat)
    requires Inv(sv2, issued, s) && Idle(s, w)
    ensures Inv(sv2, issued, Reserved(s, w))
  {
    if s.shared.work.Some? {
      var j := s.shared.work.value;
      assert j.sv2 == sv2;
      if sv2 {
        ReserveSharedKeeps(issued, s, w, j);
      } else {
        ReserveOwnKeeps(issued, s, w, j);
      }
    }
  }

  // ---------- Finishing ----------

  function PositionsOf(t: Task, nonces: seq<u64>): (ps: seq<nat>)
    ensures |ps| == |nonces|
  {
    seq(|nonces|, i requires 0 <= i < |nonces| =>
      t.position + (if nonces[i] >= t.start then nonces[i] - t.start else 0))
  }

  lemma {:induction false} AtMostOnce(s: seq<u64>, x: u64)
    requires forall i, k :: 0 <= i < k < |s| ==> s[i] < s[k]
    ensures multiset(s)[x] <= 1
  {
    if s != [] {
      var front, last := s[..|s| - 1], s[|s| - 1];
      assert s == front + [last];
      AtMostOnce(front, x);
      if x == last {
        assert x !in front;
        assert x !in multiset(front);
      }
    }
  }

  lemma Twice(s: seq<u64>, i: nat, k: nat)
    requires i < k < |s| && s[i] == s[k]
    ensures multiset(s)[s[i]] >= 2
  {
    var a, b := s[..k], s[k + 1..];
    assert s == a + [s[k]] + b;
    assert a[i] == s[i];
    assert s[i] in multiset(a);
  }

  predicate HitIn(t: Task, nonce: u64) {
    t.start <= nonce < t.start + t.count && Solves(t.job.work, nonce)
  }

  ghost predicate Reported(t: Task, nonces: seq<u64>) {
    && (forall i :: 0 <= i < |nonces| ==> HitIn(t, nonces[i]))
    && (forall i, k :: 0 <= i < k < |nonces| ==> nonces[i] != nonces[k])
  }

  lemma SameElements(nonces: seq<u64>, hits: seq<u64>)
    requires multiset(nonces) == multiset(hits)
    requires forall i, k :: 0 <= i < k < |hits| ==> hits[i] < hits[k]
    ensures forall i :: 0 <= i < |nonces| ==> nonces[i] in hits
    ensures forall i, k :: 0 <= i < k < |nonces| ==> nonces[i] != nonces[k]
  {
    forall i | 0 <= i < |nonces|
      ensures nonces[i] in hits
    {
      assert nonces[i] in multiset(nonces);
    }
    forall i, k | 0 <= i < k < |nonces|
      ensures nonces[i] != nonces[k]
    {
      if nonces[i] == nonces[k] {
        Twice(nonces, i, k);
        AtMostOnce(hits, nonces[i]);
      }
    }
  }

  /** Every reported nonce is a hit of the batch, and none is reported twice. */
  lemma ReportedOnce(t: Task, nonces: seq<u64>)
    requires Scanned(t, nonces)
    ensures Reported(t, nonces)
  {
    hide Solves;
    var hits := BatchHits(t);
    SameElements(nonces, hits);
  }

  lemma BatchHits(t: Task) returns (hits: seq<u64>)
    requires t.start + t.count <= 0x1_0000_0000_0000_0000
    ensures hits == Hits(t.job.work, t.start, t.count)
    ensures forall x :: x in hits ==> HitIn(t, x)
    ensures forall i, k :: 0 <= i < k < |hits| ==> hits[i] < hits[k]
  {
    hide Hits, Solves;
    HitsMembers(t.job.work, t.start, t.count);
    HitsAscending(t.job.work, t.start, t.count);
    hits := Hits(t.job.work, t.start, t.count);
  }

  /** The job is the same all over a batch. */
  lemma SameJob(sv2: bool, j: Job, position: nat, k: nat)
    requires sv2 ==> position % NONCES + k < NONCES
    ensures JobAt(sv2, j, position + k) == JobAt(sv2, j, position)
    ensures sv2 ==> NonceOf(sv2, 0, position + k) == position % NONCES + k
  {
    if sv2 {
      assert (position + k) / NONCES == position / NONCES && (position + k) % NONCES == position % NONCES + k;
    }
  }

  lemma FindOfHit(sv2: bool, issued: map<nat, Job>, w: nat, worker: Worker, nonce: u64)
    requires TaskOk(sv2, issued, w, worker) && worker.task.Some? && HitIn(worker.task.value, nonce)
    requires nonce >= worker.task.value.start
    ensures var t := worker.task.value;
            FindOk(sv2, issued, Find(t.job, nonce, LaneOf(sv2, w), t.position + (nonce - t.start)))
  {
    hide Solves, JobAt;
    var t := worker.task.value;
    SameJob(sv2, issued[t.job.generation], t.position, nonce - t.start);
  }

  lemma FindsOfHits(sv2: bool, issued: map<nat, Job>, w: nat, worker: Worker, nonces: seq<u64>)
    requires TaskOk(sv2, issued, w, worker) && worker.task.Some? && Reported(worker.task.value, nonces)
    ensures FindsOk(sv2, issued, FindsOf(worker.task.value, LaneOf(sv2, w), nonces))
  {
    hide Solves;
    var t := worker.task.value;
    var fs := FindsOf(t, LaneOf(sv2, w), nonces);
    forall i | 0 <= i < |fs|
      ensures FindOk(sv2, issued, fs[i])
    {
      assert HitIn(t, nonces[i]) && nonces[i] >= t.start;
      FindOfHit(sv2, issued, w, worker, nonces[i]);
    }
  }

  lemma FindsJoin(sv2: bool, issued: map<nat, Job>, a: seq<Find>, b: seq<Find>)
    requires FindsOk(sv2, issued, a) && FindsOk(sv2, issued, b)
    ensures FindsOk(sv2, issued, a + b) && Slots(a + b) == Slots(a) + Slots(b)
  {
    hide FindOk;
  }

  lemma SlotsOfHits(t: Task, lane: nat, nonces: seq<u64>)
    requires Reported(t, nonces)
    ensures var s := C.Span(t.job.generation, lane, t.position, t.position + t.count);
            && Slots(FindsOf(t, lane, nonces)) == C.SlotsAt(s, PositionsOf(t, nonces))
            && C.Inside(s, PositionsOf(t, nonces))
  {
    hide Solves;
  }

  lemma FinishedWorkers(sv2: bool, issued: map<nat, Job>, s: State, w: nat)
    requires Inv(sv2, issued, s) && Busy(s, w)
    ensures var worker := s.workers[w];
            var done := worker.(cursor := worker.cursor + worker.task.value.count, task := None);
            var u := s.(workers := s.workers[w := done]);
            && Clocks(sv2, u) == Clocks(sv2, s) && Spans(sv2, u.workers) == Spans(sv2, s.workers)[w := None]
            && TasksOk(sv2, issued, u.workers)
  {
    var worker := s.workers[w];
    var done := worker.(cursor := worker.cursor + worker.task.value.count, task := None);
    SpansUpdate(sv2, s.workers, w, done);
    assert TaskOk(sv2, issued, w, done) && SpanOf(sv2, w, done) == None && OwnClock(done) == OwnClock(worker);
    TasksUpdate(sv2, issued, s.workers, w, done);
    assert OwnClocks(s.workers)[w := OwnClock(done)] == OwnClocks(s.workers);
  }

  /** Queueing what was found keeps every position unique. */
  lemma FinishKeeps(sv2: bool, issued: map<nat, Job>, s: State, w: nat, nonces: seq<u64>)
    requires Inv(sv2, issued, s) && Busy(s, w) && Scanned(s.workers[w].task.value, nonces)
    ensures Inv(sv2, issued, Finished(s, w, nonces))
  {
    hide C.Sound, Clocks, Scanned;
    var worker := s.workers[w];
    var t := worker.task.value;
    var done := worker.(cursor := worker.cursor + t.count, task := None);
    var u := s.(workers := s.workers[w := done]);
    FinishedWorkers(sv2, issued, s, w);
    assert TaskOk(sv2, issued, w, worker);
    if |s.shared.found| + |nonces| > MAX_FOUND {
      C.LeaveKeeps(BookOf(sv2, s), w);
      assert Inv(sv2, issued, u);
      FailKeeps(sv2, issued, u, w);
    } else {
      var lane := LaneOf(sv2, w);
      var fs := FindsOf(t, lane, nonces);
      var v := u.(shared := u.shared.(found := u.shared.found + fs));
      ReportedOnce(t, nonces);
      FindsOfHits(sv2, issued, w, worker, nonces);
      SlotsOfHits(t, lane, nonces);
      QueueKeeps(sv2, issued, s, u, w, fs, PositionsOf(t, nonces));
      assert v == Finished(s, w, nonces);
    }
  }

  /**
    A finished batch hands in every hit: the queue grows by exactly those nonces, in that order, for the batch's
    job. The worker fails exactly when the queue would exceed 8192, and then nothing is queued.
   */
  lemma FinishQueues(s: State, w: nat, nonces: seq<u64>)
    requires Busy(s, w)
    ensures var (t, u, n) := (s.workers[w].task.value, Finished(s, w, nonces), |s.shared.found|);
            && u == s.(shared := u.shared, workers := u.workers)
            && u.shared == s.shared.(found := u.shared.found, failure := u.shared.failure)
            && u.workers == s.workers[w := u.workers[w]] && u.workers[w].task.None?
            && (u.workers[w].stopped <==> n + |nonces| > 8192)
            && (if n + |nonces| > 8192 then u.shared.failure && u.shared.found == s.shared.found
                else
                  && u.shared.failure == s.shared.failure
                  && |u.shared.found| == n + |nonces| && u.shared.found[..n] == s.shared.found
                  && forall i :: 0 <= i < |nonces| ==> HandedIn(u.shared.found[n + i], t.job, nonces[i]))
  {
  }

  predicate HandedIn(f: Find, j: Job, nonce: u64) {
    f.job == j && f.nonce == nonce
  }

  lemma QueueKeeps(sv2: bool, issued: map<nat, Job>, s: State, u: State, w: nat, fs: seq<Find>, ps: seq<nat>)
    requires Inv(sv2, issued, s) && w < |s.workers| && s.workers[w].task.Some?
    requires u == s.(workers := u.workers) && |u.workers| == |s.workers|
    requires Clocks(sv2, u) == Clocks(sv2, s) && Spans(sv2, u.workers) == Spans(sv2, s.workers)[w := None]
    requires TasksOk(sv2, issued, u.workers) && FindsOk(sv2, issued, fs)
    requires var t := s.workers[w].task.value;
             var span := C.Span(t.job.generation, LaneOf(sv2, w), t.position, t.position + t.count);
             Slots(fs) == C.SlotsAt(span, ps) && C.Inside(span, ps)
    ensures Inv(sv2, issued, u.(shared := u.shared.(found := u.shared.found + fs)))
  {
    hide FindsOk;
    var v := u.(shared := u.shared.(found := u.shared.found + fs));
    assert All(v) == All(s) + fs;
    assert SpanOf(sv2, w, s.workers[w]).Some? && Clocks(sv2, v) == Clocks(sv2, u);
    var t := s.workers[w].task.value;
    assert Spans(sv2, s.workers)[w]
        == Some(C.Span(t.job.generation, LaneOf(sv2, w), t.position, t.position + t.count));
    FindsJoin(sv2, issued, All(s), fs);
    C.ReportKeeps(BookOf(sv2, s), w, ps);
  }

  // ---------- No share twice ----------

  /** What the pool identifies a share by, the job being named by its generation. */
  datatype Key = Key(generation: nat, time: u32, nonce: u64)

  function KeyOf(f: Find): Key {
    Key(f.job.generation, f.job.time32, f.nonce)
  }

  /** Generation, time and nonce determine where in the search space a find came from. */
  lemma KeyDeterminesSlot(sv2: bool, issued: map<nat, Job>, f: Find, g: Find)
    requires FindOk(sv2, issued, f) && FindOk(sv2, issued, g) && KeyOf(f) == KeyOf(g)
    ensures SlotOf(f) == SlotOf(g)
  {
    hide Solves, WithTime;
    var j := issued[f.job.generation];
    if sv2 {
      var a, b := f.position / NONCES, g.position / NONCES;
      assert f.position == a * NONCES + f.position % NONCES && g.position == b * NONCES + g.position % NONCES;
      assert f.job.time32 == (j.time32 + a) % NONCES && g.job.time32 == (j.time32 + b) % NONCES;
      TimeShift(j.time32, a);
      TimeShift(j.time32, b);
    }
  }

  ghost predicate KeysDistinct(fs: seq<Find>) {
    forall i, k :: 0 <= i < k < |fs| ==> KeyOf(fs[i]) != KeyOf(fs[k])
  }

  /** Under the invariant no two finds, submitted or still on their way, are the same share. */
  lemma NoShareTwice(sv2: bool, issued: map<nat, Job>, s: State)
    requires Inv(sv2, issued, s)
    ensures KeysDistinct(All(s)) && KeysDistinct(s.sent)
  {
    var fs := All(s);
    assert |s.sent| <= |fs| && fs[..|s.sent|] == s.sent;
    forall i, k | 0 <= i < k < |fs|
      ensures KeyOf(fs[i]) != KeyOf(fs[k])
    {
      if KeyOf(fs[i]) == KeyOf(fs[k]) {
        assert SlotOf(fs[i]) != SlotOf(fs[k]) by {
          assert BookOf(sv2, s).items[i] == SlotOf(fs[i]) && BookOf(sv2, s).items[k] == SlotOf(fs[k]);
        }
        assert FindOk(sv2, issued, fs[i]) && FindOk(sv2, issued, fs[k]);
        KeyDeterminesSlot(sv2, issued, fs[i], fs[k]);
      }
    }
    forall i, k | 0 <= i < k < |s.sent|
      ensures KeyOf(s.sent[i]) != KeyOf(s.sent[k])
    {
      assert s.sent[i] == fs[i] && s.sent[k] == fs[k];
    }
  }

  function Start(batches: seq<u32>): State {
    State(Shared(None, [], false, 0, 0), seq(|batches|, i requires 0 <= i < |batches| =>
            Worker(batches[i], 0, 0, None, false)), [], [])
  }

  lemma StartSound(sv2: bool, batches: seq<u32>)
    requires |batches| <= MAX_WORKERS
    ensures Inv(sv2, map[], Start(batches))
  {
    hide JobAt, Solves;
  }
}
