/** SV1 session state: staged difficulty and extranonce, reusable job identifiers, clean epochs. */
module Stratum {
  import opened Base
  import opened Blake2b
  import opened Jobs
  import opened Coin
  import opened Scan
  import Difficulty
  import Hex
  import Targets

  /** A JSON message, by what the state machine distinguishes; anything of the wrong shape is Malformed. */
  datatype Message =
    | SetDifficulty(text: string)
    | SetExtranonce(en1: string, size: int)
    | Notify(id: string, prev: string, c1: string, c2: string, branches: nat, version: string, nbits: string,
             ntime: string, clean: bool)
    | Subscribed(en1: string, size: int)
    | AuthorizeReply(granted: bool)
    | Ignored
    | Malformed

  datatype State = State(en1: string, en2Size: int, nextTarget: Hash, haveTarget: bool, generation: nat, epoch: nat,
                         validIds: map<string, nat>, authorized: bool, current: Option<Job>)

  const MAX_ACTIVE := 1024
  const MAX_ID := 256

  function Start(): State {
    State("", 0, Zeros(32), false, 0, 0, map[], false, None)
  }

  function HasSize(s: string, n: nat): bool {
    var b := Hex.Unhex(s);
    b.Success? && |b.value| == n
  }

  function Extranonce2(generation: nat): string {
    Hex.ToHex(LeBytes(generation, 8))
  }

  function NetworkTarget(nbits: string): Result<Hash> {
    var b :- Hex.Unhex(nbits);
    Targets.CompactTarget(b)
  }

  function OnExtranonce(s: State, en1: string, size: int): Option<State> {
    if HasSize(en1, 4) && size == 8 then Some(s.(en1 := en1, en2Size := size)) else None
  }

  predicate Acceptable(s: State, m: Message)
    requires m.Notify?
  {
    && m.branches == 0 && s.haveTarget && s.en2Size == 8
    && 0 < |m.id| <= MAX_ID && HasSize(m.version, 4) && HasSize(m.nbits, 4)
  }

  /** The state after the clean flag. */
  function Cleaned(s: State, clean: bool): State {
    if clean then s.(epoch := s.epoch + 1, validIds := map[]) else s
  }

  function JobOf(s: State, m: Message, header: Header, network: Hash): Job
    requires m.Notify?
  {
    BLANK.(work := Work(header, s.nextTarget), id := m.id, en2 := Extranonce2(s.generation + 1), ntime := m.ntime,
           generation := s.generation + 1, epoch := s.epoch, networkTarget := network)
  }

  function OnNotify(s: State, m: Message): Option<State>
    requires m.Notify?
  {
    var t := Cleaned(s, m.clean);
    var header := SiaWork(m.prev, m.c1, m.c2, s.en1, Extranonce2(s.generation + 1), m.ntime);
    var network := NetworkTarget(m.nbits);
    if Acceptable(s, m) && |t.validIds| < MAX_ACTIVE && header.Success? && network.Success? then
      var job := JobOf(t, m, header.value, network.value);
      Some(t.(generation := job.generation, validIds := t.validIds[m.id := job.generation], current := Some(job)))
    else None
  }

  /** What one message does; None ends the connection. */
  function Handle(s: State, m: Message): Option<State> {
    match m
    case SetDifficulty(text) =>
      var t := Difficulty.DifficultyTarget(text);
      if t.Success? then Some(s.(nextTarget := t.value, haveTarget := true)) else None
    case SetExtranonce(e, n) => OnExtranonce(s, e, n)
    case Notify(_, _, _, _, _, _, _, _, _) => OnNotify(s, m)
    case Subscribed(e, n) => OnExtranonce(s, e, n)
    case AuthorizeReply(granted) => if granted then Some(s.(authorized := true)) else None
    case Ignored => Some(s)
    case Malformed => None
  }

  predicate Valid(s: State, j: Job) {
    s.authorized && j.epoch == s.epoch && j.id in s.validIds && s.validIds[j.id] == j.generation
  }

  // ---------- The object ----------

  class StratumState {
    var en1: string
    var en2Size: int
    var nextTarget: Hash
    var haveTarget: bool
    var generation: nat
    var epoch: nat
    var validIds: map<string, nat>
    var authorized: bool
    var current: Option<Job>

    ghost function View(): State
      reads this
    {
      State(en1, en2Size, nextTarget, haveTarget, generation, epoch, validIds, authorized, current)
    }

    constructor ()
      ensures View() == Start()
    {
      en1, en2Size, nextTarget, haveTarget, generation, epoch := "", 0, Zeros(32), false, 0, 0;
      validIds, authorized, current := map[], false, None;
    }

    /** The checks made before anything changes; the compact target bytes on success. */
    method Screen(m: Message) returns (nbits: Result<Bytes>)
      requires m.Notify?
      ensures nbits.Success? <==> Acceptable(View(), m)
      ensures nbits.Success? ==> nbits == Hex.Unhex(m.nbits)
    {
      hide Hex.Unhex;
      if m.branches != 0 || !haveTarget || en2Size != 8 || m.id == "" || |m.id| > MAX_ID {
        return Failure;
      }
      var version :- Hex.Decode(m.version);
      var bits :- Hex.Decode(m.nbits);
      if |version| != 4 || |bits| != 4 {
        return Failure;
      }
      return Success(bits);
    }

    method ReceiveNotify(m: Message) returns (r: Result<Job>)
      requires m.Notify?
      modifies this
      ensures match OnNotify(old(View()), m)
              case None => r.Failure?
              case Some(s) => View() == s && s.current.Some? && r == Success(s.current.value)
    {
      hide Hex.Unhex, Hex.ToHex, SiaWork, Targets.CompactTarget, LeBytes;
      var nbits :- Screen(m);
      hide HasSize;
      if m.clean {
        epoch := epoch + 1;
        validIds := map[];
      }
      if |validIds| >= MAX_ACTIVE {
        return Failure;
      }
      generation := generation + 1;
      validIds := validIds[m.id := generation];
      var en2 := Extranonce2(generation);
      var header :- SiaWorkOf(m.prev, m.c1, m.c2, en1, en2, m.ntime);
      var network :- Targets.CompactTargetOf(nbits);
      var job := BLANK.(work := Work(header, nextTarget), id := m.id, en2 := en2, ntime := m.ntime,
                        generation := generation, epoch := epoch, networkTarget := network);
      current := Some(job);
      return Success(job);
    }

    method ReceiveExtranonce(e: string, n: int) returns (ok: bool)
      modifies this`en1, this`en2Size
      ensures match OnExtranonce(old(View()), e, n)
              case None => !ok
              case Some(s) => ok && View() == s
    {
      hide Hex.Unhex;
      var b := Hex.Decode(e);
      if b.Failure? || |b.value| != 4 || n != 8 {
        return false;
      }
      en1 := e;
      en2Size := n;
      return true;
    }

    /** The job is returned for a notify only. */
    method Receive(m: Message) returns (r: Result<Option<Job>>)
      modifies this
      ensures match Handle(old(View()), m)
              case None => r.Failure?
              case Some(s) => View() == s && r == Success(if m.Notify? then s.current else None)
    {
      hide OnNotify, OnExtranonce, Difficulty.DifficultyTarget;
      match m {
        case SetDifficulty(text) =>
          var t :- Difficulty.DifficultyTargetOf(text);
          nextTarget := t;
          haveTarget := true;
        case SetExtranonce(e, n) =>
          var ok := ReceiveExtranonce(e, n);
          if !ok {
            return Failure;
          }
        case Notify(_, _, _, _, _, _, _, _, _) =>
          var j :- ReceiveNotify(m);
          return Success(Some(j));
        case Subscribed(e, n) =>
          var ok := ReceiveExtranonce(e, n);
          if !ok {
            return Failure;
          }
        case AuthorizeReply(granted) =>
          if !granted {
            return Failure;
          }
          authorized := true;
        case Ignored =>
        case Malformed => return Failure;
      }
      return Success(None);
    }

    predicate IsValid(j: Job)
      reads this
      ensures IsValid(j) == Valid(View(), j)
    {
      authorized && j.epoch == epoch && j.id in validIds && validIds[j.id] == j.generation
    }
  }

  // ---------- Whole runs ----------

  /** A job handed out, with its clean flag and the leaf under its root. */
  datatype Notice = Notice(job: Job, clean: bool, leaf: Bytes)

  datatype Trace = Trace(state: State, history: seq<Notice>)

  function LeafOf(s: State, m: Message): Bytes
    requires m.Notify?
  {
    var a, e := Hex.Unhex(m.c1), Hex.Unhex(s.en1);
    if a.Success? && e.Success? then SiaLeaf(a.value, e.value, LeBytes(s.generation + 1, 8)) else []
  }

  function Next(t: Trace, m: Message): Option<Trace> {
    match Handle(t.state, m)
    case None => None
    case Some(s) =>
      Some(Trace(s, t.history + if m.Notify? && s.current.Some?
                                then [Notice(s.current.value, m.clean, LeafOf(t.state, m))] else []))
  }

  function Run(ms: seq<Message>): Option<Trace> {
    if ms == [] then Some(Trace(Start(), []))
    else match Run(ms[..|ms| - 1])
         case None => None
         case Some(t) => Next(t, ms[|ms| - 1])
  }

  /** No later notify was clean or took over the identifier. */
  ghost predicate Latest(h: seq<Notice>, i: nat) {
    forall k :: i < k < |h| ==> Leaves(h, i, k)
  }

  predicate Leaves(h: seq<Notice>, i: nat, k: nat) {
    i < k < |h| && !h[k].clean && h[k].job.id != h[i].job.id
  }

  predicate Listed(ids: map<string, nat>, epoch: nat, j: Job) {
    j.epoch == epoch && j.id in ids && ids[j.id] == j.generation
  }

  ghost predicate Tracked(ids: map<string, nat>, epoch: nat, h: seq<Notice>) {
    forall i :: 0 <= i < |h| ==> Tracks(ids, epoch, h, i)
  }

  ghost predicate Tracks(ids: map<string, nat>, epoch: nat, h: seq<Notice>, i: nat) {
    && i < |h| && h[i].job.epoch <= epoch && h[i].job.generation == i + 1 && !h[i].job.sv2
    && (Listed(ids, epoch, h[i].job) <==> Latest(h, i))
  }

  ghost predicate Sound(t: Trace) {
    && |t.history| == t.state.generation
    && Tracked(t.state.validIds, t.state.epoch, t.history)
    && t.state.current == if t.history == [] then None else Some(t.history[|t.history| - 1].job)
  }

  lemma LatestExtends(h: seq<Notice>, i: nat, n: Notice)
    requires i < |h|
    ensures Latest(h + [n], i) <==> Latest(h, i) && !n.clean && n.job.id != h[i].job.id
  {
    var h' := h + [n];
    if Latest(h', i) {
      assert Leaves(h', i, |h|);
      forall k | i < k < |h|
        ensures Leaves(h, i, k)
      {
        assert Leaves(h', i, k);
      }
    }
    if Latest(h, i) && !n.clean && n.job.id != h[i].job.id {
      forall k | i < k < |h'|
        ensures Leaves(h', i, k)
      {
        if k < |h| {
          assert Leaves(h, i, k);
        }
      }
    }
  }

  lemma TrackedExtends(ids: map<string, nat>, epoch: nat, h: seq<Notice>, n: Notice)
    requires Tracked(ids, epoch, h)
    requires n.job.epoch == (if n.clean then epoch + 1 else epoch) && n.job.generation == |h| + 1 && !n.job.sv2
    ensures Tracked((if n.clean then map[] else ids)[n.job.id := n.job.generation], n.job.epoch, h + [n])
  {
    var h' := h + [n];
    var ids' := (if n.clean then map[] else ids)[n.job.id := n.job.generation];
    assert Latest(h', |h|);
    hide Latest;
    forall i | 0 <= i < |h'|
      ensures Tracks(ids', n.job.epoch, h', i)
    {
      if i < |h| {
        assert Tracks(ids, epoch, h, i);
        LatestExtends(h, i, n);
      }
    }
  }

  lemma SoundNext(t: Trace, m: Message)
    requires Sound(t) && Next(t, m).Some?
    ensures Sound(Next(t, m).value)
  {
    hide Tracked, SiaWork, NetworkTarget, Extranonce2, HasSize, Difficulty.DifficultyTarget, LeafOf;
    if m.Notify? {
      var n := Next(t, m).value;
      var x := n.history[|n.history| - 1];
      TrackedExtends(t.state.validIds, t.state.epoch, t.history, x);
    } else {
      assert t.history + [] == t.history;
    }
  }

  lemma {:induction false} SoundRun(ms: seq<Message>)
    requires Run(ms).Some?
    ensures Sound(Run(ms).value)
  {
    if ms != [] {
      hide Next, Sound;
      SoundRun(ms[..|ms| - 1]);
      SoundNext(Run(ms[..|ms| - 1]).value, ms[|ms| - 1]);
    }
  }

  /** The pool granted the authorization. */
  predicate Granted(ms: seq<Message>) {
    exists i :: 0 <= i < |ms| && ms[i] == AuthorizeReply(true)
  }

  lemma GrantedSnoc(ms: seq<Message>)
    requires ms != []
    ensures Granted(ms) <==> Granted(ms[..|ms| - 1]) || ms[|ms| - 1] == AuthorizeReply(true)
  {
    var front := ms[..|ms| - 1];
    if Granted(front) {
      var i :| 0 <= i < |front| && front[i] == AuthorizeReply(true);
      assert ms[i] == AuthorizeReply(true);
    }
    if Granted(ms) && ms[|ms| - 1] != AuthorizeReply(true) {
      var i :| 0 <= i < |ms| && ms[i] == AuthorizeReply(true);
      assert front[i] == AuthorizeReply(true);
    }
  }

  lemma AuthorizedNext(s: State, m: Message)
    requires Handle(s, m).Some?
    ensures Handle(s, m).value.authorized <==> s.authorized || m == AuthorizeReply(true)
  {
    hide SiaWork, NetworkTarget, HasSize, Difficulty.DifficultyTarget;
  }

  /** A session is authorized exactly when some message granted it. */
  lemma {:induction false} AuthorizedIsGranted(ms: seq<Message>)
    requires Run(ms).Some?
    ensures Run(ms).value.state.authorized <==> Granted(ms)
  {
    if ms != [] {
      hide Handle, Granted;
      AuthorizedIsGranted(ms[..|ms| - 1]);
      AuthorizedNext(Run(ms[..|ms| - 1]).value.state, ms[|ms| - 1]);
      GrantedSnoc(ms);
    }
  }

  /**
    For every job ever handed out: it is valid exactly when an authorization was granted, its notify is the
    last one with its identifier, and no clean notify came after it.
   */
  lemma ValidityIsHistory(ms: seq<Message>, i: nat)
    requires Run(ms).Some? && i < |Run(ms).value.history|
    ensures var t := Run(ms).value;
            Valid(t.state, t.history[i].job) <==> Granted(ms) && Latest(t.history, i)
  {
    AuthorizedIsGranted(ms);
    SoundRun(ms);
    var t := Run(ms).value;
    assert Tracks(t.state.validIds, t.state.epoch, t.history, i);
  }

  /** The newest job is valid exactly from the authorization on. */
  lemma CurrentIsValid(ms: seq<Message>)
    requires Run(ms).Some? && Run(ms).value.state.current.Some?
    ensures var s := Run(ms).value.state;
            Valid(s, s.current.value) <==> Granted(ms)
  {
    SoundRun(ms);
    var t := Run(ms).value;
    ValidityIsHistory(ms, |t.history| - 1);
    assert Latest(t.history, |t.history| - 1);
  }

  // ---------- What a job is made of ----------

  function LastDifficulty(ms: seq<Message>): Option<string> {
    if ms == [] then None
    else if ms[|ms| - 1].SetDifficulty? then Some(ms[|ms| - 1].text)
    else LastDifficulty(ms[..|ms| - 1])
  }

  function LastExtranonce(ms: seq<Message>): Option<string> {
    if ms == [] then None
    else if ms[|ms| - 1].SetExtranonce? || ms[|ms| - 1].Subscribed? then Some(ms[|ms| - 1].en1)
    else LastExtranonce(ms[..|ms| - 1])
  }

  predicate Staged(s: State, d: Option<string>, e: Option<string>) {
    && (s.haveTarget <==> d.Some?) && (d.Some? ==> Difficulty.DifficultyTarget(d.value) == Success(s.nextTarget))
    && (s.en2Size == 8 <==> e.Some?) && (e.Some? ==> s.en1 == e.value)
  }

  lemma StagedNext(t: Trace, m: Message, d: Option<string>, e: Option<string>)
    requires Staged(t.state, d, e) && Next(t, m).Some?
    ensures Staged(Next(t, m).value.state, if m.SetDifficulty? then Some(m.text) else d,
                   if m.SetExtranonce? || m.Subscribed? then Some(m.en1) else e)
  {
    hide SiaWork, NetworkTarget, Extranonce2, HasSize, Difficulty.DifficultyTarget, LeafOf, JobOf;
  }

  /** The session holds the difficulty and the extranonce of the last messages that set them. */
  lemma {:induction false} StagedRun(ms: seq<Message>)
    requires Run(ms).Some?
    ensures Staged(Run(ms).value.state, LastDifficulty(ms), LastExtranonce(ms))
  {
    if ms != [] {
      hide Staged, Next;
      var front, m := ms[..|ms| - 1], ms[|ms| - 1];
      StagedRun(front);
      StagedNext(Run(front).value, m, LastDifficulty(front), LastExtranonce(front));
    }
  }

  /** What a notify adds to the history. */
  lemma NotifyEntry(t: Trace, m: Message)
    requires m.Notify? && Next(t, m).Some?
    ensures var s := t.state; var h' := Next(t, m).value.history;
            && h' == t.history + [h'[|t.history|]]
            && var (j, leaf) := (h'[|t.history|].job, h'[|t.history|].leaf);
            && j.id == m.id && j.ntime == m.ntime && j.generation == s.generation + 1
            && j.en2 == Extranonce2(s.generation + 1) && j.work.target == s.nextTarget
            && Success(j.networkTarget) == NetworkTarget(m.nbits)
            && Success(j.work.header) == SiaWork(m.prev, m.c1, m.c2, s.en1, j.en2, m.ntime)
            && leaf == LeafOf(s, m)
    ensures t.state.haveTarget && t.state.en2Size == 8
    ensures Next(t, m).value.state.en1 == t.state.en1 && Next(t, m).value.state.en2Size == t.state.en2Size
  {
    hide SiaWork, NetworkTarget, Extranonce2, HasSize, LeafOf;
  }

  lemma LeafUnderRoot(s: State, m: Message)
    requires m.Notify? && HasSize(s.en1, 4)
    requires SiaWork(m.prev, m.c1, m.c2, s.en1, Extranonce2(s.generation + 1), m.ntime).Success?
    ensures Hex.Unhex(m.c1).Success? && Hex.Unhex(s.en1).Success?
    ensures LeafOf(s, m) == SiaLeaf(Hex.Unhex(m.c1).value, Hex.Unhex(s.en1).value, LeBytes(s.generation + 1, 8))
    ensures |LeafOf(s, m)| == 52 && LeafOf(s, m)[44..] == LeBytes(s.generation + 1, 8)
    ensures SiaWork(m.prev, m.c1, m.c2, s.en1, Extranonce2(s.generation + 1), m.ntime).value[48..]
            == HashOf(LeafOf(s, m))
  {
    hide HashOf, Hex.Unhex;
    Hex.UnhexOfHex(LeBytes(s.generation + 1, 8));
    SiaShape(m.prev, m.c1, m.c2, s.en1, Extranonce2(s.generation + 1), m.ntime);
    SiaLeafEnd(Hex.Unhex(m.c1).value, Hex.Unhex(s.en1).value, LeBytes(s.generation + 1, 8));
  }

  // ---------- Distinct work ----------

  lemma {:induction false} LeBytesInjective(a: nat, b: nat, n: nat)
    requires a < Pow256(n) && b < Pow256(n) && LeBytes(a, n) == LeBytes(b, n)
    ensures a == b
  {
    LeOfLeBytes(a, n);
    LeOfLeBytes(b, n);
  }

  /** Every leaf on record ends in the little-endian generation of its job. */
  ghost predicate LeavesNumbered(h: seq<Notice>) {
    forall i :: 0 <= i < |h| ==> LeafNumbered(h[i], i + 1)
  }

  predicate LeafNumbered(n: Notice, g: nat) {
    |n.leaf| == 52 && n.leaf[44..] == LeBytes(g, 8) && n.job.en2 == Hex.ToHex(LeBytes(g, 8))
    && n.job.work.header[48..] == HashOf(n.leaf)
  }

  lemma LeavesAppend(h: seq<Notice>, n: Notice)
    requires LeavesNumbered(h) && LeafNumbered(n, |h| + 1)
    ensures LeavesNumbered(h + [n])
  {
    hide LeafNumbered;
  }

  lemma LeavesNotify(t: Trace, m: Message)
    requires m.Notify? && |t.history| == t.state.generation && Extranonced(t.state)
    requires LeavesNumbered(t.history) && Next(t, m).Some?
    ensures LeavesNumbered(Next(t, m).value.history) && Extranonced(Next(t, m).value.state)
  {
    hide HashOf, LeafOf, LeavesNumbered, NetworkTarget, SiaWork;
    NotifyEntry(t, m);
    assert HasSize(t.state.en1, 4) && Extranonced(Next(t, m).value.state);
    LeafUnderRoot(t.state, m);
    var n := Next(t, m).value.history[|t.history|];
    assert LeafNumbered(n, |t.history| + 1);
    LeavesAppend(t.history, n);
  }

  lemma LeavesQuiet(t: Trace, m: Message)
    requires !m.Notify? && Extranonced(t.state) && Next(t, m).Some?
    ensures Next(t, m).value.history == t.history && Extranonced(Next(t, m).value.state)
  {
    assert t.history + [] == t.history;
  }

  /** Once a size is set the extranonce has four bytes. */
  predicate Extranonced(s: State) {
    s.en2Size == 8 ==> HasSize(s.en1, 4)
  }

  lemma {:induction false} LeavesRun(ms: seq<Message>)
    requires Run(ms).Some?
    ensures LeavesNumbered(Run(ms).value.history) && Extranonced(Run(ms).value.state)
  {
    if ms != [] {
      LeavesRun(ms[..|ms| - 1]);
      SoundRun(ms[..|ms| - 1]);
      var t, m := Run(ms[..|ms| - 1]).value, ms[|ms| - 1];
      if m.Notify? {
        LeavesNotify(t, m);
      } else {
        LeavesQuiet(t, m);
      }
    }
  }

  /** Everything a run keeps. */
  ghost predicate Kept(t: Trace) {
    Sound(t) && LeavesNumbered(t.history) && Extranonced(t.state)
  }

  lemma KeptNext(t: Trace, m: Message)
    requires Kept(t) && Next(t, m).Some?
    ensures Kept(Next(t, m).value) && t.history <= Next(t, m).value.history
  {
    SoundNext(t, m);
    if m.Notify? {
      LeavesNotify(t, m);
      NotifyEntry(t, m);
    } else {
      LeavesQuiet(t, m);
    }
  }

  ghost predicate Apart(a: Notice, b: Notice) {
    && a.leaf != b.leaf && a.job.en2 != b.job.en2 && |a.leaf| == |b.leaf| == 52
    && a.job.work.header[48..] == HashOf(a.leaf) && b.job.work.header[48..] == HashOf(b.leaf)
  }

  lemma NumberedApart(a: Notice, b: Notice, i: nat, k: nat)
    requires LeafNumbered(a, i) && LeafNumbered(b, k) && i != k
    requires i < 0x1_0000_0000_0000_0000 && k < 0x1_0000_0000_0000_0000
    ensures Apart(a, b)
  {
    hide HashOf;
    Pow256Values();
    if LeBytes(i, 8) == LeBytes(k, 8) {
      LeBytesInjective(i, k, 8);
    }
    Hex.UnhexOfHex(LeBytes(i, 8));
    Hex.UnhexOfHex(LeBytes(k, 8));
  }

  /** Up to 2^64 notifies, every job hashes its own 52-byte leaf and carries its own extranonce2. */
  lemma DistinctWork(ms: seq<Message>, i: nat, k: nat)
    requires Run(ms).Some? && i < k < |Run(ms).value.history|
    requires k < 0xffff_ffff_ffff_ffff
    ensures Apart(Run(ms).value.history[i], Run(ms).value.history[k])
  {
    hide LeafNumbered, Run;
    LeavesRun(ms);
    var h := Run(ms).value.history;
    assert LeafNumbered(h[i], i + 1) && LeafNumbered(h[k], k + 1);
    NumberedApart(h[i], h[k], i + 1, k + 1);
  }

  /**
    A notify takes the difficulty and extranonce staged last before it, and its leaf commits to its
    coinbase, that extranonce and the little-endian generation.
   */
  lemma NotifyUsesStaged(ms: seq<Message>, m: Message)
    requires m.Notify? && Run(ms + [m]).Some?
    ensures Run(ms).Some? && LastDifficulty(ms).Some? && LastExtranonce(ms).Some?
    ensures var h := Run(ms).value.history; var h' := Run(ms + [m]).value.history;
            && h' == h + [h'[|h|]]
            && var (j, leaf) := (h'[|h|].job, h'[|h|].leaf);
            && j.id == m.id && j.ntime == m.ntime && j.generation == |h| + 1
            && j.en2 == Hex.ToHex(LeBytes(|h| + 1, 8))
            && Success(j.work.target) == Difficulty.DifficultyTarget(LastDifficulty(ms).value)
            && Success(j.networkTarget) == NetworkTarget(m.nbits)
            && Success(j.work.header) == SiaWork(m.prev, m.c1, m.c2, LastExtranonce(ms).value, j.en2, m.ntime)
            && Hex.Unhex(m.c1).Success? && Hex.Unhex(LastExtranonce(ms).value).Success?
            && leaf == SiaLeaf(Hex.Unhex(m.c1).value, Hex.Unhex(LastExtranonce(ms).value).value, LeBytes(|h| + 1, 8))
            && j.work.header[48..] == HashOf(leaf)
  {
    hide HashOf;
    RunJoin(ms, m);
    var t := Run(ms).value;
    StagedRun(ms);
    SoundRun(ms);
    LeavesRun(ms);
    NotifyEntry(t, m);
    assert t.state.generation == |t.history|;
    assert HasSize(t.state.en1, 4);
    LeafUnderRoot(t.state, m);
  }

  lemma RunJoin(ms: seq<Message>, m: Message)
    ensures Run(ms + [m]) == match Run(ms) case None => None case Some(t) => Next(t, m)
  {
    assert (ms + [m])[..|ms|] == ms;
  }
}
