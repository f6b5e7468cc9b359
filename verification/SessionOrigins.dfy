/** Where an SV2 job comes from, read off the messages alone. */
module SessionOrigins {
  import opened Base
  import opened Codec
  import opened Coin
  import opened Jobs
  import opened Scan
  import opened Sv2
  import opened Targets
  import Difficulty
  import L = ShareLedger

  /** The messages behind a job: its offer, its time, and the last announcements when it was activated. */
  datatype Origin = Origin(wire: Offer, time: u32, prev: Option<Message>, share: Option<Hash>, prefix: Option<Bytes>)

  function LastOffer(inputs: seq<Input>, id: u32): Option<Offer> {
    if inputs == [] then None
    else
      var i := inputs[|inputs| - 1];
      if i.Received? && i.message.NewJob? && i.message.job == id then Some(i.message)
      else LastOffer(inputs[..|inputs| - 1], id)
  }

  function LastPrefix(inputs: seq<Input>): Option<Bytes> {
    if inputs == [] then None
    else
      var i := inputs[|inputs| - 1];
      if i.Received? && i.message.OpenSuccess? then Some(i.message.prefix) else LastPrefix(inputs[..|inputs| - 1])
  }

  function Last<T>(s: seq<T>): Option<T> {
    if s == [] then None else Some(s[|s| - 1])
  }

  /** One origin per offer with a time and per previous-hash message, in order. */
  function Origins(inputs: seq<Input>): seq<Origin> {
    if inputs == [] then [] else Origins(inputs[..|inputs| - 1]) + OriginOf(inputs[..|inputs| - 1], inputs[|inputs| - 1])
  }

  function OriginOf(before: seq<Input>, i: Input): seq<Origin> {
    if !i.Received? then []
    else match i.message
         case NewJob(_, _, Some(time), _, _) =>
           [Origin(i.message, time, Last(PrevHashes(before)), Last(AnnouncedTargets(before)), LastPrefix(before))]
         case PrevHash(_, job, _, time, _) =>
           (match LastOffer(before, job)
            case None => []
            case Some(wire) =>
              [Origin(wire, time, Some(i.message), Last(AnnouncedTargets(before)), LastPrefix(before))])
         case _ => []
  }

  lemma DigitOf(d: nat)
    requires d < 10
    ensures var c := "0123456789"[d]; Difficulty.IsDigit(c) && c as int - '0' as int == d
    ensures d > 0 ==> "0123456789"[d] != '0'
  {
  }

  /** The text of a job number is its decimal digits, without a leading zero. */
  lemma {:induction false} DecimalDigits(n: nat)
    ensures Difficulty.AllDigits(DecimalText(n)) && Difficulty.Digits(DecimalText(n)) == n
    ensures DecimalText(n) != "" && (n > 0 ==> DecimalText(n)[0] != '0')
  {
    hide Difficulty.Digits, Difficulty.AllDigits, Difficulty.IsDigit;
    DigitOf(n % 10);
    var last := "0123456789"[n % 10];
    if n < 10 {
      Difficulty.NoDigits();
      Difficulty.DigitsLast("", last);
      assert "" + [last] == [last];
    } else {
      DecimalDigits(n / 10);
      Difficulty.DigitsLast(DecimalText(n / 10), last);
    }
  }

  /** The extranonce of a channel: the prefix it was given, then zeros up to twelve bytes. */
  predicate Extranonce(extra: Bytes, prefix: Bytes) {
    && |prefix| <= EXTRA && |extra| == EXTRA && extra[..|prefix|] == prefix
    && forall i :: |prefix| <= i < EXTRA ==> extra[i] == 0
  }

  /** The activated job is the one its messages describe. */
  predicate Follows(a: Activation, o: Origin) {
    && o.prev.Some? && o.prev.value.PrevHash? && o.share.Some? && o.prefix.Some?
    && a.job.wireJob == o.wire.job && a.job.id == DecimalText(o.wire.job) && a.job.version == o.wire.version32
    && a.commitment == o.wire.root && a.job.channel == o.wire.channel && a.job.time32 == o.time
    && a.previous == o.prev.value.hash && a.share == o.share.value && Extranonce(a.extra, o.prefix.value)
    && CompactTarget(BigEndian(o.prev.value.nbits)) == Success(a.job.networkTarget)
  }

  predicate Offered(s: State, inputs: seq<Input>, id: u32)
    requires id in s.jobs
  {
    LastOffer(inputs, id) == Some(s.jobs[id].wire) && s.jobs[id].wire.job == id && s.jobs[id].wire.channel == s.channel
  }

  ghost predicate AllOffered(s: State, inputs: seq<Input>) {
    forall id :: id in s.jobs ==> Offered(s, inputs, id)
  }

  ghost predicate AllFollow(h: seq<Activation>, os: seq<Origin>) {
    |h| == |os| && forall i :: 0 <= i < |h| ==> Follows(h[i], os[i])
  }

  /** Once the channel is open its target and extranonce have been announced. */
  predicate Announced(s: State, inputs: seq<Input>) {
    && (s.phase == 3 ==> LastPrefix(inputs).Some? && Extranonce(s.extra, LastPrefix(inputs).value)
                         && AnnouncedTargets(inputs) != [])
    && (s.phase != 3 ==> s.jobs == map[])
  }

  ghost predicate Traced(t: Trace, inputs: seq<Input>) {
    && AllOffered(t.state, inputs) && AllFollow(t.history, Origins(inputs)) && Announced(t.state, inputs)
    && Reflects(t.state, PrevHashes(inputs), AnnouncedTargets(inputs))
  }

  lemma Unfold(a: seq<Input>, i: Input)
    ensures Origins(a + [i]) == Origins(a) + OriginOf(a, i)
    ensures forall id :: LastOffer(a + [i], id)
                         == if i.Received? && i.message.NewJob? && i.message.job == id then Some(i.message)
                            else LastOffer(a, id)
    ensures LastPrefix(a + [i]) == if i.Received? && i.message.OpenSuccess? then Some(i.message.prefix)
                                   else LastPrefix(a)
    ensures PrevHashes(a + [i]) == PrevHashes(a) + if i.Received? && i.message.PrevHash? then [i.message] else []
    ensures AnnouncedTargets(a + [i])
            == AnnouncedTargets(a) + if i.Received? && i.message.Target? then [i.message.target]
                                     else if i.Received? && i.message.OpenSuccess? then [i.message.target] else []
  {
    var b := a + [i];
    assert b[..|b| - 1] == a && b[|b| - 1] == i;
  }

  lemma FollowsActivate(s: State, key: u32, time: u32, inputs: seq<Input>, o: Origin)
    requires key in s.jobs && Activate(s, key, time).Some? && Offered(s, inputs, key)
    requires o.wire == s.jobs[key].wire && o.time == time
    requires s.phase == 3 && o.prefix.Some? && Extranonce(s.extra, o.prefix.value)
    requires o.share == Some(s.target) && o.prev.Some? && o.prev.value.PrevHash?
    requires s.previous == o.prev.value.hash
    requires CompactTarget(BigEndian(o.prev.value.nbits)) == Success(s.networkTarget)
    ensures Follows(EntryOf(s, key, time), o)
    ensures Activate(s, key, time).value.jobs.Keys == s.jobs.Keys
    ensures forall id :: id in s.jobs ==> Activate(s, key, time).value.jobs[id].wire == s.jobs[id].wire
  {
    hide StandardWork, ShareTarget, DecimalText, CompactTarget, Extranonce;
  }

  lemma FollowAppend(h: seq<Activation>, os: seq<Origin>, a: Activation, o: Origin)
    requires AllFollow(h, os) && Follows(a, o)
    ensures AllFollow(h + [a], os + [o])
  {
    hide Follows;
  }

  lemma PaddedPrefix(prefix: Bytes)
    requires |prefix| <= EXTRA
    ensures Extranonce(Padded(prefix), prefix)
  {
  }

  predicate Quiet(i: Input) {
    i.Received? ==> !i.message.NewJob? && !i.message.PrevHash?
  }

  /** Steps that neither offer nor activate a job leave the jobs alone; only an opened channel changes the rest. */
  lemma QuietFrame(t: Trace, i: Input)
    requires Next(t, i).Some? && Quiet(i)
    ensures var (s, u) := (t.state, Next(t, i).value.state);
            && Next(t, i).value.history == t.history && u.jobs == s.jobs
            && (if i.Received? && i.message.OpenSuccess?
                then s.phase != 3 && u.phase == 3 && Extranonce(u.extra, i.message.prefix)
                else u.channel == s.channel && u.extra == s.extra && (u.phase == 3 <==> s.phase == 3))
  {
    hide L.Acknowledge, L.Refuse, Valid;
    if i.Received? && i.message.OpenSuccess? {
      PaddedPrefix(i.message.prefix);
    }
    hide Extranonce, Padded;
    assert t.history + [] == t.history;
  }

  lemma TracedQuiet(t: Trace, a: seq<Input>, i: Input)
    requires Traced(t, a) && Next(t, i).Some? && Quiet(i)
    ensures Traced(Next(t, i).value, a + [i])
  {
    QuietFrame(t, i);
    Unfold(a, i);
    ReflectsNext(t, i, PrevHashes(a), AnnouncedTargets(a));
    assert OriginOf(a, i) == [];
    assert Origins(a) + [] == Origins(a);
    hide Next, Reflects, AllFollow, Origins, PrevHashes, AnnouncedTargets, LastPrefix, LastOffer, Extranonce;
    var u := Next(t, i).value;
    forall id | id in u.state.jobs
      ensures Offered(u.state, a + [i], id)
    {
      assert Offered(t.state, a, id);
    }
  }

  lemma OfferedNext(s: State, a: seq<Input>, m: Offer, e: Stored)
    requires AllOffered(s, a) && m.channel == s.channel && e.wire == m
    ensures AllOffered(s.(jobs := s.jobs[m.job := e]), a + [Received(m)])
  {
    Unfold(a, Received(m));
    hide LastOffer;
    var u := s.(jobs := s.jobs[m.job := e]);
    forall id | id in u.jobs
      ensures Offered(u, a + [Received(m)], id)
    {
      if id != m.job {
        assert Offered(s, a, id);
      }
    }
  }

  /** Activation changes no offer. */
  lemma OfferedActivate(s: State, a: seq<Input>, key: u32, time: u32)
    requires AllOffered(s, a) && key in s.jobs && Activate(s, key, time).Some?
    ensures AllOffered(Activate(s, key, time).value, a)
  {
    hide LastOffer, StandardWork, ShareTarget, DecimalText;
    var u := Activate(s, key, time).value;
    forall id | id in u.jobs
      ensures Offered(u, a, id)
    {
      assert Offered(s, a, id);
    }
  }

  lemma TracedNewJob(t: Trace, a: seq<Input>, m: Offer)
    requires Traced(t, a) && Next(t, Received(m)).Some?
    ensures Traced(Next(t, Received(m)).value, a + [Received(m)])
  {
    var i := Received(m);
    var s := t.state;
    var u := s.(jobs := s.jobs[m.job := Stored(m, BLANK, m.ntime.None?)]);
    var n := Next(t, i).value;
    Unfold(a, i);
    ReflectsNext(t, i, PrevHashes(a), AnnouncedTargets(a));
    OfferedNext(s, a, m, Stored(m, BLANK, m.ntime.None?));
    hide Activate, AllOffered, Follows, Origins, PrevHashes, AnnouncedTargets, LastPrefix, LastOffer, Extranonce;
    if m.ntime.None? {
      assert n.history == t.history;
    } else {
      NewJobFollows(t, a, m);
      OfferedActivate(u, a + [i], m.job, m.ntime.value);
      ActivateFrame(u, m.job, m.ntime.value);
    }
  }

  lemma ActivateFrame(s: State, key: u32, time: u32)
    requires key in s.jobs && Activate(s, key, time).Some?
    ensures var u := Activate(s, key, time).value;
            u.phase == s.phase && u.extra == s.extra && u.generation == s.generation + 1 && u.previous == s.previous
            && u.target == s.target && u.channel == s.channel
  {
    hide StandardWork, ShareTarget, DecimalText;
  }

  lemma NewJobFollows(t: Trace, a: seq<Input>, m: Offer)
    requires Traced(t, a) && Next(t, Received(m)).Some? && m.ntime.Some?
    ensures AllFollow(Next(t, Received(m)).value.history, Origins(a + [Received(m)]))
  {
    var u := t.state.(jobs := t.state.jobs[m.job := Stored(m, BLANK, false)]);
    var time := m.ntime.value;
    Unfold(a, Received(m));
    OfferedNext(t.state, a, m, Stored(m, BLANK, false));
    var o := Origin(m, time, Last(PrevHashes(a)), Last(AnnouncedTargets(a)), LastPrefix(a));
    assert Origins(a + [Received(m)]) == Origins(a) + [o];
    hide Follows, Origins, LastOffer, CompactTarget, Extranonce, LastPrefix;
    assert Activate(u, m.job, time).Some? && u.havePrevious;
    ActivatedEntry(t.state, u, m.job, time);
    hide Activate;
    assert Offered(u, a + [Received(m)], m.job);
    FollowsActivate(u, m.job, time, a + [Received(m)], o);
    FollowAppend(t.history, Origins(a), EntryOf(u, m.job, time), o);
    hide EntryOf, AllFollow;
  }

  /** What a previous-hash message goes through. */
  lemma PrevHashStep(t: Trace, m: Message)
    requires m.PrevHash? && Next(t, Received(m)).Some?
    ensures t.state.phase == 3 && m.job in t.state.jobs && CompactTarget(BigEndian(m.nbits)).Success?
    ensures var u := AfterPrevHash(t.state, m.job, m.hash, CompactTarget(BigEndian(m.nbits)).value);
            Activate(u, m.job, m.time) == Some(Next(t, Received(m)).value.state)
  {
    hide Activate, CompactTarget, IsHidden;
  }

  lemma TracedPrevHash(t: Trace, a: seq<Input>, m: Message)
    requires m.PrevHash? && Traced(t, a) && Next(t, Received(m)).Some?
    ensures Traced(Next(t, Received(m)).value, a + [Received(m)])
  {
    var i := Received(m);
    PrevHashStep(t, m);
    PrevHashFollows(t, a, m);
    Unfold(a, i);
    ReflectsNext(t, i, PrevHashes(a), AnnouncedTargets(a));
    hide Next, Reflects, Activate, AllFollow, Origins, PrevHashes, AnnouncedTargets, LastPrefix, LastOffer, Extranonce;
    var u := AfterPrevHash(t.state, m.job, m.hash, CompactTarget(BigEndian(m.nbits)).value);
    assert AllOffered(u, a + [i]) by {
      assert Offered(t.state, a, m.job);
    }
    hide AllOffered;
    OfferedActivate(u, a + [i], m.job, m.time);
    ActivateFrame(u, m.job, m.time);
  }

  lemma PrevHashFollows(t: Trace, a: seq<Input>, m: Message)
    requires m.PrevHash? && Traced(t, a) && Next(t, Received(m)).Some?
    ensures AllFollow(Next(t, Received(m)).value.history, Origins(a + [Received(m)]))
  {
    var i := Received(m);
    hide Follows, Origins, CompactTarget, Extranonce, LastPrefix;
    Unfold(a, i);
    var s := t.state;
    assert Offered(s, a, m.job);
    var network := CompactTarget(BigEndian(m.nbits)).value;
    var u := AfterPrevHash(s, m.job, m.hash, network);
    var o := Origin(s.jobs[m.job].wire, m.time, Some(m), Last(AnnouncedTargets(a)), LastPrefix(a));
    assert OriginOf(a, i) == [o];
    assert Activate(u, m.job, m.time).Some?;
    ActivatedEntry(s, u, m.job, m.time);
    hide Activate;
    assert Offered(u, a + [i], m.job);
    FollowsActivate(u, m.job, m.time, a + [i], o);
    FollowAppend(t.history, Origins(a), EntryOf(u, m.job, m.time), o);
    hide EntryOf, AllFollow;
  }

  lemma {:induction false} TracedRun(user: Bytes, rate: u32, inputs: seq<Input>)
    requires Run(Start(user, rate), inputs).Some?
    ensures Traced(Run(Start(user, rate), inputs).value, inputs)
  {
    if inputs == [] {
      hide Next;
    } else {
      hide Next, Traced;
      var a, i := inputs[..|inputs| - 1], inputs[|inputs| - 1];
      assert inputs == a + [i];
      TracedRun(user, rate, a);
      var t := Run(Start(user, rate), a).value;
      if i.Received? && i.message.NewJob? {
        TracedNewJob(t, a, i.message);
      } else if i.Received? && i.message.PrevHash? {
        TracedPrevHash(t, a, i.message);
      } else {
        TracedQuiet(t, a, i);
      }
    }
  }

  /**
    The jobs of a run are determined by its messages alone: one per offer with a time and per
    previous-hash message, in order, each built from that offer, the last previous hash, the last share
    target and the channel's extranonce announced by then.
   */
  lemma JobsFollowMessages(user: Bytes, rate: u32, inputs: seq<Input>)
    requires Run(Start(user, rate), inputs).Some?
    ensures AllFollow(Run(Start(user, rate), inputs).value.history, Origins(inputs))
  {
    TracedRun(user, rate, inputs);
    hide AllFollow, Run, AllOffered, Announced, Reflects;
  }

  /** Once a run has opened its channel, the extranonce is the prefix of the answer, padded with zeros at the end. */
  lemma ChannelExtranonce(user: Bytes, rate: u32, inputs: seq<Input>)
    requires Run(Start(user, rate), inputs).Some? && Run(Start(user, rate), inputs).value.state.phase == 3
    ensures LastPrefix(inputs).Some?
    ensures Extranonce(Run(Start(user, rate), inputs).value.state.extra, LastPrefix(inputs).value)
  {
    TracedRun(user, rate, inputs);
    hide Run, AllFollow, AllOffered, Extranonce, Reflects;
  }
}
