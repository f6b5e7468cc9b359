/** Exactly which share events a ledger survives. */
module ShareConformance {
  import opened Base
  import opened Ordering
  import opened ShareLedger

  function LastSent(es: seq<Event>): nat {
    if es == [] then 0
    else if es[|es| - 1].Sent? then es[|es| - 1].id
    else LastSent(es[..|es| - 1])
  }

  function LastAcked(es: seq<Event>): nat {
    if es == [] then 0
    else if es[|es| - 1].Acked? then es[|es| - 1].batch.last
    else LastAcked(es[..|es| - 1])
  }

  /** The shares sent that were neither refused nor reported accepted. */
  ghost function Outstanding(es: seq<Event>): set<u32>
    requires Run(es).Some?
  {
    set x | x in SentIds(es) && x !in RefusedIds(es) && x !in Run(es).value.accepted
  }

  // ---------- Settling ----------

  ghost predicate Ascending(bs: seq<Batch>) {
    forall i, k :: 0 <= i < k < |bs| ==> bs[i].last < bs[k].last
  }

  /** Batch k and those before it count exactly the outstanding shares up to its end. */
  ghost predicate Matched(pending: set<u32>, bs: seq<Batch>, k: nat)
    requires k < |bs|
  {
    |UpTo(pending, bs[k].last)| == TotalCount(bs[..k + 1])
  }

  /** Batch k is reached by settling and claims more shares than are outstanding up to its end. */
  ghost predicate ShortAt(pending: set<u32>, bs: seq<Batch>, k: nat)
    requires k < |bs|
  {
    (forall j :: 0 <= j < k ==> Matched(pending, bs, j)) && |UpTo(pending, bs[k].last)| < TotalCount(bs[..k + 1])
  }

  ghost predicate Short(pending: set<u32>, bs: seq<Batch>) {
    exists k :: 0 <= k < |bs| && ShortAt(pending, bs, k)
  }

  lemma CountAfter(pending: set<u32>, b: Batch, hi: u32)
    requires b.last <= hi
    ensures |UpTo(pending, hi)| == |UpTo(pending, b.last)| + |UpTo(pending - UpTo(pending, b.last), hi)|
  {
    var due := UpTo(pending, b.last);
    assert UpTo(pending, hi) == due + UpTo(pending - due, hi);
  }

  lemma TotalAfter(bs: seq<Batch>, k: nat)
    requires bs != [] && k < |bs|
    ensures TotalCount(bs[..k + 1]) == bs[0].count + if k == 0 then 0 else TotalCount(bs[1..][..k])
  {
    TotalCountHead(bs[..k + 1]);
    assert bs[..k + 1][1..] == bs[1..][..k];
    assert TotalCount([]) == 0;
  }

  /** Taking the first batch off leaves the question for the others. */
  lemma ShortLater(pending: set<u32>, bs: seq<Batch>, k: nat)
    requires Ascending(bs) && 1 <= k < |bs| && |UpTo(pending, bs[0].last)| == bs[0].count
    ensures var rest := pending - UpTo(pending, bs[0].last);
            && (Matched(pending, bs, k) <==> Matched(rest, bs[1..], k - 1))
            && (|UpTo(pending, bs[k].last)| < TotalCount(bs[..k + 1])
                <==> |UpTo(rest, bs[k].last)| < TotalCount(bs[1..][..k]))
  {
    CountAfter(pending, bs[0], bs[k].last);
    TotalAfter(bs, k);
  }

  lemma ShortTail(pending: set<u32>, bs: seq<Batch>)
    requires bs != [] && Ascending(bs) && |UpTo(pending, bs[0].last)| == bs[0].count
    ensures Short(pending, bs) <==> Short(pending - UpTo(pending, bs[0].last), bs[1..])
  {
    var rest := pending - UpTo(pending, bs[0].last);
    TotalAfter(bs, 0);
    forall k | 1 <= k < |bs|
      ensures ShortAt(pending, bs, k) <==> ShortAt(rest, bs[1..], k - 1)
    {
      ShortLaterAt(pending, bs, k);
    }
    if Short(pending, bs) {
      var k :| 0 <= k < |bs| && ShortAt(pending, bs, k);
      assert k != 0;
      assert ShortAt(rest, bs[1..], k - 1);
    }
    if Short(rest, bs[1..]) {
      var k :| 0 <= k < |bs[1..]| && ShortAt(rest, bs[1..], k);
      assert ShortAt(pending, bs, k + 1);
    }
  }

  lemma ShortLaterAt(pending: set<u32>, bs: seq<Batch>, k: nat)
    requires 1 <= k < |bs| && Ascending(bs) && |UpTo(pending, bs[0].last)| == bs[0].count
    ensures ShortAt(pending, bs, k) <==> ShortAt(pending - UpTo(pending, bs[0].last), bs[1..], k - 1)
  {
    var rest := pending - UpTo(pending, bs[0].last);
    TotalAfter(bs, 0);
    hide UpTo, TotalCount;
    assert Matched(pending, bs, 0);
    forall j | 1 <= j <= k
      ensures Matched(pending, bs, j) <==> Matched(rest, bs[1..], j - 1)
    {
      ShortLater(pending, bs, j);
    }
    ShortLater(pending, bs, k);
    hide Matched;
    assert (forall j :: 0 <= j < k ==> Matched(pending, bs, j))
      <==> (forall j :: 0 <= j < k - 1 ==> Matched(rest, bs[1..], j)) by {
      if forall j :: 0 <= j < k - 1 ==> Matched(rest, bs[1..], j) {
        forall j | 0 <= j < k
          ensures Matched(pending, bs, j)
        {
          if j > 0 {
            assert Matched(rest, bs[1..], j - 1);
          }
        }
      }
      if forall j :: 0 <= j < k ==> Matched(pending, bs, j) {
        forall j | 0 <= j < k - 1
          ensures Matched(rest, bs[1..], j)
        {
          assert Matched(pending, bs, j + 1);
        }
      }
    }
  }

  lemma AscendingTail(bs: seq<Batch>)
    requires bs != [] && Ascending(bs)
    ensures Ascending(bs[1..])
  {
  }

  /** Settling fails exactly when it comes to a batch that claims more shares than there are. */
  lemma {:induction false} SettlesUnlessShort(pending: set<u32>, bs: seq<Batch>)
    requires Ascending(bs)
    ensures Settle(pending, bs).None? <==> Short(pending, bs)
    decreases |bs|
  {
    if bs != [] {
      var due := UpTo(pending, bs[0].last);
      TotalAfter(bs, 0);
      if |due| < bs[0].count {
        assert ShortAt(pending, bs, 0);
      } else if |due| > bs[0].count {
        assert !Matched(pending, bs, 0);
        forall k | 0 <= k < |bs|
          ensures !ShortAt(pending, bs, k)
        {
        }
      } else {
        ShortTail(pending, bs);
        AscendingTail(bs);
        SettlesUnlessShort(pending - due, bs[1..]);
      }
    }
  }

  /** What is left to settle is a tail of the batches. */
  lemma {:induction false} SettleLeaves(pending: set<u32>, bs: seq<Batch>)
    requires Settle(pending, bs).Some?
    ensures var rest := Settle(pending, bs).value.batches; |rest| <= |bs| && rest == bs[|bs| - |rest|..]
    decreases |bs|
  {
    if bs != [] {
      var due := UpTo(pending, bs[0].last);
      if |due| == bs[0].count {
        SettleLeaves(pending - due, bs[1..]);
      }
    }
  }

  // ---------- Over a run ----------

  /** What the ledger holds, as the events say. */
  ghost predicate Tells(l: Ledger, es: seq<Event>) {
    && l.lastSent == LastSent(es) && l.lastAck == LastAcked(es)
    && Ascending(l.batches) && (l.batches != [] ==> l.batches[|l.batches| - 1].last <= l.lastAck)
  }

  lemma Unfolded(es: seq<Event>, e: Event)
    ensures LastSent(es + [e]) == if e.Sent? then e.id else LastSent(es)
    ensures LastAcked(es + [e]) == if e.Acked? then e.batch.last else LastAcked(es)
  {
    assert (es + [e])[..|es|] == es;
  }

  lemma TailTells(l: Ledger, m: Ledger, es: seq<Event>)
    requires Tells(l, es) && Settled(l).Some? && m == Settled(l).value.ledger
    ensures Tells(m, es)
  {
    SettleLeaves(l.pending, l.batches);
    hide Settle;
  }

  lemma QueuedTells(l: Ledger, es: seq<Event>, b: Batch)
    requires Tells(l, es) && l.lastAck < b.last
    ensures Tells(l.(lastAck := b.last, batches := l.batches + [b]), es + [Acked(b)])
  {
    Unfolded(es, Acked(b));
    var bs := l.batches + [b];
    forall i, k | 0 <= i < k < |bs|
      ensures bs[i].last < bs[k].last
    {
      if k == |l.batches| && i < |l.batches| - 1 {
        assert l.batches[i].last < l.batches[|l.batches| - 1].last;
      }
    }
  }

  lemma StepTells(o: Outcome, es: seq<Event>, e: Event)
    requires Tells(o.ledger, es) && Step(o, e).Some?
    ensures Tells(Step(o, e).value.ledger, es + [e])
  {
    Unfolded(es, e);
    hide LastSent, LastAcked, Ascending, Settle;
    match e
    case Sent(_) =>
    case Acked(b) =>
      QueuedTells(o.ledger, es, b);
      var l := o.ledger.(lastAck := b.last, batches := o.ledger.batches + [b]);
      TailTells(l, Settled(l).value.ledger, es + [e]);
    case Refused(id) =>
      var l := o.ledger.(pending := o.ledger.pending - {id});
      assert Tells(l, es + [e]);
      TailTells(l, Settled(l).value.ledger, es + [e]);
  }

  lemma {:induction false} RunTells(es: seq<Event>)
    requires Run(es).Some?
    ensures Tells(Run(es).value.ledger, es)
  {
    if es != [] {
      hide Tells, Step;
      var a, e := es[..|es| - 1], es[|es| - 1];
      assert es == a + [e];
      RunTells(a);
      StepTells(Run(a).value, a, e);
    } else {
      assert Tells(EMPTY, []);
    }
  }

  lemma PendingIsOutstanding(es: seq<Event>)
    requires Run(es).Some?
    ensures Run(es).value.ledger.pending == Outstanding(es)
  {
    Conservation(es);
    var o := Run(es).value;
    SortedElements(SentIds(es) - RefusedIds(es) - o.ledger.pending);
    hide Run, SentIds, RefusedIds, Sorted, TotalCount, Acks;
  }

  /** An event the ledger accepts after those before it. */
  ghost predicate Allowed(before: seq<Event>, e: Event)
    requires Run(before).Some?
  {
    var p, bs := Outstanding(before), Run(before).value.ledger.batches;
    match e
    case Sent(id) => id > LastSent(before) && |p| < 4096
    case Acked(b) =>
      && 1 <= b.count <= 4096 && LastAcked(before) < b.last <= LastSent(before) && b.last in p
      && !Short(p, bs + [b])
    case Refused(id) => id in p && !Short(p - {id}, bs)
  }

  lemma AllowsEvent(es: seq<Event>, e: Event)
    requires Run(es).Some?
    ensures Step(Run(es).value, e).Some? <==> Allowed(es, e)
  {
    var l := Run(es).value.ledger;
    RunTells(es);
    PendingIsOutstanding(es);
    match e {
      case Sent(_) => hide Outstanding, LastSent;
      case Acked(b) =>
        if l.lastAck < b.last {
          QueuedTells(l, es, b);
          SettlesUnlessShort(l.pending, l.batches + [b]);
        }
        hide Outstanding, LastSent, LastAcked, Short, Settle;
      case Refused(id) =>
        SettlesUnlessShort(l.pending - {id}, l.batches);
        hide Outstanding, LastSent, LastAcked, Short, Settle;
    }
  }

  ghost predicate Conforms(es: seq<Event>) {
    es == []
    || (var a := es[..|es| - 1]; Conforms(a) && Run(a).Some? && Allowed(a, es[|es| - 1]))
  }

  /**
    A ledger survives a sequence of events if and only if each of them is allowed by those before it: sequence
    numbers rise and at most 4096 shares are outstanding, acknowledgements rise and end in an outstanding share,
    refusals name one, and no batch claims more shares than are outstanding when it comes to be settled.
   */
  lemma {:induction false} LedgerSurvives(es: seq<Event>)
    ensures Run(es).Some? <==> Conforms(es)
  {
    if es != [] {
      hide Allowed, Step;
      var a, e := es[..|es| - 1], es[|es| - 1];
      LedgerSurvives(a);
      if Run(a).Some? {
        AllowsEvent(a, e);
      }
    }
  }
}
