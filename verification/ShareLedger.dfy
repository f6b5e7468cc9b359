/**
  The share ledger of an SV2 channel: outstanding sequence numbers, cumulative
  acknowledgements that carry only a count, and individual rejects that may arrive late.
 */
module ShareLedger {
  import opened Base
  import opened Ordering

  datatype Batch = Batch(last: u32, count: u32)

  datatype Ledger = Ledger(pending: set<u32>, batches: seq<Batch>, lastAck: u32, lastSent: u32)

  const EMPTY := Ledger({}, [], 0, 0)
  const MAX_OUTSTANDING := 4096

  datatype Settlement = Settlement(pending: set<u32>, batches: seq<Batch>, accepted: seq<u32>)

  /** A ledger together with every identifier it has reported accepted so far, in order. */
  datatype Outcome = Outcome(ledger: Ledger, accepted: seq<u32>)

  datatype Event = Sent(id: u32) | Acked(batch: Batch) | Refused(id: u32)

  // ---------- Operations ----------

  /** Resolve queued acknowledgements from the front for as long as their counts match. */
  ghost function Settle(pending: set<u32>, batches: seq<Batch>): Option<Settlement>
    decreases |batches|
  {
    if batches == [] then Some(Settlement(pending, [], []))
    else
      var due := UpTo(pending, batches[0].last);
      if |due| < batches[0].count then None
      else if |due| > batches[0].count then Some(Settlement(pending, batches, []))
      else match Settle(pending - due, batches[1..])
           case None => None
           case Some(rest) => Some(rest.(accepted := Sorted(due) + rest.accepted))
  }

  function Submit(l: Ledger, id: u32): Option<Ledger> {
    if id > l.lastSent && |l.pending| < MAX_OUTSTANDING
    then Some(l.(pending := l.pending + {id}, lastSent := id))
    else None
  }

  ghost function Settled(l: Ledger): Option<Outcome> {
    match Settle(l.pending, l.batches)
    case None => None
    case Some(t) => Some(Outcome(l.(pending := t.pending, batches := t.batches), t.accepted))
  }

  predicate Acknowledgeable(l: Ledger, b: Batch) {
    0 < b.count <= MAX_OUTSTANDING && l.lastAck < b.last <= l.lastSent && b.last in l.pending
  }

  ghost function Acknowledge(l: Ledger, b: Batch): Option<Outcome> {
    if Acknowledgeable(l, b) then Settled(l.(lastAck := b.last, batches := l.batches + [b])) else None
  }

  ghost function Refuse(l: Ledger, id: u32): Option<Outcome> {
    if id in l.pending then Settled(l.(pending := l.pending - {id})) else None
  }

  // ---------- Whole runs ----------

  ghost function Then(o: Outcome, next: Option<Outcome>): Option<Outcome> {
    match next
    case None => None
    case Some(n) => Some(n.(accepted := o.accepted + n.accepted))
  }

  ghost function Step(o: Outcome, e: Event): Option<Outcome> {
    match e
    case Sent(id) =>
      (match Submit(o.ledger, id) case None => None case Some(l) => Some(o.(ledger := l)))
    case Acked(b) => Then(o, Acknowledge(o.ledger, b))
    case Refused(id) => Then(o, Refuse(o.ledger, id))
  }

  /** The outcome of a sequence of events, or None as soon as one of them is refused. */
  ghost function Run(es: seq<Event>): Option<Outcome> {
    if es == [] then Some(Outcome(EMPTY, []))
    else match Run(es[..|es| - 1])
         case None => None
         case Some(o) => Step(o, es[|es| - 1])
  }

  function SentIds(es: seq<Event>): set<u32> {
    set k | 0 <= k < |es| && es[k].Sent? :: es[k].id
  }

  function RefusedIds(es: seq<Event>): set<u32> {
    set k | 0 <= k < |es| && es[k].Refused? :: es[k].id
  }

  function Acks(es: seq<Event>): seq<Batch> {
    if es == [] then []
    else Acks(es[..|es| - 1]) + (if es[|es| - 1].Acked? then [es[|es| - 1].batch] else [])
  }

  function TotalCount(bs: seq<Batch>): nat {
    if bs == [] then 0 else TotalCount(bs[..|bs| - 1]) + bs[|bs| - 1].count
  }

  lemma Extend(es: seq<Event>, e: Event)
    ensures SentIds(es + [e]) == if e.Sent? then SentIds(es) + {e.id} else SentIds(es)
    ensures RefusedIds(es + [e]) == if e.Refused? then RefusedIds(es) + {e.id} else RefusedIds(es)
    ensures Acks(es + [e]) == if e.Acked? then Acks(es) + [e.batch] else Acks(es)
    ensures Run(es + [e]) == match Run(es) case None => None case Some(o) => Step(o, e)
  {
    var es' := es + [e];
    assert es'[..|es'| - 1] == es;
    assert forall k :: 0 <= k < |es| ==> es'[k] == es[k];
    assert es'[|es|] == e;
  }

  // ---------- Conservation ----------

  lemma {:induction false} TotalCountSplit(a: seq<Batch>, b: seq<Batch>)
    ensures TotalCount(a + b) == TotalCount(a) + TotalCount(b)
  {
    if b == [] {
      assert a + b == a;
    } else {
      assert (a + b)[..|a + b| - 1] == a + b[..|b| - 1];
      TotalCountSplit(a, b[..|b| - 1]);
    }
  }

  ghost predicate Moved(pending: set<u32>, batches: seq<Batch>, t: Settlement) {
    && t.pending <= pending
    && Below(pending - t.pending, t.pending)
    && t.accepted == Sorted(pending - t.pending)
    && |pending - t.pending| + TotalCount(t.batches) == TotalCount(batches)
  }

  lemma TotalCountHead(bs: seq<Batch>)
    requires bs != []
    ensures TotalCount(bs) == bs[0].count + TotalCount(bs[1..])
  {
    assert bs == [bs[0]] + bs[1..];
    TotalCountSplit([bs[0]], bs[1..]);
    assert [bs[0]][..0] == [];
  }

  lemma MovedStep(pending: set<u32>, batches: seq<Batch>, due: set<u32>, t: Settlement)
    requires batches != [] && due == UpTo(pending, batches[0].last) && |due| == batches[0].count
    requires Moved(pending - due, batches[1..], t)
    ensures Moved(pending, batches, t.(accepted := Sorted(due) + t.accepted))
  {
    hide Sorted, TotalCount;
    var next := pending - due - t.pending;
    SplitMoved(pending, due, t.pending);
    hide Below, UpTo;
    SortedConcat(due, next);
    TotalCountHead(batches);
  }

  /** What goes first and what goes next together are all that goes. */
  lemma SplitMoved(pending: set<u32>, due: set<u32>, rest: set<u32>)
    requires due <= pending && rest <= pending - due
    requires Below(due, pending - due) && Below(pending - due - rest, rest)
    ensures pending - rest == due + (pending - due - rest)
    ensures |pending - rest| == |due| + |pending - due - rest|
    ensures Below(due, pending - due - rest) && Below(pending - rest, rest)
  {
    assert pending - rest == due + (pending - due - rest);
  }

  /** Settling moves the lowest outstanding shares, exactly as many as the batches it resolved count. */
  lemma {:induction false} SettleConserves(pending: set<u32>, batches: seq<Batch>)
    requires Settle(pending, batches).Some?
    ensures Moved(pending, batches, Settle(pending, batches).value)
    decreases |batches|
  {
    assert pending - pending == {};
    if batches != [] {
      var due := UpTo(pending, batches[0].last);
      if |due| == batches[0].count {
        SettleConserves(pending - due, batches[1..]);
        MovedStep(pending, batches, due, Settle(pending - due, batches[1..]).value);
      }
    }
  }

  /** The books of a run: shares sent and refused, batches acknowledged, and what they led to. */
  ghost predicate Balanced(sent: set<u32>, refused: set<u32>, acks: seq<Batch>, o: Outcome) {
    var accepted := sent - refused - o.ledger.pending;
    && (forall x :: x in sent ==> x <= o.ledger.lastSent)
    && refused <= sent
    && o.ledger.pending <= sent - refused
    && o.accepted == Sorted(accepted)
    && Below(accepted, o.ledger.pending)
    && |accepted| + TotalCount(o.ledger.batches) == TotalCount(acks)
  }

  lemma BalancedSubmit(sent: set<u32>, refused: set<u32>, acks: seq<Batch>, o: Outcome, id: u32)
    requires Balanced(sent, refused, acks, o) && id > o.ledger.lastSent
    ensures Balanced(sent + {id}, refused, acks,
                     o.(ledger := o.ledger.(pending := o.ledger.pending + {id}, lastSent := id)))
  {
    assert sent + {id} - refused - (o.ledger.pending + {id}) == sent - refused - o.ledger.pending;
  }

  lemma BalancedSettle(sent: set<u32>, refused: set<u32>, acks: seq<Batch>, o: Outcome)
    requires Balanced(sent, refused, acks, o) && Settled(o.ledger).Some?
    ensures Balanced(sent, refused, acks, Then(o, Settled(o.ledger)).value)
  {
    var p := o.ledger.pending;
    SettleConserves(p, o.ledger.batches);
    var t := Settle(p, o.ledger.batches).value;
    var before := sent - refused - p;
    SortedConcat(before, p - t.pending);
    assert sent - refused - t.pending == before + (p - t.pending);
  }

  lemma BalancedAck(sent: set<u32>, refused: set<u32>, acks: seq<Batch>, o: Outcome, b: Batch)
    requires Balanced(sent, refused, acks, o)
    ensures Balanced(sent, refused, acks + [b],
                     o.(ledger := o.ledger.(lastAck := b.last, batches := o.ledger.batches + [b])))
  {
    TotalCountSplit(acks, [b]);
    TotalCountSplit(o.ledger.batches, [b]);
  }

  lemma BalancedRefuse(sent: set<u32>, refused: set<u32>, acks: seq<Batch>, o: Outcome, id: u32)
    requires Balanced(sent, refused, acks, o) && id in o.ledger.pending
    ensures Balanced(sent, refused + {id}, acks,
                     o.(ledger := o.ledger.(pending := o.ledger.pending - {id})))
  {
    assert sent - (refused + {id}) - (o.ledger.pending - {id}) == sent - refused - o.ledger.pending;
  }

  lemma BalancedStep(sent: set<u32>, refused: set<u32>, acks: seq<Batch>, o: Outcome, e: Event)
    requires Balanced(sent, refused, acks, o) && Step(o, e).Some?
    ensures Balanced(if e.Sent? then sent + {e.id} else sent,
                     if e.Refused? then refused + {e.id} else refused,
                     if e.Acked? then acks + [e.batch] else acks, Step(o, e).value)
  {
    match e
    case Sent(id) => BalancedSubmit(sent, refused, acks, o, id);
    case Acked(b) =>
      var l := o.ledger.(lastAck := b.last, batches := o.ledger.batches + [b]);
      BalancedAck(sent, refused, acks, o, b);
      BalancedSettle(sent, refused, acks + [b], o.(ledger := l));
    case Refused(id) =>
      var l := o.ledger.(pending := o.ledger.pending - {id});
      BalancedRefuse(sent, refused, acks, o, id);
      BalancedSettle(sent, refused + {id}, acks, o.(ledger := l));
  }

  /**
    For every run, whatever the pool sends: accepted, refused and outstanding shares partition
    the submitted ones; accepted ones are reported in strictly increasing order over the whole
    run; and their number is the sum of the counts of the settled batches.
   */
  lemma {:induction false} Conservation(es: seq<Event>)
    requires Run(es).Some?
    ensures Balanced(SentIds(es), RefusedIds(es), Acks(es), Run(es).value)
  {
    if es == [] {
      assert SentIds(es) - RefusedIds(es) - {} == {};
    } else {
      var es', e := es[..|es| - 1], es[|es| - 1];
      assert es == es' + [e];
      Conservation(es');
      ConservationStep(es', e);
    }
  }

  lemma ConservationStep(es: seq<Event>, e: Event)
    requires Run(es).Some? && Balanced(SentIds(es), RefusedIds(es), Acks(es), Run(es).value)
    requires Run(es + [e]).Some?
    ensures Balanced(SentIds(es + [e]), RefusedIds(es + [e]), Acks(es + [e]), Run(es + [e]).value)
  {
    Extend(es, e);
    BalancedStep(SentIds(es), RefusedIds(es), Acks(es), Run(es).value, e);
  }
}
