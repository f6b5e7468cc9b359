/**
  Cumulative, count-only acknowledgements against individually delivered rejects: the result
  of a pool's decisions does not depend on the order in which its messages arrive.
 */
module BatchConfluence {
  import opened Base
  import opened Ordering
  import opened ShareLedger

  /** What the pool decided: the shares sent to it, those it refuses, and where its batches end. */
  datatype Plan = Plan(sent: set<u32>, refused: set<u32>, ends: seq<u32>)

  function Kept(p: Plan): set<u32> {
    p.sent - p.refused
  }

  /** The last sequence number of the batch before batch j. */
  function Bound(p: Plan, j: nat): u32
    requires j <= |p.ends|
  {
    if j == 0 then 0 else p.ends[j - 1]
  }

  function CountOf(p: Plan, j: nat): int
    requires j < |p.ends|
  {
    |UpTo(Kept(p), p.ends[j])| - |UpTo(Kept(p), Bound(p, j))|
  }

  ghost predicate BatchOk(p: Plan, j: nat)
    requires j < |p.ends|
  {
    p.ends[j] in p.sent && Bound(p, j) < p.ends[j] && 0 < CountOf(p, j) <= MAX_OUTSTANDING
  }

  ghost predicate WellFormed(p: Plan) {
    && 0 !in p.sent
    && p.refused <= p.sent
    && forall j :: 0 <= j < |p.ends| ==> BatchOk(p, j)
  }

  function AckOf(p: Plan, j: nat): (b: Batch)
    requires j < |p.ends| && BatchOk(p, j)
  {
    Batch(p.ends[j], CountOf(p, j))
  }

  /** The acknowledgements of batches i up to j, as the pool sends them. */
  ghost function PlanAcks(p: Plan, i: nat, j: nat): (bs: seq<Batch>)
    requires WellFormed(p) && i <= j <= |p.ends|
    ensures |bs| == j - i
    decreases j
  {
    if i == j then [] else assert BatchOk(p, j - 1); PlanAcks(p, i, j - 1) + [AckOf(p, j - 1)]
  }

  /**
    es delivers exactly the decisions of p: shares are sent in increasing order, batches are
    acknowledged in order, every refusal arrives once, nothing is answered before it was sent,
    and the miner's own limit on outstanding shares is respected.
   */
  ghost predicate Interleaving(p: Plan, es: seq<Event>)
    requires WellFormed(p)
  {
    && SentIds(es) == p.sent
    && RefusedIds(es) == p.refused
    && Acks(es) == PlanAcks(p, 0, |p.ends|)
    && (forall k, m :: 0 <= k < m < |es| ==> InOrder(es, k, m))
    && (forall k :: 0 <= k < |es| ==> Timely(es, k))
  }

  ghost predicate InOrder(es: seq<Event>, k: nat, m: nat)
    requires k < m < |es|
  {
    && (es[k].Sent? && es[m].Sent? ==> es[k].id < es[m].id)
    && (es[k].Refused? && es[m].Refused? ==> es[k].id != es[m].id)
  }

  ghost predicate Timely(es: seq<Event>, k: nat)
    requires k < |es|
  {
    match es[k]
    case Sent(_) => RoomAfter(es[..k])
    case Acked(b) => b.last in SentIds(es[..k])
    case Refused(id) => id in SentIds(es[..k])
  }

  ghost predicate RoomAfter(es: seq<Event>) {
    Run(es).Some? ==> |Run(es).value.ledger.pending| < MAX_OUTSTANDING
  }

  /** No share that ends a batch has been refused by the time its batch is acknowledged. */
  ghost predicate EndsOutstanding(es: seq<Event>) {
    forall k :: 0 <= k < |es| && es[k].Acked? ==> es[k].batch.last !in RefusedIds(es[..k])
  }

  /** Where every order of delivery ends: all batches settled, later shares outstanding. */
  ghost function Final(p: Plan, lastSent: u32): Outcome
    requires WellFormed(p)
  {
    var end := Bound(p, |p.ends|);
    Outcome(Ledger(Kept(p) - UpTo(Kept(p), end), [], end, lastSent), Sorted(UpTo(Kept(p), end)))
  }

  // ---------- What is delivered so far ----------

  /** Delivered so far: the shares sent, the refusals, and the first a acknowledgements. */
  ghost predicate Sound(p: Plan, sent: set<u32>, refused: set<u32>, a: nat) {
    && WellFormed(p) && a <= |p.ends|
    && sent <= p.sent && refused <= p.refused && refused <= sent
    && (forall i :: 0 <= i < a ==> Delivered(p, sent, i))
  }

  /** Batch i could be acknowledged: every share up to its end has been sent. */
  ghost predicate Delivered(p: Plan, sent: set<u32>, i: nat)
    requires i < |p.ends|
  {
    p.ends[i] in sent && UpTo(p.sent, p.ends[i]) <= sent
  }

  /** The ledger has settled exactly the first j of the a acknowledged batches. */
  ghost predicate Tracks(p: Plan, sent: set<u32>, refused: set<u32>, a: nat, j: nat, o: Outcome)
    requires Sound(p, sent, refused, a)
  {
    var q := sent - refused;
    && j <= a
    && UpTo(q, Bound(p, j)) == UpTo(Kept(p), Bound(p, j))
    && (j < a ==> UpTo(q, p.ends[j]) != UpTo(Kept(p), p.ends[j]))
    && o.ledger.pending == q - UpTo(q, Bound(p, j))
    && o.ledger.batches == PlanAcks(p, j, a)
    && o.ledger.lastAck == Bound(p, a)
    && (forall x :: x in sent ==> x <= o.ledger.lastSent)
    && o.accepted == Sorted(UpTo(Kept(p), Bound(p, j)))
  }

  // ---------- Settling ----------

  lemma SubsetSize(a: set<u32>, b: set<u32>)
    requires a <= b
    ensures |a| <= |b| && (|a| == |b| ==> a == b)
  {
    assert b == a + (b - a);
    assert |b| == |a| + |b - a|;
  }

  lemma {:induction false} PlanAcksHead(p: Plan, i: nat, j: nat)
    requires WellFormed(p) && i < j <= |p.ends|
    ensures BatchOk(p, i) && PlanAcks(p, i, j) == [AckOf(p, i)] + PlanAcks(p, i + 1, j)
    decreases j
  {
    assert BatchOk(p, i);
    if i < j - 1 {
      PlanAcksHead(p, i, j - 1);
      assert BatchOk(p, j - 1);
      assert PlanAcks(p, i, j) == [AckOf(p, i)] + (PlanAcks(p, i + 1, j - 1) + [AckOf(p, j - 1)]);
    }
  }

  /** The shares due for batch j are those kept, plus the refusals that have yet to arrive. */
  lemma DueOfBatch(p: Plan, q: set<u32>, j: nat)
    requires WellFormed(p) && j < |p.ends|
    requires UpTo(q, Bound(p, j)) == UpTo(Kept(p), Bound(p, j))
    requires UpTo(Kept(p), p.ends[j]) <= UpTo(q, p.ends[j])
    ensures var due := UpTo(q - UpTo(q, Bound(p, j)), p.ends[j]);
            && due == UpTo(q, p.ends[j]) - UpTo(q, Bound(p, j))
            && |due| >= CountOf(p, j)
            && (|due| == CountOf(p, j) <==> UpTo(q, p.ends[j]) == UpTo(Kept(p), p.ends[j]))
  {
    var lo, hi := UpTo(q, Bound(p, j)), UpTo(q, p.ends[j]);
    var due := UpTo(q - lo, p.ends[j]);
    assert BatchOk(p, j);
    assert due == hi - lo;
    assert lo <= hi;
    assert hi == due + lo;
    SubsetSize(UpTo(Kept(p), p.ends[j]), hi);
  }

  /** The settled part of a window, put together from its first batch and the rest. */
  lemma SettleJoin(q: set<u32>, kept: set<u32>, x: u32, y: u32, z: u32)
    requires x <= y <= z && UpTo(q, x) == UpTo(kept, x) && UpTo(q, y) == UpTo(kept, y)
    ensures q - UpTo(q, x) - (UpTo(q, y) - UpTo(q, x)) == q - UpTo(q, y)
    ensures Sorted(UpTo(q, y) - UpTo(q, x)) + Sorted(UpTo(kept, z) - UpTo(kept, y))
         == Sorted(UpTo(kept, z) - UpTo(kept, x))
  {
    var lo, mid, hi := UpTo(kept, x), UpTo(kept, y), UpTo(kept, z);
    SortedConcat(mid - lo, hi - mid);
    assert (mid - lo) + (hi - mid) == hi - lo;
  }

  lemma {:induction false} SettleFrom(p: Plan, q: set<u32>, j: nat, a: nat) returns (k: nat)
    requires WellFormed(p) && j <= a <= |p.ends|
    requires UpTo(q, Bound(p, j)) == UpTo(Kept(p), Bound(p, j))
    requires forall i :: j <= i < a ==> UpTo(Kept(p), p.ends[i]) <= UpTo(q, p.ends[i])
    ensures j <= k <= a && Bound(p, j) <= Bound(p, k)
    ensures UpTo(q, Bound(p, k)) == UpTo(Kept(p), Bound(p, k))
    ensures k < a ==> UpTo(q, p.ends[k]) != UpTo(Kept(p), p.ends[k])
    ensures Settle(q - UpTo(q, Bound(p, j)), PlanAcks(p, j, a))
         == Some(Settlement(q - UpTo(q, Bound(p, k)), PlanAcks(p, k, a),
                            Sorted(UpTo(Kept(p), Bound(p, k)) - UpTo(Kept(p), Bound(p, j)))))
    decreases a - j
  {
    k := j;
    var lo := UpTo(q, Bound(p, j));
    assert lo - lo == {};
    if j < a {
      PlanAcksHead(p, j, a);
      DueOfBatch(p, q, j);
      if UpTo(q, p.ends[j]) == UpTo(Kept(p), p.ends[j]) {
        k := SettleFrom(p, q, j + 1, a);
        SettleJoin(q, Kept(p), Bound(p, j), p.ends[j], Bound(p, k));
      }
    }
  }

  /** Settling after a delivery re-establishes the invariant. */
  lemma Resettle(p: Plan, sent: set<u32>, refused: set<u32>, a: nat, j: nat, l: Ledger, accepted: seq<u32>)
    returns (k: nat)
    requires Sound(p, sent, refused, a) && j <= a
    requires var q := sent - refused;
             && UpTo(q, Bound(p, j)) == UpTo(Kept(p), Bound(p, j))
             && l.pending == q - UpTo(q, Bound(p, j))
    requires l.batches == PlanAcks(p, j, a) && l.lastAck == Bound(p, a)
    requires forall x :: x in sent ==> x <= l.lastSent
    requires accepted == Sorted(UpTo(Kept(p), Bound(p, j)))
    ensures Settled(l).Some? && Settled(l).value.ledger.lastSent == l.lastSent
    ensures Tracks(p, sent, refused, a, k, Then(Outcome(l, accepted), Settled(l)).value)
  {
    var q := sent - refused;
    forall i | j <= i < a ensures UpTo(Kept(p), p.ends[i]) <= UpTo(q, p.ends[i]) {
      assert Delivered(p, sent, i);
      assert UpTo(Kept(p), p.ends[i]) <= UpTo(p.sent, p.ends[i]);
    }
    k := SettleFrom(p, q, j, a);
    var low, top := UpTo(Kept(p), Bound(p, j)), UpTo(Kept(p), Bound(p, k));
    SortedConcat(low, top - low);
    assert low + (top - low) == top;
  }

  // ---------- One delivery ----------

  lemma TracksSent(p: Plan, sent: set<u32>, refused: set<u32>, a: nat, j: nat, o: Outcome, id: u32)
    requires Sound(p, sent, refused, a) && Tracks(p, sent, refused, a, j, o)
    requires id in p.sent && o.ledger.lastSent < id && |o.ledger.pending| < MAX_OUTSTANDING
    ensures Sound(p, sent + {id}, refused, a)
    ensures Step(o, Sent(id)).Some?
    ensures Tracks(p, sent + {id}, refused, a, j, Step(o, Sent(id)).value)
    ensures Step(o, Sent(id)).value.ledger.lastSent == id
  {
    var q := sent - refused;
    assert sent + {id} - refused == q + {id} by {
      assert id !in refused;
    }
    forall i | 0 <= i < a ensures Delivered(p, sent + {id}, i) && p.ends[i] < id {
      assert Delivered(p, sent, i);
    }
    assert UpTo(q + {id}, Bound(p, j)) == UpTo(q, Bound(p, j));
    if j < a {
      assert UpTo(q + {id}, p.ends[j]) == UpTo(q, p.ends[j]);
    }
  }

  lemma TracksAcked(p: Plan, sent: set<u32>, refused: set<u32>, a: nat, j: nat, o: Outcome)
    returns (k: nat)
    requires Sound(p, sent, refused, a) && Tracks(p, sent, refused, a, j, o)
    requires a < |p.ends| && p.ends[a] !in refused && Sound(p, sent, refused, a + 1)
    ensures BatchOk(p, a)
    ensures var e := Acked(AckOf(p, a));
            && Step(o, e).Some?
            && Tracks(p, sent, refused, a + 1, k, Step(o, e).value)
            && Step(o, e).value.ledger.lastSent == o.ledger.lastSent
  {
    assert BatchOk(p, a);
    var b := AckOf(p, a);
    assert Delivered(p, sent, a);
    BoundsIncrease(p, j, a);
    assert Acknowledgeable(o.ledger, b);
    k := Resettle(p, sent, refused, a + 1, j,
                  o.ledger.(lastAck := b.last, batches := o.ledger.batches + [b]), o.accepted);
  }

  lemma TracksRefused(p: Plan, sent: set<u32>, refused: set<u32>, a: nat, j: nat, o: Outcome, id: u32)
    returns (k: nat)
    requires Sound(p, sent, refused, a) && Tracks(p, sent, refused, a, j, o)
    requires id in p.refused && id in sent && id !in refused
    ensures Sound(p, sent, refused + {id}, a)
    ensures Step(o, Refused(id)).Some?
    ensures Tracks(p, sent, refused + {id}, a, k, Step(o, Refused(id)).value)
    ensures Step(o, Refused(id)).value.ledger.lastSent == o.ledger.lastSent
  {
    var q := sent - refused;
    assert Sound(p, sent, refused + {id}, a);
    assert id !in UpTo(Kept(p), Bound(p, j));
    assert id in o.ledger.pending;
    assert sent - (refused + {id}) == q - {id};
    assert UpTo(q - {id}, Bound(p, j)) == UpTo(q, Bound(p, j));
    assert q - UpTo(q, Bound(p, j)) - {id} == q - {id} - UpTo(q, Bound(p, j));
    k := Resettle(p, sent, refused + {id}, a, j,
                  o.ledger.(pending := o.ledger.pending - {id}), o.accepted);
  }

  lemma {:induction false} BoundsIncrease(p: Plan, i: nat, j: nat)
    requires WellFormed(p) && i <= j <= |p.ends|
    ensures Bound(p, i) <= Bound(p, j)
  {
    if i < j {
      BoundsIncrease(p, i, j - 1);
      assert BatchOk(p, j - 1);
    }
  }

  // ---------- Whole interleavings ----------

  lemma {:induction false} AcksPrefix(es: seq<Event>, n: nat)
    requires n <= |es|
    ensures |Acks(es[..n])| <= |Acks(es)| && Acks(es[..n]) == Acks(es)[..|Acks(es[..n])|]
    decreases |es|
  {
    if n == |es| {
      assert es[..n] == es;
    } else {
      AcksPrefix(es[..|es| - 1], n);
      assert es[..|es| - 1][..n] == es[..n];
    }
  }

  lemma {:induction false} PlanAcksAt(p: Plan, j: nat, i: nat)
    requires WellFormed(p) && i < j <= |p.ends|
    ensures BatchOk(p, i) && PlanAcks(p, 0, j)[i] == AckOf(p, i)
    ensures PlanAcks(p, 0, j)[..i] == PlanAcks(p, 0, i)
    decreases j
  {
    assert BatchOk(p, i);
    if i < j - 1 {
      PlanAcksAt(p, j - 1, i);
    }
  }

  lemma SentAt(es: seq<Event>, n: nat, x: u32) returns (k: nat)
    requires n <= |es| && x in SentIds(es[..n])
    ensures k < n && es[k] == Sent(x)
  {
    k :| 0 <= k < n && es[..n][k].Sent? && es[..n][k].id == x;
  }

  lemma RefusedAt(es: seq<Event>, n: nat, x: u32) returns (k: nat)
    requires n <= |es| && x in RefusedIds(es[..n])
    ensures k < n && es[k] == Refused(x)
  {
    k :| 0 <= k < n && es[..n][k].Refused? && es[..n][k].id == x;
  }

  lemma SentBy(es: seq<Event>, n: nat, k: nat)
    requires k < n <= |es| && es[k].Sent?
    ensures es[k].id in SentIds(es[..n])
  {
    assert es[..n][k] == es[k];
  }

  /** Sending in order: once a share is sent, all lower ones have been. */
  lemma SentDownwards(p: Plan, es: seq<Event>, n: nat, end: u32)
    requires WellFormed(p) && Interleaving(p, es) && n <= |es| && end in SentIds(es[..n])
    ensures UpTo(p.sent, end) <= SentIds(es[..n])
  {
    var k := SentAt(es, n, end);
    assert es[..|es|] == es;
    forall x | x in UpTo(p.sent, end) ensures x in SentIds(es[..n]) {
      var m := SentAt(es, |es|, x);
      assert m <= k || InOrder(es, k, m);
      SentBy(es, n, m);
    }
  }

  lemma {:induction false} AckedEarlier(p: Plan, es: seq<Event>, n: nat, i: nat)
    requires WellFormed(p) && Interleaving(p, es) && n <= |es| && i < |Acks(es[..n])|
    ensures i < |p.ends| && p.ends[i] in SentIds(es[..n])
    decreases n
  {
    AcksPrefix(es, n);
    assert es[..n] == es[..n - 1] + [es[n - 1]];
    Extend(es[..n - 1], es[n - 1]);
    if i < |Acks(es[..n - 1])| {
      AckedEarlier(p, es, n - 1, i);
    } else {
      PlanAcksAt(p, |p.ends|, i);
      assert Acks(es[..n])[i] == es[n - 1].batch;
      assert Timely(es, n - 1);
    }
  }

  lemma PrefixSound(p: Plan, es: seq<Event>, n: nat)
    requires WellFormed(p) && Interleaving(p, es) && n <= |es|
    ensures Sound(p, SentIds(es[..n]), RefusedIds(es[..n]), |Acks(es[..n])|)
  {
    AcksPrefix(es, n);
    var sent := SentIds(es[..n]);
    assert es[..|es|] == es;
    forall i | 0 <= i < |Acks(es[..n])| ensures Delivered(p, sent, i) {
      AckedEarlier(p, es, n, i);
      SentDownwards(p, es, n, p.ends[i]);
    }
    forall x | x in sent ensures x in p.sent {
      var k := SentAt(es, n, x);
      SentBy(es, |es|, k);
    }
    forall x | x in RefusedIds(es[..n]) ensures x in p.refused && x in sent {
      var k := RefusedAt(es, n, x);
      assert es[k].Refused?;
      assert Timely(es, k);
      var m := SentAt(es, k, x);
      SentBy(es, n, m);
    }
  }

  /** The last sequence number sent so far is one of the shares sent, or zero. */
  ghost predicate LastIsSent(o: Outcome, sent: set<u32>) {
    o.ledger.lastSent == 0 || o.ledger.lastSent in sent
  }

  lemma AckedIsSound(p: Plan, es: seq<Event>, n: nat)
    requires n < |es| && es[n].Acked? && WellFormed(p) && Interleaving(p, es)
    ensures Sound(p, SentIds(es[..n]), RefusedIds(es[..n]), |Acks(es[..n])| + 1)
  {
    OneMore(es, n);
    PrefixSound(p, es, n + 1);
  }

  /** Everything known after the first n deliveries; j batches are settled. */
  ghost predicate Follows(p: Plan, es: seq<Event>, n: nat, j: nat)
    requires n <= |es|
  {
    var front := es[..n];
    && Sound(p, SentIds(front), RefusedIds(front), |Acks(front)|)
    && Run(front).Some?
    && LastIsSent(Run(front).value, SentIds(front))
    && Tracks(p, SentIds(front), RefusedIds(front), |Acks(front)|, j, Run(front).value)
  }

  lemma NextSent(p: Plan, es: seq<Event>, n: nat, last: u32)
    requires n < |es| && es[n].Sent? && WellFormed(p) && Interleaving(p, es)
    requires last == 0 || last in SentIds(es[..n])
    ensures es[n].id in p.sent && es[n].id > last
  {
    assert es[..|es|] == es;
    SentBy(es, |es|, n);
    if last != 0 {
      var k := SentAt(es, n, last);
      assert InOrder(es, k, n);
    }
  }

  lemma NextRefused(p: Plan, es: seq<Event>, n: nat)
    requires n < |es| && es[n].Refused? && WellFormed(p) && Interleaving(p, es)
    ensures es[n].id in p.refused && es[n].id !in RefusedIds(es[..n]) && es[n].id in SentIds(es[..n])
  {
    assert es[..|es|] == es;
    assert Timely(es, n);
    forall k | 0 <= k < n && es[k].Refused? ensures es[..n][k] == es[k] && es[k].id != es[n].id {
      assert InOrder(es, k, n);
    }
  }

  lemma NextAcked(p: Plan, es: seq<Event>, n: nat)
    requires n < |es| && es[n].Acked? && WellFormed(p) && Interleaving(p, es)
    ensures var a := |Acks(es[..n])|; a < |p.ends| && BatchOk(p, a) && es[n].batch == AckOf(p, a)
  {
    OneMore(es, n);
    AcksPrefix(es, n + 1);
    PlanAcksAt(p, |p.ends|, |Acks(es[..n])|);
  }

  /** The sets and lists of the first n + 1 deliveries from those of the first n. */
  lemma OneMore(es: seq<Event>, n: nat)
    requires n < |es|
    ensures SentIds(es[..n + 1]) == if es[n].Sent? then SentIds(es[..n]) + {es[n].id} else SentIds(es[..n])
    ensures RefusedIds(es[..n + 1])
         == if es[n].Refused? then RefusedIds(es[..n]) + {es[n].id} else RefusedIds(es[..n])
    ensures Acks(es[..n + 1]) == if es[n].Acked? then Acks(es[..n]) + [es[n].batch] else Acks(es[..n])
    ensures Run(es[..n + 1]) == match Run(es[..n]) case None => None case Some(o) => Step(o, es[n])
  {
    assert es[..n + 1] == es[..n] + [es[n]];
    Extend(es[..n], es[n]);
  }

  lemma FollowsSent(p: Plan, es: seq<Event>, n: nat, j: nat)
    requires n < |es| && es[n].Sent? && Follows(p, es, n, j)
    requires es[n].id in p.sent && es[n].id > Run(es[..n]).value.ledger.lastSent && RoomAfter(es[..n])
    ensures Follows(p, es, n + 1, j)
  {
    var front := es[..n];
    OneMore(es, n);
    TracksSent(p, SentIds(front), RefusedIds(front), |Acks(front)|, j, Run(front).value, es[n].id);
  }

  lemma FollowsAcked(p: Plan, es: seq<Event>, n: nat, j: nat) returns (k: nat)
    requires n < |es| && es[n].Acked? && Follows(p, es, n, j)
    requires var a := |Acks(es[..n])|;
             a < |p.ends| && BatchOk(p, a) && es[n].batch == AckOf(p, a)
             && Sound(p, SentIds(es[..n]), RefusedIds(es[..n]), a + 1)
    requires es[n].batch.last !in RefusedIds(es[..n])
    ensures Follows(p, es, n + 1, k)
  {
    var front := es[..n];
    OneMore(es, n);
    k := TracksAcked(p, SentIds(front), RefusedIds(front), |Acks(front)|, j, Run(front).value);
  }

  lemma FollowsRefused(p: Plan, es: seq<Event>, n: nat, j: nat) returns (k: nat)
    requires n < |es| && es[n].Refused? && Follows(p, es, n, j)
    requires es[n].id in p.refused && es[n].id !in RefusedIds(es[..n]) && es[n].id in SentIds(es[..n])
    ensures Follows(p, es, n + 1, k)
  {
    var front := es[..n];
    OneMore(es, n);
    k := TracksRefused(p, SentIds(front), RefusedIds(front), |Acks(front)|, j, Run(front).value, es[n].id);
  }

  lemma {:induction false} FollowsAll(p: Plan, es: seq<Event>, n: nat) returns (j: nat)
    requires WellFormed(p) && Interleaving(p, es) && EndsOutstanding(es) && n <= |es|
    ensures Follows(p, es, n, j)
    decreases n
  {
    if n == 0 {
      j := 0;
      PrefixSound(p, es, 0);
      assert UpTo(Kept(p), 0) == {};
      var none: set<u32> := {};
      assert none - UpTo(none, 0) == {};
    } else {
      var i := FollowsAll(p, es, n - 1);
      match es[n - 1]
      case Sent(_) =>
        NextSent(p, es, n - 1, Run(es[..n - 1]).value.ledger.lastSent);
        assert Timely(es, n - 1);
        FollowsSent(p, es, n - 1, i);
        j := i;
      case Acked(_) =>
        NextAcked(p, es, n - 1);
        AckedIsSound(p, es, n - 1);
        j := FollowsAcked(p, es, n - 1, i);
      case Refused(_) =>
        NextRefused(p, es, n - 1);
        j := FollowsRefused(p, es, n - 1, i);
    }
  }

  /**
    For every plan and every order of delivery: the session survives if and only if no batch is
    acknowledged after the refusal of its own last share, and then the outcome is always the same.
   */
  lemma Confluence(p: Plan, es: seq<Event>)
    requires WellFormed(p) && Interleaving(p, es)
    ensures Run(es).Some? <==> EndsOutstanding(es)
    ensures Run(es).Some? ==> Run(es).value == Final(p, Run(es).value.ledger.lastSent)
    ensures Run(es).Some? ==> forall x :: x in p.sent ==> x <= Run(es).value.ledger.lastSent
    ensures Run(es).Some? ==> LastIsSent(Run(es).value, p.sent)
  {
    assert es[..|es|] == es;
    if EndsOutstanding(es) {
      var j := FollowsAll(p, es, |es|);
      assert |Acks(es)| == |p.ends|;
      assert PlanAcks(p, |p.ends|, |p.ends|) == [];
    } else {
      var k :| 0 <= k < |es| && es[k].Acked? && es[k].batch.last in RefusedIds(es[..k]);
      LateEndRejected(es, k);
      StaysFailed(es, k + 1, |es|);
    }
  }

  lemma LateEndRejected(es: seq<Event>, k: nat)
    requires k < |es| && es[k].Acked? && es[k].batch.last in RefusedIds(es[..k])
    ensures Run(es[..k + 1]).None?
  {
    OneMore(es, k);
    if Run(es[..k]).Some? {
      Conservation(es[..k]);
      assert es[k].batch.last !in Run(es[..k]).value.ledger.pending;
    }
  }

  lemma {:induction false} StaysFailed(es: seq<Event>, m: nat, n: nat)
    requires m <= n <= |es| && Run(es[..m]).None?
    ensures Run(es[..n]).None?
    decreases n
  {
    if m < n {
      StaysFailed(es, m, n - 1);
      OneMore(es, n - 1);
    }
  }

  /** Two deliveries of the same decisions that both go through leave the same books. */
  lemma OrderIrrelevant(p: Plan, es: seq<Event>, fs: seq<Event>)
    requires WellFormed(p) && Interleaving(p, es) && Interleaving(p, fs)
    requires EndsOutstanding(es) && EndsOutstanding(fs)
    ensures Run(es) == Run(fs) && Run(es).Some?
  {
    Confluence(p, es);
    Confluence(p, fs);
    var a, b := Run(es).value, Run(fs).value;
    assert a.ledger.lastSent == b.ledger.lastSent;
  }

  /** When no batch ends in a refused share, no order of delivery can break the session. */
  lemma NoOrderFails(p: Plan, es: seq<Event>)
    requires WellFormed(p) && Interleaving(p, es)
    requires forall j :: 0 <= j < |p.ends| ==> p.ends[j] !in p.refused
    ensures Run(es).Some? && Run(es).value == Final(p, Run(es).value.ledger.lastSent)
  {
    forall k | 0 <= k < |es| && es[k].Acked? ensures es[k].batch.last !in RefusedIds(es[..k]) {
      AckedIsPlanned(p, es, k);
      PrefixSound(p, es, k);
    }
    Confluence(p, es);
  }

  lemma AckedIsPlanned(p: Plan, es: seq<Event>, k: nat)
    requires WellFormed(p) && Interleaving(p, es) && k < |es| && es[k].Acked?
    ensures es[k].batch.last in p.ends
  {
    assert es[..k + 1] == es[..k] + [es[k]];
    Extend(es[..k], es[k]);
    AcksPrefix(es, k + 1);
    PlanAcksAt(p, |p.ends|, |Acks(es[..k])|);
  }
}
