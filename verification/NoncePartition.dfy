/** How an SV2 cursor becomes a time, a nonce and a batch that never crosses a nonce boundary. */
module NoncePartition {
  import opened Base

  const NONCES := 0x1_0000_0000
  const SPACE := 0x100_0000_0000_0000
  const SLOTS := 256

  datatype Part = Part(nonce: u32, ntime: u32, count: u32)

  function TimeAt(base: u32, slot: nat, cursor: nat): u32 {
    (base + slot * 0x100_0000 + cursor / NONCES) % NONCES
  }

  function Partition(base: u32, slot: nat, cursor: nat, batch: u32): Result<Part> {
    if slot >= SLOTS || cursor >= SPACE || batch == 0 then Failure
    else
      var nonce: u32 := cursor % NONCES;
      Success(Part(nonce, TimeAt(base, slot, cursor), Min(batch, NONCES - nonce)))
  }

  /** The reservations made from a cursor by a sequence of batch sizes: each position and its length. */
  function Reserve(cursor: nat, batches: seq<u32>): Result<seq<(nat, nat)>>
    decreases |batches|
  {
    if batches == [] then Success([])
    else
      var p :- Partition(0, 0, cursor, batches[0]);
      var rest :- Reserve(cursor + p.count, batches[1..]);
      Success([(cursor, p.count as nat)] + rest)
  }

  function Total(ranges: seq<(nat, nat)>): nat {
    if ranges == [] then 0 else ranges[0].1 + Total(ranges[1..])
  }

  /** Ranges end to end from a start: each begins where the one before it ended. */
  predicate EndToEnd(from: nat, ranges: seq<(nat, nat)>)
    decreases |ranges|
  {
    ranges != [] ==> ranges[0].0 == from && ranges[0].1 > 0 && EndToEnd(from + ranges[0].1, ranges[1..])
  }

  /** A reservation has the size asked for, unless it would cross a nonce boundary: then it ends there. */
  lemma CountFits(cursor: nat, batch: u32)
    requires cursor < SPACE && batch > 0
    ensures Partition(0, 0, cursor, batch).Success?
    ensures var p := Partition(0, 0, cursor, batch).value;
            && 0 < p.count <= batch && p.nonce + p.count <= 0x1_0000_0000 && cursor + p.count <= SPACE
            && (p.count < batch ==> p.nonce + p.count == 0x1_0000_0000)
            && p.nonce == cursor % 0x1_0000_0000
  {
  }

  ghost predicate Positive(batches: seq<u32>) {
    forall i :: 0 <= i < |batches| ==> batches[i] > 0
  }

  /** Reservations of any positive batch sizes are laid end to end and stay within the space. */
  lemma {:induction false} ReservationsTile(cursor: nat, batches: seq<u32>)
    requires cursor <= SPACE && Positive(batches) && Reserve(cursor, batches).Success?
    ensures var r := Reserve(cursor, batches).value;
            |r| == |batches| && EndToEnd(cursor, r) && cursor + Total(r) <= SPACE
    decreases |batches|
  {
    if batches != [] {
      CountFits(cursor, batches[0]);
      ReservationsTile(cursor + Partition(0, 0, cursor, batches[0]).value.count, batches[1..]);
    }
  }

  /** These reservations succeed and leave nothing. */
  predicate ExhaustedAfter(cursor: nat, batches: seq<u32>) {
    var r := Reserve(cursor, batches);
    r.Success? && cursor + Total(r.value) == SPACE
  }

  lemma ExhaustedCons(cursor: nat, batches: seq<u32>, n: nat)
    requires 0 < n <= |batches| && cursor < SPACE && batches[0] > 0
    ensures var p := Partition(0, 0, cursor, batches[0]);
            && p.Success?
            && (ExhaustedAfter(cursor, batches[..n]) <==> ExhaustedAfter(cursor + p.value.count, batches[1..][..n - 1]))
  {
    CountFits(cursor, batches[0]);
    assert batches[..n][1..] == batches[1..][..n - 1];
    assert batches[..n][0] == batches[0];
    var rest := Reserve(cursor + Partition(0, 0, cursor, batches[0]).value.count, batches[1..][..n - 1]);
    if rest.Success? {
      var p := Partition(0, 0, cursor, batches[0]).value;
      var all := [(cursor, p.count as nat)] + rest.value;
      assert all[1..] == rest.value;
    }
  }

  lemma {:induction false} ExhaustedFails(cursor: nat, batches: seq<u32>, n: nat)
    requires cursor <= SPACE && Positive(batches) && n < |batches| && ExhaustedAfter(cursor, batches[..n])
    ensures Reserve(cursor, batches).Failure?
    decreases |batches|
  {
    if n > 0 && cursor < SPACE {
      ExhaustedCons(cursor, batches, n);
      CountFits(cursor, batches[0]);
      ExhaustedFails(cursor + Partition(0, 0, cursor, batches[0]).value.count, batches[1..], n - 1);
    }
  }

  lemma {:induction false} FailureExhausts(cursor: nat, batches: seq<u32>) returns (n: nat)
    requires cursor <= SPACE && Positive(batches) && Reserve(cursor, batches).Failure?
    ensures n < |batches| && ExhaustedAfter(cursor, batches[..n])
    decreases |batches|
  {
    if cursor == SPACE {
      n := 0;
    } else {
      CountFits(cursor, batches[0]);
      n := FailureExhausts(cursor + Partition(0, 0, cursor, batches[0]).value.count, batches[1..]);
      n := n + 1;
      ExhaustedCons(cursor, batches, n);
    }
  }

  /** Reserving fails exactly when some of the batches already use up all 2^56 positions and more follow. */
  lemma FailsExactlyWhenExhausted(cursor: nat, batches: seq<u32>)
    requires cursor <= SPACE && Positive(batches)
    ensures Reserve(cursor, batches).Failure?
            <==> exists n :: 0 <= n < |batches| && ExhaustedAfter(cursor, batches[..n])
  {
    if Reserve(cursor, batches).Failure? {
      var n := FailureExhausts(cursor, batches);
    }
    forall n | 0 <= n < |batches| && ExhaustedAfter(cursor, batches[..n])
      ensures Reserve(cursor, batches).Failure?
    {
      ExhaustedFails(cursor, batches, n);
    }
  }

  /** Every position below the end lies in exactly one of the ranges. */
  lemma {:induction false} TiledOnce(from: nat, ranges: seq<(nat, nat)>, p: nat) returns (k: nat)
    requires EndToEnd(from, ranges) && from <= p < from + Total(ranges)
    ensures k < |ranges| && Holds(ranges, k, p)
    ensures forall i :: 0 <= i < |ranges| && Holds(ranges, i, p) ==> i == k
    decreases |ranges|
  {
    if p < from + ranges[0].1 {
      k := 0;
      StartsAfter(from + ranges[0].1, ranges[1..]);
      forall i | 0 < i < |ranges|
        ensures !Holds(ranges, i, p)
      {
        assert ranges[i] == ranges[1..][i - 1];
      }
    } else {
      var j := TiledOnce(from + ranges[0].1, ranges[1..], p);
      k := j + 1;
      assert ranges[k] == ranges[1..][j];
      forall i | 0 < i < |ranges| && Holds(ranges, i, p)
        ensures i == k
      {
        assert Holds(ranges[1..], i - 1, p);
      }
    }
  }

  predicate Holds(ranges: seq<(nat, nat)>, i: nat, p: nat)
    requires i < |ranges|
  {
    ranges[i].0 <= p < ranges[i].0 + ranges[i].1
  }

  lemma {:induction false} StartsAfter(from: nat, ranges: seq<(nat, nat)>)
    requires EndToEnd(from, ranges)
    ensures forall i :: 0 <= i < |ranges| ==> ranges[i].0 >= from
    decreases |ranges|
  {
    if ranges != [] {
      StartsAfter(from + ranges[0].1, ranges[1..]);
      forall i | 0 < i < |ranges|
        ensures ranges[i].0 >= from
      {
        assert ranges[i] == ranges[1..][i - 1];
      }
    }
  }

  /** What a time and nonce stand for: 2^24 times of 2^32 nonces each to a slot. */
  function PositionOf(base: u32, ntime: u32, nonce: u32): nat {
    ((ntime - base) % 0x1_0000_0000) * 0x1_0000_0000 + nonce
  }

  lemma TimeShift(base: u32, k: nat)
    requires k < NONCES
    ensures ((base + k) % NONCES - base) % NONCES == k
  {
  }

  /** There is a partition exactly for one of 256 slots, a cursor below 2^56 and a batch that is not empty. */
  lemma PartitionExists(base: u32, slot: nat, cursor: nat, batch: u32)
    ensures Partition(base, slot, cursor, batch).Success?
            <==> slot < 256 && cursor < 0x100_0000_0000_0000 && batch > 0
  {
  }

  /**
    A batch started at a cursor of a slot covers the positions cursor .. cursor + count of that slot's 2^56: its
    k-th nonce, at the batch's time, stands for slot * 2^56 + cursor + k. So distinct positions, of one slot or
    of several, are distinct (time, nonce) pairs.
   */
  lemma PositionsAreKeys(base: u32, slot: nat, cursor: nat, batch: u32, k: nat)
    requires Partition(base, slot, cursor, batch).Success? && k < Partition(base, slot, cursor, batch).value.count
    ensures var p := Partition(base, slot, cursor, batch).value;
            && p.nonce + k < 0x1_0000_0000
            && PositionOf(base, p.ntime, p.nonce + k) == slot * 0x100_0000_0000_0000 + cursor + k
            && p.ntime == TimeAt(base, slot, cursor + k) && p.nonce + k == (cursor + k) % 0x1_0000_0000
  {
    var q, r := cursor / NONCES, cursor % NONCES;
    assert cursor == NONCES * q + r;
    assert (cursor + k) / NONCES == q && (cursor + k) % NONCES == r + k;
    TimeShift(base, slot * 0x100_0000 + q);
  }
}
