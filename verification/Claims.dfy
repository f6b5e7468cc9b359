/**
  Bookkeeping of search space: every lane has a clock (a generation and a cursor into it), workers hold
  spans of positions they are searching, and found positions travel towards submission. Whatever the
  interleaving, no position is ever held or found twice.
 */
module Claims {
  import opened Base

  datatype Clock = Clock(generation: nat, cursor: nat)
  datatype Slot = Slot(generation: nat, lane: nat, position: nat)
  datatype Span = Span(generation: nat, lane: nat, from: nat, to: nat)

  datatype Book = Book(clocks: seq<Clock>, items: seq<Slot>, spans: seq<Option<Span>>)

  predicate Behind(clocks: seq<Clock>, x: Slot) {
    && x.lane < |clocks| && x.generation <= clocks[x.lane].generation
    && (x.generation == clocks[x.lane].generation ==> x.position < clocks[x.lane].cursor)
  }

  predicate Within(clocks: seq<Clock>, s: Option<Span>) {
    s.Some? ==>
      && s.value.lane < |clocks| && s.value.generation <= clocks[s.value.lane].generation
      && (s.value.generation == clocks[s.value.lane].generation ==> s.value.to <= clocks[s.value.lane].cursor)
  }

  predicate Covers(s: Option<Span>, x: Slot) {
    s.Some? && s.value.generation == x.generation && s.value.lane == x.lane && s.value.from <= x.position < s.value.to
  }

  predicate Apart(s: Option<Span>, t: Option<Span>) {
    s.Some? && t.Some? && s.value.generation == t.value.generation && s.value.lane == t.value.lane
    ==> s.value.to <= t.value.from || t.value.to <= s.value.from
  }

  ghost predicate ItemsBehind(clocks: seq<Clock>, items: seq<Slot>) {
    forall i :: 0 <= i < |items| ==> Behind(clocks, items[i])
  }

  ghost predicate Distinct(items: seq<Slot>) {
    forall i, k :: 0 <= i < k < |items| ==> items[i] != items[k]
  }

  ghost predicate SpansWithin(clocks: seq<Clock>, spans: seq<Option<Span>>) {
    forall w :: 0 <= w < |spans| ==> Within(clocks, spans[w])
  }

  ghost predicate Uncovered(spans: seq<Option<Span>>, items: seq<Slot>) {
    forall w, i :: 0 <= w < |spans| && 0 <= i < |items| ==> !Covers(spans[w], items[i])
  }

  ghost predicate SpansApart(spans: seq<Option<Span>>) {
    forall v, w :: 0 <= v < w < |spans| ==> Apart(spans[v], spans[w])
  }

  ghost predicate Sound(b: Book) {
    && ItemsBehind(b.clocks, b.items) && Distinct(b.items)
    && SpansWithin(b.clocks, b.spans) && Uncovered(b.spans, b.items) && SpansApart(b.spans)
  }

  // ---------- Operations ----------

  function Forward(c: Clock, generation: nat): Clock {
    if c.generation == generation then c else Clock(generation, 0)
  }

  /** Move a lane to a generation, starting over when it is new. */
  function Turn(b: Book, lane: nat, generation: nat): Book
    requires lane < |b.clocks|
  {
    b.(clocks := b.clocks[lane := Forward(b.clocks[lane], generation)])
  }

  /** Worker w takes the next n positions of a lane. */
  function Take(b: Book, w: nat, lane: nat, n: nat): Book
    requires lane < |b.clocks| && w < |b.spans|
  {
    var c := b.clocks[lane];
    b.(clocks := b.clocks[lane := Clock(c.generation, c.cursor + n)],
       spans := b.spans[w := Some(Span(c.generation, lane, c.cursor, c.cursor + n))])
  }

  /** Worker w gives up its span. */
  function Leave(b: Book, w: nat): Book
    requires w < |b.spans|
  {
    b.(spans := b.spans[w := None])
  }

  function SlotsAt(s: Span, positions: seq<nat>): (items: seq<Slot>)
    ensures |items| == |positions|
    ensures forall i :: 0 <= i < |items| ==> items[i] == Slot(s.generation, s.lane, positions[i])
  {
    seq(|positions|, i requires 0 <= i < |positions| => Slot(s.generation, s.lane, positions[i]))
  }

  /** Worker w reports what it found in its span. */
  function Report(b: Book, w: nat, positions: seq<nat>): Book
    requires w < |b.spans| && b.spans[w].Some?
  {
    b.(items := b.items + SlotsAt(b.spans[w].value, positions), spans := b.spans[w := None])
  }

  function Remove(b: Book, k: nat): Book
    requires k < |b.items|
  {
    b.(items := b.items[..k] + b.items[k + 1..])
  }

  lemma TurnKeeps(b: Book, lane: nat, generation: nat)
    requires Sound(b) && lane < |b.clocks| && b.clocks[lane].generation <= generation
    ensures Sound(Turn(b, lane, generation))
  {
    var c' := Turn(b, lane, generation).clocks;
    forall i | 0 <= i < |b.items|
      ensures Behind(c', b.items[i])
    {
      assert Behind(b.clocks, b.items[i]);
    }
    forall w | 0 <= w < |b.spans|
      ensures Within(c', b.spans[w])
    {
      assert Within(b.clocks, b.spans[w]);
    }
  }

  lemma TakeKeeps(b: Book, w: nat, lane: nat, n: nat)
    requires Sound(b) && lane < |b.clocks| && w < |b.spans|
    ensures Sound(Take(b, w, lane, n))
  {
    var t := Take(b, w, lane, n);
    forall i | 0 <= i < |b.items|
      ensures Behind(t.clocks, b.items[i]) && !Covers(t.spans[w], b.items[i])
    {
      assert Behind(b.clocks, b.items[i]);
    }
    forall v | 0 <= v < |b.spans|
      ensures Within(t.clocks, t.spans[v]) && (v != w ==> Apart(t.spans[v], t.spans[w]))
    {
      assert Within(b.clocks, b.spans[v]);
    }
    assert forall v, i :: 0 <= v < |b.spans| && 0 <= i < |b.items| && v != w ==> !Covers(t.spans[v], b.items[i]);
    assert forall u, v :: 0 <= u < v < |b.spans| && u != w && v != w ==> Apart(t.spans[u], t.spans[v]);
  }

  lemma LeaveKeeps(b: Book, w: nat)
    requires Sound(b) && w < |b.spans|
    ensures Sound(Leave(b, w))
  {
    hide Behind;
  }

  lemma RemoveKeeps(b: Book, k: nat)
    requires Sound(b) && k < |b.items|
    ensures Sound(Remove(b, k))
  {
    var items := Remove(b, k).items;
    hide Behind, Covers, Apart, Within;
    assert forall i :: 0 <= i < |items| ==> items[i] == b.items[if i < k then i else i + 1];
  }

  ghost predicate Inside(s: Span, positions: seq<nat>) {
    && (forall i :: 0 <= i < |positions| ==> s.from <= positions[i] < s.to)
    && (forall i, k :: 0 <= i < k < |positions| ==> positions[i] != positions[k])
  }

  lemma ReportKeeps(b: Book, w: nat, positions: seq<nat>)
    requires Sound(b) && w < |b.spans| && b.spans[w].Some? && Inside(b.spans[w].value, positions)
    ensures Sound(Report(b, w, positions))
  {
    var s := b.spans[w];
    var t := Report(b, w, positions);
    var n := |b.items|;
    assert Within(b.clocks, s);
    forall i | 0 <= i < |t.items|
      ensures Behind(b.clocks, t.items[i])
    {
      if i < n {
        assert Behind(b.clocks, b.items[i]);
      }
    }
    forall i | 0 <= i < |t.items|
      ensures Covers(s, t.items[i]) <==> n <= i
    {
      if i < n {
        assert !Covers(s, b.items[i]);
      }
    }
    forall v, i | 0 <= v < |t.spans| && 0 <= i < |t.items|
      ensures !Covers(t.spans[v], t.items[i])
    {
      if i < n {
        assert !Covers(b.spans[v], b.items[i]);
      } else if v < w {
        assert Apart(b.spans[v], b.spans[w]);
      } else if w < v {
        assert Apart(b.spans[w], b.spans[v]);
      }
    }
    forall u, v | 0 <= u < v < |t.spans|
      ensures Apart(t.spans[u], t.spans[v])
    {
      assert Apart(b.spans[u], b.spans[v]);
    }
    forall v | 0 <= v < |t.spans|
      ensures Within(b.clocks, t.spans[v])
    {
      assert Within(b.clocks, b.spans[v]);
    }
  }
}
