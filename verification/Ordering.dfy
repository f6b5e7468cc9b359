/** Finite sets of sequence numbers in ascending order. */
module Ordering {
  import opened Base

  function UpTo(s: set<u32>, hi: u32): set<u32> {
    set x | x in s && x <= hi
  }

  ghost predicate Below(a: set<u32>, b: set<u32>) {
    forall x, y :: x in a && y in b ==> x < y
  }

  ghost function Max(s: set<u32>): (m: u32)
    requires s != {}
    ensures m in s && forall x :: x in s ==> x <= m
  {
    var x :| x in s;
    if s == {x} then x
    else
      var m := Max(s - {x});
      assert s == s - {x} + {x};
      if x < m then m else x
  }

  /** The elements of s in ascending order. */
  ghost function Sorted(s: set<u32>): seq<u32> {
    if s == {} then [] else Sorted(s - {Max(s)}) + [Max(s)]
  }

  lemma {:induction false} SortedElements(s: set<u32>)
    ensures |Sorted(s)| == |s|
    ensures forall x :: x in Sorted(s) <==> x in s
  {
    if s != {} {
      var m := Max(s);
      SortedElements(s - {m});
      assert |s| == |s - {m}| + 1;
      assert forall x :: x in Sorted(s) <==> x in Sorted(s - {m}) || x == m;
    }
  }

  /** Sorting is strictly increasing. */
  lemma {:induction false} SortedIncreasing(s: set<u32>, i: nat, j: nat)
    requires i < j < |Sorted(s)|
    ensures Sorted(s)[i] < Sorted(s)[j]
  {
    var m := Max(s);
    var front := Sorted(s - {m});
    if j < |front| {
      SortedIncreasing(s - {m}, i, j);
    } else {
      SortedElements(s - {m});
      assert front[i] in front;
    }
  }

  lemma {:induction false} SortedConcat(a: set<u32>, b: set<u32>)
    requires Below(a, b)
    ensures Sorted(a + b) == Sorted(a) + Sorted(b)
  {
    if b == {} {
      assert a + b == a;
    } else {
      var m := Max(b);
      assert m == Max(a + b);
      assert a + b - {m} == a + (b - {m});
      SortedConcat(a, b - {m});
    }
  }
}
