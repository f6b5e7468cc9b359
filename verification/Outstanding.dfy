/** Outstanding sequence numbers as the ordered map keeps them: ascending. */
module Outstanding {
  import opened Base
  import opened Ordering

  ghost predicate Rising(s: seq<u32>) {
    forall i, j :: 0 <= i < j < |s| ==> s[i] < s[j]
  }

  function Elements(s: seq<u32>): set<u32> {
    set x | x in s
  }

  /** The first n elements are those up to hi. */
  ghost predicate Splits(p: seq<u32>, hi: u32, n: nat) {
    n <= |p| && (forall k :: 0 <= k < n ==> p[k] <= hi) && (forall k :: n <= k < |p| ==> p[k] > hi)
  }

  lemma ElementsJoin(a: seq<u32>, b: seq<u32>)
    ensures Elements(a + b) == Elements(a) + Elements(b)
  {
    forall x: u32
      ensures x in a + b <==> x in a || x in b
    {
    }
  }

  lemma ElementsLast(s: seq<u32>)
    requires Rising(s) && s != []
    ensures Elements(s) == Elements(s[..|s| - 1]) + {s[|s| - 1]}
    ensures Below(Elements(s[..|s| - 1]), {s[|s| - 1]})
    ensures Rising(s[..|s| - 1])
  {
    var front, last := s[..|s| - 1], s[|s| - 1];
    assert s == front + [last];
    ElementsJoin(front, [last]);
    assert Elements([last]) == {last};
  }

  lemma SortedSingle(x: u32)
    ensures Sorted({x}) == [x]
  {
    assert Max({x}) == x;
    assert {x} - {x} == {};
  }

  /** An ascending list is its own set, sorted. */
  lemma {:induction false} SortedOfElements(s: seq<u32>)
    requires Rising(s)
    ensures Sorted(Elements(s)) == s
  {
    if s == [] {
      assert Elements(s) == {};
    } else {
      hide *;
      var front, last := s[..|s| - 1], s[|s| - 1];
      ElementsLast(s);
      SortedOfElements(front);
      SortedConcat(Elements(front), {last});
      SortedSingle(last);
    }
  }

  lemma SizeOfElements(s: seq<u32>)
    requires Rising(s)
    ensures |Elements(s)| == |s|
  {
    hide Sorted;
    SortedOfElements(s);
    SortedElements(Elements(s));
  }

  lemma UpToJoin(a: set<u32>, b: set<u32>, hi: u32)
    requires (forall x :: x in a ==> x <= hi) && (forall x :: x in b ==> x > hi)
    ensures UpTo(a + b, hi) == a && a + b - a == b
  {
  }

  lemma SplitSets(p: seq<u32>, hi: u32, n: nat)
    requires Rising(p) && Splits(p, hi, n)
    ensures UpTo(Elements(p), hi) == Elements(p[..n]) && |UpTo(Elements(p), hi)| == n
    ensures Elements(p) - UpTo(Elements(p), hi) == Elements(p[n..])
    ensures Sorted(UpTo(Elements(p), hi)) == p[..n]
    ensures Rising(p[n..])
  {
    hide Sorted;
    var a, b := p[..n], p[n..];
    assert p == a + b;
    ElementsJoin(a, b);
    UpToJoin(Elements(a), Elements(b), hi);
    SortedOfElements(a);
    SortedElements(Elements(a));
  }

  method CountUpTo(p: seq<u32>, hi: u32) returns (n: nat)
    requires Rising(p)
    ensures Splits(p, hi, n)
  {
    n := 0;
    for i := 0 to |p|
      invariant n <= i
      invariant forall k :: 0 <= k < n ==> p[k] <= hi
      invariant forall k :: n <= k < i ==> p[k] > hi
    {
      assert n < i ==> p[n] < p[i];
      if p[i] <= hi {
        n := n + 1;
      }
    }
  }

  /** Erase from the front for as long as the key is covered. */
  method EraseUpTo(p: seq<u32>, hi: u32, ghost n: nat) returns (gone: seq<u32>, rest: seq<u32>)
    requires Splits(p, hi, n)
    ensures gone == p[..n] && rest == p[n..]
  {
    gone, rest := [], p;
    while rest != [] && rest[0] <= hi
      invariant |gone| <= n && gone == p[..|gone|] && rest == p[|gone|..]
      decreases |rest|
    {
      gone := gone + [rest[0]];
      rest := rest[1..];
    }
  }

  lemma AppendedLargest(p: seq<u32>, x: u32)
    requires Rising(p) && forall y :: y in p ==> y < x
    ensures Rising(p + [x]) && Elements(p + [x]) == Elements(p) + {x}
  {
    assert forall k :: 0 <= k < |p| ==> p[k] in p;
  }

  method Erase(p: seq<u32>, x: u32) returns (found: bool, rest: seq<u32>)
    requires Rising(p)
    ensures found <==> x in Elements(p)
    ensures Rising(rest) && Elements(rest) == Elements(p) - {x}
  {
    for i := 0 to |p|
      invariant x !in p[..i]
    {
      if p[i] == x {
        rest := p[..i] + p[i + 1..];
        assert p == p[..i] + [p[i]] + p[i + 1..];
        assert x !in p[i + 1..];
        return true, rest;
      }
      assert p[..i + 1] == p[..i] + [p[i]];
    }
    assert p[..|p|] == p;
    return false, p;
  }
}
