/** Two laws of the round structure that hold for any word type and any mixing function. */
module RoundLaws {
  import opened Base
  import opened Blake2b

  // ---------- Mixing through a projection ----------

  ghost predicate Projects<V, W>(p: V -> W, gv: Mixer<V>, g: Mixer<W>, a: V, b: V, c: V, d: V, x: V, y: V) {
    var q := gv(a, b, c, d, x, y);
    Quad(p(q.a), p(q.b), p(q.c), p(q.d)) == g(p(a), p(b), p(c), p(d), p(x), p(y))
  }

  ghost predicate Homomorphic<V(!new), W(!new)>(p: V -> W, gv: Mixer<V>, g: Mixer<W>) {
    forall a, b, c, d, x, y :: Projects(p, gv, g, a, b, c, d, x, y)
  }

  function Map<V, W>(p: V -> W, s: seq<V>): (r: seq<W>)
    ensures |r| == |s|
  {
    seq(|s|, i requires 0 <= i < |s| => p(s[i]))
  }

  lemma MapAt<V(!new), W(!new)>(p: V -> W, gv: Mixer<V>, g: Mixer<W>, v: seq<V>,
                                a: nat, b: nat, c: nat, d: nat, x: V, y: V)
    requires Homomorphic(p, gv, g)
    requires |v| == 16 && a < 4 <= b < 8 <= c < 12 <= d < 16
    ensures Map(p, At(gv, v, a, b, c, d, x, y)) == At(g, Map(p, v), a, b, c, d, p(x), p(y))
  {
    assert Projects(p, gv, g, v[a], v[b], v[c], v[d], x, y);
  }

  lemma MapColumns<V(!new), W(!new)>(p: V -> W, gv: Mixer<V>, g: Mixer<W>, v: seq<V>, m: seq<V>, s: Row)
    requires Homomorphic(p, gv, g) && |v| == 16 && |m| == 16
    ensures Map(p, Columns(gv, v, m, s)) == Columns(g, Map(p, v), Map(p, m), s)
  {
    hide At, Homomorphic;
    var v1 := At(gv, v, 0, 4, 8, 12, m[s[0]], m[s[1]]);
    var v2 := At(gv, v1, 1, 5, 9, 13, m[s[2]], m[s[3]]);
    var v3 := At(gv, v2, 2, 6, 10, 14, m[s[4]], m[s[5]]);
    MapAt(p, gv, g, v, 0, 4, 8, 12, m[s[0]], m[s[1]]);
    MapAt(p, gv, g, v1, 1, 5, 9, 13, m[s[2]], m[s[3]]);
    MapAt(p, gv, g, v2, 2, 6, 10, 14, m[s[4]], m[s[5]]);
    MapAt(p, gv, g, v3, 3, 7, 11, 15, m[s[6]], m[s[7]]);
  }

  lemma MapDiagonals<V(!new), W(!new)>(p: V -> W, gv: Mixer<V>, g: Mixer<W>, v: seq<V>, m: seq<V>, s: Row)
    requires Homomorphic(p, gv, g) && |v| == 16 && |m| == 16
    ensures Map(p, Diagonals(gv, v, m, s)) == Diagonals(g, Map(p, v), Map(p, m), s)
  {
    hide At, Homomorphic;
    var v1 := At(gv, v, 0, 5, 10, 15, m[s[8]], m[s[9]]);
    var v2 := At(gv, v1, 1, 6, 11, 12, m[s[10]], m[s[11]]);
    var v3 := At(gv, v2, 2, 7, 8, 13, m[s[12]], m[s[13]]);
    MapAt(p, gv, g, v, 0, 5, 10, 15, m[s[8]], m[s[9]]);
    MapAt(p, gv, g, v1, 1, 6, 11, 12, m[s[10]], m[s[11]]);
    MapAt(p, gv, g, v2, 2, 7, 8, 13, m[s[12]], m[s[13]]);
    MapAt(p, gv, g, v3, 3, 4, 9, 14, m[s[14]], m[s[15]]);
  }

  lemma RoundStep<W>(g: Mixer<W>, v: seq<W>, m: seq<W>, n: nat)
    requires |v| == 16 && |m| == 16
    ensures Rounds(g, v, m, 0) == v
    ensures Rounds(g, v, m, n + 1)
         == Diagonals(g, Columns(g, Rounds(g, v, m, n), m, Sigma(n % 10)), m, Sigma(n % 10))
  {
  }

  /** If a projection commutes with one mix it commutes with all rounds. */
  lemma {:induction false} MapRounds<V(!new), W(!new)>(p: V -> W, gv: Mixer<V>, g: Mixer<W>,
                                                       v: seq<V>, m: seq<V>, n: nat)
    requires Homomorphic(p, gv, g) && |v| == 16 && |m| == 16
    ensures Map(p, Rounds(gv, v, m, n)) == Rounds(g, Map(p, v), Map(p, m), n)
    decreases n
  {
    hide Homomorphic, Columns, Diagonals, Map, Sigma;
    if n != 0 {
      var s := Sigma((n - 1) % 10);
      MapRounds(p, gv, g, v, m, n - 1);
      var before := Rounds(gv, v, m, n - 1);
      MapColumns(p, gv, g, before, m, s);
      MapDiagonals(p, gv, g, Columns(gv, before, m, s), m, s);
    }
  }

  function Identity<W>(x: W): W {
    x
  }

  /** Two mixing functions that agree everywhere give the same rounds. */
  lemma SameRounds<W(!new)>(f: Mixer<W>, g: Mixer<W>, v: seq<W>, m: seq<W>, n: nat)
    requires Homomorphic(Identity, f, g) && |v| == 16 && |m| == 16
    ensures Rounds(f, v, m, n) == Rounds(g, v, m, n)
  {
    hide Rounds, Homomorphic;
    MapRounds(Identity, f, g, v, m, n);
    MapIdentity(v);
    MapIdentity(m);
    MapIdentity(Rounds(f, v, m, n));
  }

  lemma MapIdentity<W(!new)>(s: seq<W>)
    ensures Map(Identity, s) == s
  {
    forall i | 0 <= i < |s| ensures Map(Identity, s)[i] == s[i] {
      assert Identity(s[i]) == s[i];
    }
  }

  // ---------- Hoisting ----------

  /** The first-round column mixes that the host computes once per job: all but the third. */
  function Hoisted<W>(g: Mixer<W>, v: seq<W>, m: seq<W>): (r: seq<W>)
    requires |v| == 16 && |m| >= 10
    ensures |r| == 16
  {
    var v := At(g, v, 0, 4, 8, 12, m[0], m[1]);
    var v := At(g, v, 1, 5, 9, 13, m[2], m[3]);
    At(g, v, 3, 7, 11, 15, m[6], m[7])
  }

  lemma DisjointMixesCommute<W>(g: Mixer<W>, v: seq<W>, x: W, y: W, x': W, y': W)
    requires |v| == 16
    ensures At(g, At(g, v, 2, 6, 10, 14, x, y), 3, 7, 11, 15, x', y')
         == At(g, At(g, v, 3, 7, 11, 15, x', y'), 2, 6, 10, 14, x, y)
  {
  }

  /** Starting round 0 from the hoisted state and mixing only the third column is a full column step. */
  lemma HoistingSound<W>(g: Mixer<W>, v: seq<W>, m: seq<W>, fixed: seq<W>)
    requires |v| == 16 && |m| == 16 && |fixed| >= 10
    requires forall i :: 0 <= i < 10 && i != 4 ==> m[i] == fixed[i]
    ensures At(g, Hoisted(g, v, fixed), 2, 6, 10, 14, m[4], m[5]) == Columns(g, v, m, Sigma(0))
  {
    hide At;
    var w := At(g, At(g, v, 0, 4, 8, 12, m[0], m[1]), 1, 5, 9, 13, m[2], m[3]);
    DisjointMixesCommute(g, w, m[4], m[5], m[6], m[7]);
  }
}
