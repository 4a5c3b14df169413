/** Contracting vertices that have one way in and one way out: the in-edge takes over the target of the out-edge,
    and the out-edge goes. What that does to the walks of the graph, for any number of contractions in any order. */
module Contraction {
  import opened Walks

  /** The in-edge `a` of a vertex bypasses it to the target of its out-edge `b`. */
  function Contract<V, E(==)>(g: map<E, Arc<V>>, a: E, b: E): map<E, Arc<V>>
    requires a in g && b in g
  {
    g[a := Arc(g[a].src, g[b].dst)] - {b}
  }

  /** `g1` comes from `g0` by contracting the vertices `gone`: each of their out-edges was dropped, and each edge
      that is left stands for itself followed by dropped edges, its chain. */
  ghost predicate Contracted<V, E>(g0: map<E, Arc<V>>, g1: map<E, Arc<V>>, gone: set<V>, chain: map<E, seq<E>>)
  {
    && (forall e | e in g1 :: e in g0 && g1[e].src == g0[e].src && g1[e].dst !in gone)
    && (forall e | e in g0 :: e in g1 <==> g0[e].src !in gone)
    && (forall v | v in gone :: exists b :: b in g0 && Out(g0, v) == {b})
    && (forall e | e in g1 :: e in chain && IsChain(g0, g1, gone, e, chain[e]))
  }

  ghost predicate OneWayIn<V, E>(g0: map<E, Arc<V>>, gone: set<V>)
  {
    forall v | v in gone :: exists a :: a in g0 && In(g0, v) == {a}
  }

  ghost predicate IsChain<V, E>(g0: map<E, Arc<V>>, g1: map<E, Arc<V>>, gone: set<V>, e: E, c: seq<E>)
    requires e in g0 && e in g1
  {
    && c != [] && c[0] == e && (forall b | b in c[1..] :: b in g0 && g0[b].src in gone)
    && IsWalk(g0, g0[e].src, c, g1[e].dst)
  }

  /** The degrees of the vertices that are still there. */
  ghost predicate DegreesKept<V, E>(g0: map<E, Arc<V>>, g1: map<E, Arc<V>>, gone: set<V>, vs: set<V>)
  {
    forall v | v in vs - gone :: Out(g1, v) == Out(g0, v) && |In(g1, v)| == |In(g0, v)|
  }

  ghost function Dropped<V, E>(g0: map<E, Arc<V>>, g1: map<E, Arc<V>>): set<E>
  {
    g0.Keys - g1.Keys
  }

  lemma ContractedNothing<V, E>(g: map<E, Arc<V>>) returns (chain: map<E, seq<E>>)
    ensures Contracted(g, g, {}, chain)
  {
    chain := map e | e in g :: [e];
    forall e | e in g ensures IsChain(g, g, {}, e, chain[e]) {
      assert [e][1..] == [];
    }
  }

  /** One more contraction: the chain of `b` is appended to that of `a`. */
  lemma ContractOne<V, E>(g0: map<E, Arc<V>>, g1: map<E, Arc<V>>, gone: set<V>, chain: map<E, seq<E>>, v: V, a: E, b: E)
    returns (chain': map<E, seq<E>>)
    requires Contracted(g0, g1, gone, chain) && v !in gone
    requires a in g1 && b in g1 && In(g1, v) == {a} && Out(g1, v) == {b}
    requires Out(g0, v) == {b}
    ensures Contracted(g0, Contract(g1, a, b), gone + {v}, chain')
  {
    var g2 := Contract(g1, a, b);
    assert a in In(g1, v) && b in Out(g1, v);
    chain' := chain[a := chain[a] + chain[b]];
    if a != b {
      ChainConcat(g0, g1, gone, chain, v, a, b);
    }
    assert forall e | e in g0 :: g0[e].src == v <==> e == b by {
      assert forall e | e in g0 :: g0[e].src == v <==> e in Out(g0, v);
    }
    forall e | e in g2 ensures g2[e].dst !in gone + {v} && IsChain(g0, g2, gone + {v}, e, chain'[e]) {
      assert e in g1 && IsChain(g0, g1, gone, e, chain[e]);
      if e != a {
        assert e !in In(g1, v);
      } else {
        assert g1[b].dst == v ==> b in In(g1, v);
      }
    }
  }

  lemma ChainConcat<V, E>(g0: map<E, Arc<V>>, g1: map<E, Arc<V>>, gone: set<V>, chain: map<E, seq<E>>, v: V, a: E, b: E)
    requires a in g0 && a in g1 && b in g0 && b in g1 && a in chain && b in chain
    requires IsChain(g0, g1, gone, a, chain[a]) && IsChain(g0, g1, gone, b, chain[b])
    requires g1[a].dst == v && g0[b].src == v
    ensures var c := chain[a] + chain[b];
            && c != [] && c[0] == a && (forall x | x in c[1..] :: x in g0 && g0[x].src in gone + {v})
            && IsWalk(g0, g0[a].src, c, g1[b].dst)
  {
    WalkConcat(g0, g0[a].src, chain[a], v, chain[b], g1[b].dst);
    assert (chain[a] + chain[b])[1..] == chain[a][1..] + chain[b];
    assert chain[b] == [b] + chain[b][1..];
  }

  lemma EdgeSetsContract<V, E>(g: map<E, Arc<V>>, v: V, a: E, b: E, w: V)
    requires a in g && b in g && In(g, v) == {a} && Out(g, v) == {b}
    ensures Out(Contract(g, a, b), w) == if w == v then {} else Out(g, w)
    ensures In(Contract(g, a, b), w) ==
              if w == v then {} else if a != b && w == g[b].dst then In(g, w) - {b} + {a} else In(g, w)
  {
    var h := Contract(g, a, b);
    assert a in In(g, v) && b in Out(g, v);
    assert forall e | e in g :: (g[e].src == v <==> e == b) && (g[e].dst == v <==> e == a) by {
      assert forall e | e in g :: (g[e].src == v <==> e in Out(g, v)) && (g[e].dst == v <==> e in In(g, v));
    }
  }

  lemma DegreesContract<V, E>(g0: map<E, Arc<V>>, g1: map<E, Arc<V>>, gone: set<V>, vs: set<V>, v: V, a: E, b: E)
    requires DegreesKept(g0, g1, gone, vs) && a in g1 && b in g1 && In(g1, v) == {a} && Out(g1, v) == {b}
    ensures DegreesKept(g0, Contract(g1, a, b), gone + {v}, vs)
  {
    hide Contract;
    var h := Contract(g1, a, b);
    assert a in In(g1, v) && b in Out(g1, v);
    forall w | w in vs - (gone + {v}) ensures Out(h, w) == Out(g0, w) && |In(h, w)| == |In(g0, w)| {
      EdgeSetsContract(g1, v, a, b, w);
      if a != b && w == g1[b].dst {
        assert b in In(g1, w) && a !in In(g1, w);
      }
    }
  }

  // ----- Walks -----

  /** The walk as it is seen once the edges `drop` are gone. */
  function Without<E(==)>(p: seq<E>, drop: set<E>): seq<E>
  {
    if p == [] then [] else (if p[0] in drop then [] else [p[0]]) + Without(p[1..], drop)
  }

  lemma {:induction false} WithoutConcat<E>(p: seq<E>, q: seq<E>, drop: set<E>)
    ensures Without(p + q, drop) == Without(p, drop) + Without(q, drop)
  {
    if p == [] {
      assert p + q == q;
    } else {
      assert (p + q)[1..] == p[1..] + q;
      WithoutConcat(p[1..], q, drop);
    }
  }

  lemma {:induction false} WithoutAll<E>(p: seq<E>, drop: set<E>)
    requires forall e | e in p :: e in drop
    ensures Without(p, drop) == []
  {
    if p != [] {
      WithoutAll(p[1..], drop);
    }
  }

  lemma {:induction false} WithoutElements<E>(p: seq<E>, drop: set<E>)
    ensures forall e :: e in Without(p, drop) <==> e in p && e !in drop
  {
    if p != [] {
      WithoutElements(p[1..], drop);
      assert p == [p[0]] + p[1..];
    }
  }

  lemma ChainWithout<V, E>(g0: map<E, Arc<V>>, g1: map<E, Arc<V>>, gone: set<V>, chain: map<E, seq<E>>, e: E)
    requires Contracted(g0, g1, gone, chain) && e in g1
    ensures Without(chain[e], Dropped(g0, g1)) == [e]
  {
    var c := chain[e];
    assert IsChain(g0, g1, gone, e, c);
    forall b | b in c[1..] ensures b in Dropped(g0, g1) {
    }
    WithoutAll(c[1..], Dropped(g0, g1));
  }

  /** From a contracted vertex there is only one way on, so a walk that leaves it for good follows it. */
  lemma {:induction false} OneWayOn<V, E>(g0: map<E, Arc<V>>, gone: set<V>, x: V, c: seq<E>, y: V, p: seq<E>, t: V)
    requires forall v | v in gone :: exists b :: b in g0 && Out(g0, v) == {b}
    requires IsWalk(g0, x, c, y) && (forall b | b in c :: b in g0 && g0[b].src in gone)
    requires IsWalk(g0, x, p, t) && t !in gone
    ensures c <= p && IsWalk(g0, y, p[|c|..], t)
  {
    if c != [] {
      assert c[0] in c && x in gone && p != [];
      assert c[0] in Out(g0, x) && p[0] in Out(g0, x);
      OneWayOn(g0, gone, g0[c[0]].dst, c[1..], y, p[1..], t);
    }
  }

  /** Every walk between vertices that stay is still there, less the dropped edges. */
  lemma {:induction false} Project<V, E>(g0: map<E, Arc<V>>, g1: map<E, Arc<V>>, gone: set<V>, chain: map<E, seq<E>>,
                                         s: V, p: seq<E>, t: V)
    requires Contracted(g0, g1, gone, chain) && s !in gone && t !in gone && IsWalk(g0, s, p, t)
    ensures IsWalk(g1, s, Without(p, Dropped(g0, g1)), t)
    decreases |p|
  {
    if p != [] {
      var e := p[0];
      var c := chain[e];
      assert e in g1 && IsChain(g0, g1, gone, e, c);
      OneWayOn(g0, gone, g0[e].dst, c[1..], g1[e].dst, p[1..], t);
      var rest := p[1..][|c| - 1..];
      assert p == c + rest by {
        assert p == [e] + p[1..] && p[1..] == c[1..] + rest;
      }
      Project(g0, g1, gone, chain, g1[e].dst, rest, t);
      ChainWithout(g0, g1, gone, chain, e);
      WithoutConcat(c, rest, Dropped(g0, g1));
      assert ([e] + Without(rest, Dropped(g0, g1)))[1..] == Without(rest, Dropped(g0, g1));
    }
  }

  /** Every walk of the contracted graph is a walk of the original one, less the dropped edges. */
  lemma {:induction false} Lift<V, E>(g0: map<E, Arc<V>>, g1: map<E, Arc<V>>, gone: set<V>, chain: map<E, seq<E>>,
                                      s: V, q: seq<E>, t: V)
    returns (p: seq<E>)
    requires Contracted(g0, g1, gone, chain) && IsWalk(g1, s, q, t)
    ensures IsWalk(g0, s, p, t) && Without(p, Dropped(g0, g1)) == q
  {
    if q == [] {
      p := [];
    } else {
      var e := q[0];
      assert IsChain(g0, g1, gone, e, chain[e]);
      var rest := Lift(g0, g1, gone, chain, g1[e].dst, q[1..], t);
      p := chain[e] + rest;
      WalkConcat(g0, s, chain[e], g1[e].dst, rest, t);
      ChainWithout(g0, g1, gone, chain, e);
      WithoutConcat(chain[e], rest, Dropped(g0, g1));
    }
  }

  /** Between vertices that stay, contraction neither makes nor breaks a connection. */
  lemma ReachabilityKept<V, E>(g0: map<E, Arc<V>>, g1: map<E, Arc<V>>, gone: set<V>, chain: map<E, seq<E>>, s: V, t: V)
    requires Contracted(g0, g1, gone, chain) && s !in gone && t !in gone
    ensures Reaches(g0, s, t) <==> Reaches(g1, s, t)
  {
    hide Contracted, IsWalk;
    if Reaches(g0, s, t) {
      var p: seq<E> :| IsWalk(g0, s, p, t);
      Project(g0, g1, gone, chain, s, p, t);
    }
    if Reaches(g1, s, t) {
      var q: seq<E> :| IsWalk(g1, s, q, t);
      var p := Lift(g0, g1, gone, chain, s, q, t);
    }
  }

  // ----- Cycles -----

  /** A cycle of contracted vertices has no way in from a vertex that stays. */
  lemma {:induction false} NoWayIn<V, E>(g0: map<E, Arc<V>>, gone: set<V>, s: V, p: seq<E>, x: V, c: seq<E>)
    requires OneWayIn(g0, gone)
    requires c != [] && IsWalk(g0, x, c, x) && (forall e | e in c :: e in g0 && g0[e].src in gone)
    requires IsWalk(g0, s, p, x)
    ensures s in gone
    decreases |p|
  {
    if p == [] {
      assert c[0] in c;
    } else {
      var u := WalkSplitLast(g0, s, p, x);
      var w := WalkSplitLast(g0, x, c, x);
      var last := c[|c| - 1];
      assert c[0] in c;
      assert p[|p| - 1] in In(g0, x) && last in In(g0, x);
      var c' := [last] + c[..|c| - 1];
      assert c'[1..] == c[..|c| - 1];
      NoWayIn(g0, gone, s, p[..|p| - 1], u, c');
    }
  }

  /** A closed walk starts again at each vertex on it. */
  lemma {:induction false} Rotate<V, E>(g: map<E, Arc<V>>, x: V, c: seq<E>, i: nat) returns (c': seq<E>)
    requires IsWalk(g, x, c, x) && i < |c| && c[i] in g
    ensures IsWalk(g, g[c[i]].src, c', g[c[i]].src) && c' != [] && c'[0] == c[i]
    ensures Reaches(g, x, g[c[i]].src)
    decreases i
  {
    if i == 0 {
      c' := c;
      ReachesRefl(g, x);
    } else {
      var y := g[c[0]].dst;
      assert [c[0]][1..] == [];
      assert IsWalk(g, x, [c[0]], y);
      WalkConcat(g, y, c[1..], x, [c[0]], y);
      c' := Rotate(g, y, c[1..] + [c[0]], i - 1);
      ReachesRefl(g, x);
      ReachesStep(g, x, c[0]);
      ReachesTrans(g, x, y, g[c[i]].src);
    }
  }

  lemma SurvivingEdges<V, E>(g0: map<E, Arc<V>>, g1: map<E, Arc<V>>, gone: set<V>, chain: map<E, seq<E>>)
    requires Contracted(g0, g1, gone, chain)
    ensures forall e | e in g0 :: e in g1 <==> g0[e].src !in gone
    ensures forall e | e in g1 :: e in g0 && g1[e].src == g0[e].src && g1[e].dst !in gone
  {
  }

  lemma WalkOf<V, E>(g: map<E, Arc<V>>, s: V, t: V) returns (p: seq<E>)
    requires Reaches(g, s, t)
    ensures IsWalk(g, s, p, t)
  {
    p :| IsWalk(g, s, p, t);
  }

  /** A cycle that a vertex which stays can reach never vanishes. */
  lemma CyclesKept<V, E>(g0: map<E, Arc<V>>, g1: map<E, Arc<V>>, gone: set<V>, chain: map<E, seq<E>>, s: V, x: V,
                         c: seq<E>)
    requires Contracted(g0, g1, gone, chain) && OneWayIn(g0, gone) && s !in gone
    requires Reaches(g0, s, x) && c != [] && IsWalk(g0, x, c, x)
    ensures exists y, q: seq<E> :: y !in gone && Reaches(g1, s, y) && q != [] && IsWalk(g1, y, q, y)
  {
    hide Contracted, IsWalk, Reaches, Without, OneWayIn;
    WalkInGraph(g0, x, c, x);
    SurvivingEdges(g0, g1, gone, chain);
    if forall e | e in c :: g0[e].src in gone {
      var p := WalkOf(g0, s, x);
      NoWayIn(g0, gone, s, p, x, c);
    } else {
      var e :| e in c && g0[e].src !in gone;
      var i :| 0 <= i < |c| && c[i] == e;
      var y := g0[e].src;
      var c' := Rotate(g0, x, c, i);
      ReachesTrans(g0, s, x, y);
      ReachabilityKept(g0, g1, gone, chain, s, y);
      Project(g0, g1, gone, chain, y, c', y);
      WithoutElements(c', Dropped(g0, g1));
      assert e in c' && e in g1;
      var q := Without(c', Dropped(g0, g1));
      assert e in q;
    }
  }

  lemma {:induction false} WalkInGraph<V, E>(g: map<E, Arc<V>>, s: V, p: seq<E>, t: V)
    requires IsWalk(g, s, p, t)
    ensures forall e | e in p :: e in g
  {
    if p != [] {
      WalkInGraph(g, g[p[0]].dst, p[1..], t);
    }
  }

  // ----- Part of the edges -----

  function Only<V, E>(g: map<E, Arc<V>>, keep: set<E>): map<E, Arc<V>>
  {
    map e | e in g && e in keep :: g[e]
  }

  /** Among any edges that include the dropped ones, it is a contraction just the same. */
  lemma ContractedWithin<V, E>(g0: map<E, Arc<V>>, g1: map<E, Arc<V>>, gone: set<V>, chain: map<E, seq<E>>,
                               keep: set<E>)
    requires Contracted(g0, g1, gone, chain) && Dropped(g0, g1) <= keep
    ensures Contracted(Only(g0, keep), Only(g1, keep), gone, chain)
    ensures Dropped(Only(g0, keep), Only(g1, keep)) == Dropped(g0, g1)
  {
    hide IsWalk, IsChain;
    var h0, h1 := Only(g0, keep), Only(g1, keep);
    DroppedWithin(g0, g1, keep);
    forall v | v in gone ensures exists b :: b in h0 && Out(h0, v) == {b} {
      var b :| b in g0 && Out(g0, v) == {b};
      OutWithin(g0, keep, v, b);
    }
    hide Out;
    forall e | e in h1 ensures IsChain(h0, h1, gone, e, chain[e]) {
      ChainWithin(g0, g1, gone, keep, e, chain[e]);
    }
  }

  lemma DroppedWithin<V, E>(g0: map<E, Arc<V>>, g1: map<E, Arc<V>>, keep: set<E>)
    requires Dropped(g0, g1) <= keep
    ensures Dropped(Only(g0, keep), Only(g1, keep)) == Dropped(g0, g1)
    ensures forall e | e in g0 && e !in g1 :: e in keep
  {
  }

  lemma OutWithin<V, E>(g: map<E, Arc<V>>, keep: set<E>, v: V, b: E)
    requires b in g && Out(g, v) == {b} && (g[b].src == v ==> b in keep)
    ensures b in Only(g, keep) && Out(Only(g, keep), v) == {b}
  {
    assert b in Out(g, v);
    assert forall e | e in Only(g, keep) && g[e].src == v :: e in Out(g, v);
  }

  lemma ChainWithin<V, E>(g0: map<E, Arc<V>>, g1: map<E, Arc<V>>, gone: set<V>, keep: set<E>, e: E, c: seq<E>)
    requires e in g0 && e in g1 && e in keep && IsChain(g0, g1, gone, e, c)
    requires forall b | b in g0 && g0[b].src in gone :: b in keep
    ensures IsChain(Only(g0, keep), Only(g1, keep), gone, e, c)
  {
    assert c == [e] + c[1..];
    WalkInGraph(g0, g0[e].src, c, g1[e].dst);
    WalkMonotone(g0, Only(g0, keep), g0[e].src, c, g1[e].dst);
  }

  /** The contracted graph has a cycle without its marked edges exactly when the original graph has a cycle through
      a vertex that stays whose marked edges, if any, were all dropped: the in-edge that bypasses a contracted
      vertex does not take over the mark of the out-edge. */
  lemma AcyclicExactly<V, E>(g0: map<E, Arc<V>>, g1: map<E, Arc<V>>, gone: set<V>, chain: map<E, seq<E>>, back: set<E>)
    requires Contracted(g0, g1, gone, chain)
    ensures var h := g0 - (back - Dropped(g0, g1));
            Acyclic(g1 - back) <==> forall e | e in h && h[e].src !in gone :: !Reaches(h, h[e].dst, h[e].src)
  {
    hide Contracted, IsWalk, Reaches;
    SurvivingEdges(g0, g1, gone, chain);
    var keep := g0.Keys - (back - Dropped(g0, g1));
    var h0, h1 := Only(g0, keep), Only(g1, keep);
    assert h0 == g0 - (back - Dropped(g0, g1)) && h1 == g1 - back;
    ContractedWithin(g0, g1, gone, chain, keep);
    SurvivingEdges(h0, h1, gone, chain);
    forall e | e in h0 && h0[e].src !in gone
      ensures Reaches(h1, h1[e].dst, h1[e].src) <==> Reaches(h0, h0[e].dst, h0[e].src)
    {
      CycleThrough(h0, h1, gone, chain, e);
    }
  }

  lemma CycleThrough<V, E>(g0: map<E, Arc<V>>, g1: map<E, Arc<V>>, gone: set<V>, chain: map<E, seq<E>>, e: E)
    requires Contracted(g0, g1, gone, chain) && e in g1
    ensures e in g0 && (Reaches(g1, g1[e].dst, g1[e].src) <==> Reaches(g0, g0[e].dst, g0[e].src))
  {
    hide Without;
    var x, c := g0[e].src, chain[e];
    assert IsChain(g0, g1, gone, e, c) && g1[e].src == x;
    assert IsWalk(g0, g0[e].dst, c[1..], g1[e].dst);
    if Reaches(g1, g1[e].dst, x) {
      var q := WalkOf(g1, g1[e].dst, x);
      var p := Lift(g0, g1, gone, chain, g1[e].dst, q, x);
      WalkConcat(g0, g0[e].dst, c[1..], g1[e].dst, p, x);
    }
    if Reaches(g0, g0[e].dst, x) {
      var p := WalkOf(g0, g0[e].dst, x);
      OneWayOn(g0, gone, g0[e].dst, c[1..], g1[e].dst, p, x);
      Project(g0, g1, gone, chain, g1[e].dst, p[|c| - 1..], x);
    }
  }

  /** In particular no cycle appears when no dropped edge was marked. */
  lemma AcyclicKept<V, E>(g0: map<E, Arc<V>>, g1: map<E, Arc<V>>, gone: set<V>, chain: map<E, seq<E>>, back: set<E>)
    requires Contracted(g0, g1, gone, chain) && Acyclic(g0 - back) && Dropped(g0, g1) !! back
    ensures Acyclic(g1 - back)
  {
    assert back - Dropped(g0, g1) == back;
    AcyclicExactly(g0, g1, gone, chain, back);
  }
}
