/** Finite directed multigraphs as values, and the walks through them.
    A graph maps each edge to its two ends, so self edges and parallel edges are ordinary. */
module Walks {

  datatype Arc<V> = Arc(src: V, dst: V)

  /** `p` is a sequence of edges leading from `s` to `t`. */
  ghost predicate IsWalk<V, E>(g: map<E, Arc<V>>, s: V, older p: seq<E>, t: V)
  {
    if p == [] then s == t
    else p[0] in g && g[p[0]].src == s && IsWalk(g, g[p[0]].dst, p[1..], t)
  }

  ghost predicate Reaches<V, E>(g: map<E, Arc<V>>, s: V, t: V)
  {
    exists p: seq<E> :: IsWalk(g, s, p, t)
  }

  /** No walk leads from the head of an edge back to its tail. */
  ghost predicate Acyclic<V, E>(g: map<E, Arc<V>>)
  {
    forall e | e in g :: !Reaches(g, g[e].dst, g[e].src)
  }

  function Out<V(==), E>(g: map<E, Arc<V>>, v: V): (es: set<E>)
  {
    set e | e in g && g[e].src == v
  }

  function In<V(==), E>(g: map<E, Arc<V>>, v: V): (es: set<E>)
  {
    set e | e in g && g[e].dst == v
  }

  ghost predicate Subgraph<V, E>(h: map<E, Arc<V>>, g: map<E, Arc<V>>)
  {
    forall e | e in h :: e in g && g[e] == h[e]
  }

  /** The edges that leave the vertices `vs`. */
  function FromWithin<V, E>(g: map<E, Arc<V>>, vs: set<V>): map<E, Arc<V>>
  {
    map e | e in g && g[e].src in vs :: g[e]
  }

  ghost predicate Closed<V, E>(g: map<E, Arc<V>>, c: set<V>)
  {
    forall e | e in g && g[e].src in c :: g[e].dst in c
  }

  /** The vertices that can be reached from `s`. */
  ghost predicate ReachableFrom<V, E>(h: map<E, Arc<V>>, s: V, r: set<V>)
  {
    s in r && Closed(h, r) && forall v | v in r :: Reaches(h, s, v)
  }

  lemma {:induction false} WalkConcat<V, E>(g: map<E, Arc<V>>, s: V, p: seq<E>, t: V, q: seq<E>, u: V)
    requires IsWalk(g, s, p, t)
    ensures IsWalk(g, t, q, u) <==> IsWalk(g, s, p + q, u)
  {
    if p == [] {
      assert p + q == q;
    } else {
      assert (p + q)[1..] == p[1..] + q;
      WalkConcat(g, g[p[0]].dst, p[1..], t, q, u);
    }
  }

  lemma WalkSnoc<V, E>(g: map<E, Arc<V>>, s: V, p: seq<E>, e: E)
    requires e in g && IsWalk(g, s, p, g[e].src)
    ensures IsWalk(g, s, p + [e], g[e].dst)
  {
    assert [e][1..] == [];
    WalkConcat(g, s, p, g[e].src, [e], g[e].dst);
  }

  lemma {:induction false} WalkMonotone<V, E>(h: map<E, Arc<V>>, g: map<E, Arc<V>>, s: V, p: seq<E>, t: V)
    requires IsWalk(h, s, p, t)
    requires forall e | e in p && e in h :: e in g && g[e] == h[e]
    ensures IsWalk(g, s, p, t)
  {
    if p != [] {
      WalkMonotone(h, g, h[p[0]].dst, p[1..], t);
    }
  }

  lemma ReachesRefl<V, E>(g: map<E, Arc<V>>, s: V)
    ensures Reaches(g, s, s)
  {
    assert IsWalk(g, s, [], s);
  }

  lemma ReachesStep<V, E>(g: map<E, Arc<V>>, s: V, e: E)
    requires e in g && Reaches(g, s, g[e].src)
    ensures Reaches(g, s, g[e].dst)
  {
    var p: seq<E> :| IsWalk(g, s, p, g[e].src);
    WalkSnoc(g, s, p, e);
  }

  lemma ReachesTrans<V, E>(g: map<E, Arc<V>>, s: V, t: V, u: V)
    requires Reaches(g, s, t) && Reaches(g, t, u)
    ensures Reaches(g, s, u)
  {
    var p: seq<E> :| IsWalk(g, s, p, t);
    var q: seq<E> :| IsWalk(g, t, q, u);
    WalkConcat(g, s, p, t, q, u);
  }

  lemma ReachesMonotone<V, E>(h: map<E, Arc<V>>, g: map<E, Arc<V>>, s: V, t: V)
    requires Subgraph(h, g) && Reaches(h, s, t)
    ensures Reaches(g, s, t)
  {
    var p: seq<E> :| IsWalk(h, s, p, t);
    WalkMonotone(h, g, s, p, t);
  }

  /** A walk that starts in a closed set stays in it. */
  lemma {:induction false} ClosedWalk<V, E>(g: map<E, Arc<V>>, c: set<V>, s: V, p: seq<E>, t: V)
    requires Closed(g, c) && s in c && IsWalk(g, s, p, t)
    ensures t in c
  {
    if p != [] {
      ClosedWalk(g, c, g[p[0]].dst, p[1..], t);
    }
  }

  lemma ClosedReaches<V, E>(g: map<E, Arc<V>>, c: set<V>, s: V, t: V)
    requires Closed(g, c) && s in c && Reaches(g, s, t)
    ensures t in c
  {
    var p: seq<E> :| IsWalk(g, s, p, t);
    ClosedWalk(g, c, s, p, t);
  }

  lemma {:induction false} WalkSplitLast<V, E>(g: map<E, Arc<V>>, s: V, p: seq<E>, t: V) returns (u: V)
    requires p != [] && IsWalk(g, s, p, t)
    ensures p[|p| - 1] in g && g[p[|p| - 1]] == Arc(u, t) && IsWalk(g, s, p[..|p| - 1], u)
  {
    if |p| == 1 {
      assert p[1..] == [];
      u := s;
    } else {
      u := WalkSplitLast(g, g[p[0]].dst, p[1..], t);
      assert p[1..][|p| - 2] == p[|p| - 1];
      assert p[..|p| - 1][1..] == p[1..][..|p| - 2];
    }
  }

  lemma {:induction false} WalkSplit<V, E>(g: map<E, Arc<V>>, s: V, p: seq<E>, q: seq<E>, t: V) returns (u: V)
    requires IsWalk(g, s, p + q, t)
    ensures IsWalk(g, s, p, u) && IsWalk(g, u, q, t)
  {
    if p == [] {
      assert p + q == q;
      u := s;
    } else {
      assert (p + q)[1..] == p[1..] + q;
      u := WalkSplit(g, g[p[0]].dst, p[1..], q, t);
    }
  }

  /** Every edge leads to a vertex of smaller rank. */
  ghost predicate Ranked<V, E>(g: map<E, Arc<V>>, rank: map<V, nat>)
  {
    forall e | e in g :: g[e].src in rank && g[e].dst in rank && rank[g[e].dst] < rank[g[e].src]
  }

  lemma {:induction false} RanksDescend<V, E>(g: map<E, Arc<V>>, rank: map<V, nat>, s: V, p: seq<E>, t: V)
    requires Ranked(g, rank) && s in rank && IsWalk(g, s, p, t)
    ensures t in rank && rank[t] <= rank[s]
  {
    if p != [] {
      RanksDescend(g, rank, g[p[0]].dst, p[1..], t);
    }
  }

  lemma RankedIsAcyclic<V, E>(g: map<E, Arc<V>>, rank: map<V, nat>)
    requires Ranked(g, rank)
    ensures Acyclic(g)
  {
    forall e | e in g ensures !Reaches(g, g[e].dst, g[e].src) {
      if Reaches(g, g[e].dst, g[e].src) {
        var p: seq<E> :| IsWalk(g, g[e].dst, p, g[e].src);
        RanksDescend(g, rank, g[e].dst, p, g[e].src);
      }
    }
  }

  /** There is only one set of the vertices that can be reached. */
  lemma ReachableOnce<V, E>(g: map<E, Arc<V>>, s: V, a: set<V>, b: set<V>)
    requires ReachableFrom(g, s, a) && ReachableFrom(g, s, b)
    ensures a == b
  {
    hide Reaches, Closed;
    forall v | v in a ensures v in b {
      ClosedReaches(g, b, s, v);
    }
    forall v | v in b ensures v in a {
      ClosedReaches(g, a, s, v);
    }
  }
}
