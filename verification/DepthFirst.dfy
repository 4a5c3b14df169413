/** Depth-first search with three colours and an explicit stack of edge iterators, over any graph and any
    order of its out-edges. The events that a visitor is told about are kept as a log. */
module DepthFirst {
  import opened Basics
  import opened Walks

  datatype Event<V, E> =
    | DiscoverVertex(v: V)
    | TreeEdge(e: E)
    | BackEdge(e: E)
    | ForwardOrCrossEdge(e: E)
    | FinishVertex(v: V)

  /** What an event settles, once and for all. */
  datatype Key<V, E> = Discovered(v: V) | Classified(e: E) | Finished(v: V)

  function KeyOf<V, E>(ev: Event<V, E>): Key<V, E>
  {
    match ev
    case DiscoverVertex(v) => Discovered(v)
    case TreeEdge(e) => Classified(e)
    case BackEdge(e) => Classified(e)
    case ForwardOrCrossEdge(e) => Classified(e)
    case FinishVertex(v) => Finished(v)
  }

  /** A suspended vertex and its out-edges still to be looked at, which come in no particular order. */
  datatype VertexInfo<V, E> = VertexInfo(v: V, rest: set<E>)

  /** The part of the graph that the visitor does not filter out. */
  function Permitted<V, E>(g: map<E, Arc<V>>, examine: E -> bool): map<E, Arc<V>>
  {
    map e | e in g && examine(e) :: g[e]
  }

  function ColorOf<V(==)>(colors: map<V, Color>, v: V): Color
  {
    if v in colors then colors[v] else White
  }

  /** A log, where in it each thing was settled, and the tree path to each discovered vertex. */
  datatype Trace<V(==), E(==)> = Trace(log: seq<Event<V, E>>, at: map<Key<V, E>, nat>, path: map<V, seq<E>>)
  {
    ghost function Append(ev: Event<V, E>): Trace<V, E> {
      this.(log := log + [ev], at := at[KeyOf(ev) := |log|])
    }

    ghost function Discover(v: V, p: seq<E>): Trace<V, E> {
      Append(DiscoverVertex(v)).(path := path[v := p])
    }
  }

  /** Each vertex is discovered at most once and finished at most once, and each edge classified at most once. */
  ghost predicate Logged<V, E>(t: Trace<V, E>)
  {
    && (forall k | 0 <= k < |t.log| :: KeyOf(t.log[k]) in t.at && t.at[KeyOf(t.log[k])] == k)
    && (forall key | key in t.at :: t.at[key] < |t.log| && KeyOf(t.log[t.at[key]]) == key)
  }

  lemma LoggedAppend<V, E>(t: Trace<V, E>, ev: Event<V, E>)
    requires Logged(t) && KeyOf(ev) !in t.at
    ensures Logged(t.Append(ev))
  {
    hide KeyOf;
  }

  lemma LoggedDiscover<V, E>(t: Trace<V, E>, v: V, p: seq<E>)
    requires Logged(t) && Discovered(v) !in t.at
    ensures Logged(t.Discover(v, p))
  {
    LoggedAppend(t, DiscoverVertex(v));
  }

  /** The discovered vertices have a tree path, which extends the path of the vertex before by the tree edge
      logged just before the discovery. */
  ghost predicate Forest<V, E>(h: map<E, Arc<V>>, t: Trace<V, E>)
  {
    && (forall v | v in t.path :: Discovered(v) in t.at)
    && (forall v | v in t.path && t.path[v] != [] :: Grown(h, t, v))
  }

  ghost predicate Grown<V, E>(h: map<E, Arc<V>>, t: Trace<V, E>, v: V)
    requires v in t.path && t.path[v] != [] && Discovered(v) in t.at
  {
    var n := |t.path[v]| - 1;
    var e := t.path[v][n];
    && e in h && h[e].dst == v && h[e].src in t.path && Discovered(h[e].src) in t.at
    && t.path[h[e].src] == t.path[v][..n]
    && t.at[Discovered(h[e].src)] < t.at[Discovered(v)]
    && 0 < t.at[Discovered(v)] <= |t.log| && t.log[t.at[Discovered(v)] - 1] == TreeEdge(e)
  }

  /** How an edge was classified, against where its ends are in the search: tree edges extend the tree path,
      back edges lead to an ancestor, which is not finished yet, and every other edge leads to a vertex that is. */
  ghost predicate Meant<V, E>(h: map<E, Arc<V>>, t: Trace<V, E>, e: E)
    requires Classified(e) in t.at
  {
    && e in h
    && var u, v := h[e].src, h[e].dst;
    && u in t.path && v in t.path && t.at[Classified(e)] < |t.log|
    && Discovered(u) in t.at && t.at[Discovered(u)] < t.at[Classified(e)]
    && match t.log[t.at[Classified(e)]]
       case BackEdge(_) =>
         && (v == u || ProperAncestor(h, t.path, v, u))
         && Discovered(v) in t.at && t.at[Discovered(v)] < t.at[Classified(e)]
         && (Finished(v) in t.at ==> t.at[Classified(e)] < t.at[Finished(v)])
       case TreeEdge(_) => t.path[v] == t.path[u] + [e] && FinishesFirst(t, v, u)
       case _ => Finished(v) in t.at && t.at[Finished(v)] < t.at[Classified(e)] && FinishesFirst(t, v, u)
  }

  /** The tree path to `w` passes through `v`. */
  ghost predicate ProperAncestor<V, E>(h: map<E, Arc<V>>, path: map<V, seq<E>>, v: V, w: V)
  {
    && v in path && w in path && path[v] < path[w]
    && path[w][|path[v]|] in h && h[path[w][|path[v]|]].src == v
  }

  ghost predicate FinishesFirst<V, E>(t: Trace<V, E>, v: V, u: V)
  {
    Finished(u) in t.at ==> Finished(v) in t.at && t.at[Finished(v)] < t.at[Finished(u)]
  }

  ghost predicate AllMeant<V, E>(h: map<E, Arc<V>>, t: Trace<V, E>)
  {
    forall key | key in t.at && key.Classified? :: Meant(h, t, key.e)
  }

  /** The stacked vertices are the unfinished ones, each an ancestor of those above it. */
  ghost predicate Stacked<V, E>(g: map<E, Arc<V>>, h: map<E, Arc<V>>, t: Trace<V, E>, stack: seq<VertexInfo<V, E>>)
  {
    && (forall i | 0 <= i < |stack| ::
          stack[i].v in t.path && Finished(stack[i].v) !in t.at && stack[i].rest <= Out(g, stack[i].v))
    && (forall i, j | 0 <= i < j < |stack| :: ProperAncestor(h, t.path, stack[i].v, stack[j].v))
    && (forall v | v in t.path && Finished(v) !in t.at :: OnStack(stack, v))
  }

  ghost predicate OnStack<V, E>(stack: seq<VertexInfo<V, E>>, v: V)
  {
    exists i :: 0 <= i < |stack| && stack[i].v == v
  }

  ghost predicate Pending<V, E>(stack: seq<VertexInfo<V, E>>, e: E)
  {
    exists i :: 0 <= i < |stack| && e in stack[i].rest
  }

  /** A permitted edge out of a discovered vertex is either classified or still to be looked at. */
  ghost predicate Covered<V, E>(h: map<E, Arc<V>>, t: Trace<V, E>, stack: seq<VertexInfo<V, E>>)
  {
    forall e | e in h && h[e].src in t.path :: Classified(e) in t.at <==> !Pending(stack, e)
  }

  ghost predicate Coloured<V, E>(t: Trace<V, E>, colors: map<V, Color>)
  {
    && (forall v | v in t.path :: ColorOf(colors, v) == if Finished(v) in t.at then Black else Gray)
    && (forall v | v in colors && v !in t.path :: colors[v] == White)
    && (forall key | key in t.at && (key.Discovered? || key.Finished?) :: key.v in t.path)
  }

  /** The invariant of the search. */
  ghost predicate Searching<V, E>(g: map<E, Arc<V>>, examine: E -> bool, t: Trace<V, E>,
                                  stack: seq<VertexInfo<V, E>>, colors: map<V, Color>)
  {
    var h := Permitted(g, examine);
    && Logged(t) && Forest(h, t) && AllMeant(h, t)
    && Stacked(g, h, t, stack) && Covered(h, t, stack) && Coloured(t, colors)
  }

  // ----- One more event -----

  lemma ForestAppend<V, E>(h: map<E, Arc<V>>, t: Trace<V, E>, ev: Event<V, E>)
    requires Forest(h, t) && KeyOf(ev) !in t.at
    ensures Forest(h, t.Append(ev))
  {
    var now := t.Append(ev);
    forall v | v in now.path && now.path[v] != [] ensures Grown(h, now, v) {
      assert Grown(h, t, v);
    }
  }

  lemma ForestDiscover<V, E>(h: map<E, Arc<V>>, t: Trace<V, E>, v: V, p: seq<E>)
    requires Forest(h, t) && v !in t.path && Discovered(v) !in t.at
    requires p != [] ==>
               var e := p[|p| - 1];
               && e in h && h[e].dst == v && h[e].src in t.path && t.path[h[e].src] == p[..|p| - 1]
               && t.at[Discovered(h[e].src)] < |t.log| && |t.log| > 0 && t.log[|t.log| - 1] == TreeEdge(e)
    ensures Forest(h, t.Discover(v, p))
  {
    var now := t.Discover(v, p);
    forall w | w in now.path && now.path[w] != [] ensures Grown(h, now, w) {
      if w != v {
        assert Grown(h, t, w);
      }
    }
  }

  lemma MeantAppend<V, E>(h: map<E, Arc<V>>, t: Trace<V, E>, ev: Event<V, E>)
    requires AllMeant(h, t) && KeyOf(ev) !in t.at && !ev.FinishVertex?
    requires KeyOf(ev).Classified? ==> Meant(h, t.Append(ev), KeyOf(ev).e)
    ensures AllMeant(h, t.Append(ev))
  {
    var now := t.Append(ev);
    forall key | key in now.at && key.Classified? ensures Meant(h, now, key.e) {
      if key in t.at {
        assert Meant(h, t, key.e);
      }
    }
  }

  lemma MeantDiscover<V, E>(h: map<E, Arc<V>>, t: Trace<V, E>, v: V, p: seq<E>)
    requires AllMeant(h, t) && v !in t.path && Discovered(v) !in t.at
    ensures AllMeant(h, t.Discover(v, p))
  {
    var now := t.Discover(v, p);
    forall key | key in now.at && key.Classified? ensures Meant(h, now, key.e) {
      assert Meant(h, t, key.e);
    }
  }

  // ----- Discovering a root -----

  lemma CoveredRoot<V, E>(g: map<E, Arc<V>>, examine: E -> bool, t: Trace<V, E>, v: V)
    requires var h := Permitted(g, examine); AllMeant(h, t) && Covered<V, E>(h, t, [])
    requires v !in t.path && Discovered(v) !in t.at
    ensures Covered(Permitted(g, examine), t.Discover(v, []), [VertexInfo(v, Out(g, v))])
  {
    var h, now, stack := Permitted(g, examine), t.Discover(v, []), [VertexInfo(v, Out(g, v))];
    forall e | e in h && h[e].src in now.path ensures Classified(e) in now.at <==> !Pending(stack, e) {
      if h[e].src == v {
        assert e in stack[0].rest;
        assert Classified(e) in t.at ==> Meant(h, t, e);
      } else {
        assert !Pending<V, E>([], e);
      }
    }
  }

  lemma StackedRoot<V, E>(g: map<E, Arc<V>>, h: map<E, Arc<V>>, t: Trace<V, E>, v: V)
    requires Stacked<V, E>(g, h, t, []) && v !in t.path && Finished(v) !in t.at
    ensures Stacked(g, h, t.Discover(v, []), [VertexInfo(v, Out(g, v))])
  {
    var now, stack := t.Discover(v, []), [VertexInfo(v, Out(g, v))];
    assert stack[0].v == v;
    forall w | w in now.path && Finished(w) !in now.at ensures OnStack(stack, w) {
      assert w != v ==> OnStack<V, E>([], w);
    }
  }

  lemma Root<V, E>(g: map<E, Arc<V>>, examine: E -> bool, t: Trace<V, E>, colors: map<V, Color>, v: V)
    requires Searching<V, E>(g, examine, t, [], colors) && ColorOf(colors, v) == White
    ensures Searching(g, examine, t.Discover(v, []), [VertexInfo(v, Out(g, v))], colors[v := Gray])
  {
    hide Logged, Forest, AllMeant, Stacked, Covered, Permitted;
    var h := Permitted(g, examine);
    assert v !in t.path && Discovered(v) !in t.at && Finished(v) !in t.at;
    LoggedDiscover(t, v, []);
    ForestDiscover(h, t, v, []);
    MeantDiscover(h, t, v, []);
    CoveredRoot(g, examine, t, v);
    StackedRoot(g, h, t, v);
  }

  // ----- Looking at an edge -----

  ghost predicate SameVertices<V, E>(t: Trace<V, E>, now: Trace<V, E>)
  {
    now.path == t.path && forall v | v in t.path :: Finished(v) in now.at <==> Finished(v) in t.at
  }

  lemma StackDistinct<V, E>(g: map<E, Arc<V>>, h: map<E, Arc<V>>, t: Trace<V, E>, stack: seq<VertexInfo<V, E>>, i: nat,
                            j: nat)
    requires Stacked(g, h, t, stack) && i < j < |stack|
    ensures stack[i].v != stack[j].v
  {
    assert ProperAncestor(h, t.path, stack[i].v, stack[j].v);
  }

  lemma StackedLook<V, E>(g: map<E, Arc<V>>, h: map<E, Arc<V>>, t: Trace<V, E>, now: Trace<V, E>,
                          below: seq<VertexInfo<V, E>>, u: V, rest: set<E>, e: E)
    requires Stacked(g, h, t, below + [VertexInfo(u, rest)]) && SameVertices(t, now)
    ensures Stacked(g, h, now, below + [VertexInfo(u, rest - {e})])
  {
    hide ProperAncestor;
    var before, after := below + [VertexInfo(u, rest)], below + [VertexInfo(u, rest - {e})];
    assert forall i | 0 <= i < |before| :: after[i].v == before[i].v && after[i].rest <= before[i].rest;
    forall v | v in now.path && Finished(v) !in now.at ensures OnStack(after, v) {
      assert OnStack(before, v);
    }
  }

  /** The edge is no longer pending, and every other edge is as it was. */
  lemma PendingLook<V, E>(g: map<E, Arc<V>>, h: map<E, Arc<V>>, t: Trace<V, E>, below: seq<VertexInfo<V, E>>, u: V,
                          rest: set<E>, e: E)
    requires Stacked(g, h, t, below + [VertexInfo(u, rest)]) && e in rest
    ensures e in g && g[e].src == u && Pending(below + [VertexInfo(u, rest)], e)
    ensures forall f :: Pending(below + [VertexInfo(u, rest - {e})], f) <==>
                        f != e && Pending(below + [VertexInfo(u, rest)], f)
  {
    hide ProperAncestor;
    var before, after := below + [VertexInfo(u, rest)], below + [VertexInfo(u, rest - {e})];
    assert before[|below|] == VertexInfo(u, rest) && after[|below|] == VertexInfo(u, rest - {e});
    assert forall i | 0 <= i < |below| :: before[i] == after[i];
    forall i | 0 <= i < |below| ensures e !in before[i].rest {
      StackDistinct(g, h, t, before, i, |below|);
    }
    forall f | f != e && Pending(before, f) ensures Pending(after, f) {
      var i :| 0 <= i < |before| && f in before[i].rest;
      assert f in after[i].rest;
    }
    forall f | Pending(after, f) ensures Pending(before, f) {
      var i :| 0 <= i < |after| && f in after[i].rest;
      assert f in before[i].rest;
    }
  }

  lemma CoveredLook<V, E>(g: map<E, Arc<V>>, h: map<E, Arc<V>>, t: Trace<V, E>, now: Trace<V, E>,
                          below: seq<VertexInfo<V, E>>, u: V, rest: set<E>, e: E)
    requires Stacked(g, h, t, below + [VertexInfo(u, rest)]) && e in rest
    requires Covered(h, t, below + [VertexInfo(u, rest)]) && now.path == t.path
    requires forall f | f in h :: Classified(f) in now.at <==> f == e || Classified(f) in t.at
    ensures Covered(h, now, below + [VertexInfo(u, rest - {e})])
  {
    hide Stacked, Pending;
    PendingLook(g, h, t, below, u, rest, e);
  }

  /** An edge the visitor filters out is passed over, as if it were not part of the graph. */
  lemma Reject<V, E>(g: map<E, Arc<V>>, examine: E -> bool, t: Trace<V, E>, colors: map<V, Color>,
                     below: seq<VertexInfo<V, E>>, u: V, rest: set<E>, e: E)
    requires Searching(g, examine, t, below + [VertexInfo(u, rest)], colors) && e in rest && !examine(e)
    ensures Searching(g, examine, t, below + [VertexInfo(u, rest - {e})], colors)
  {
    hide Logged, Forest, AllMeant, Stacked, Covered, Coloured;
    StackedLook(g, Permitted(g, examine), t, t, below, u, rest, e);
    CoveredLook(g, Permitted(g, examine), t, t, below, u, rest, e);
  }

  lemma AtHand<V, E>(g: map<E, Arc<V>>, examine: E -> bool, t: Trace<V, E>, colors: map<V, Color>,
                     below: seq<VertexInfo<V, E>>, u: V, rest: set<E>, e: E)
    requires Searching(g, examine, t, below + [VertexInfo(u, rest)], colors) && e in rest
    ensures e in g && g[e].src == u && u in t.path && Finished(u) !in t.at && Discovered(u) in t.at
    ensures t.at[Discovered(u)] < |t.log|
    ensures examine(e) ==> Classified(e) !in t.at
  {
    var h, stack := Permitted(g, examine), below + [VertexInfo(u, rest)];
    assert stack[|below|] == VertexInfo(u, rest);
    if examine(e) {
      assert Pending(stack, e);
      assert e in Permitted(g, examine);
    }
  }

  /** The unfinished vertices are the ancestors of the current one. */
  lemma GrayIsAncestor<V, E>(g: map<E, Arc<V>>, h: map<E, Arc<V>>, t: Trace<V, E>, below: seq<VertexInfo<V, E>>, u: V,
                             rest: set<E>, v: V)
    requires Stacked(g, h, t, below + [VertexInfo(u, rest)]) && v in t.path && Finished(v) !in t.at
    ensures u in t.path && (v == u || ProperAncestor(h, t.path, v, u))
  {
    var stack := below + [VertexInfo(u, rest)];
    assert stack[|below|] == VertexInfo(u, rest);
    assert OnStack(stack, v);
    var i :| 0 <= i < |stack| && stack[i].v == v;
  }

  lemma KeysLogged<V, E>(h: map<E, Arc<V>>, t: Trace<V, E>, v: V)
    requires Logged(t) && Forest(h, t)
    ensures v in t.path ==> Discovered(v) in t.at && t.at[Discovered(v)] < |t.log|
    ensures Finished(v) in t.at ==> t.at[Finished(v)] < |t.log|
  {
  }

  lemma MeantBack<V, E>(h: map<E, Arc<V>>, t: Trace<V, E>, e: E, ev: Event<V, E>)
    requires ev == BackEdge(e) || ev == ForwardOrCrossEdge(e)
    requires e in h && h[e].src in t.path && h[e].dst in t.path && Finished(h[e].src) !in t.at
    requires Discovered(h[e].src) in t.at && t.at[Discovered(h[e].src)] < |t.log|
    requires if ev.BackEdge? then
               && (h[e].dst == h[e].src || ProperAncestor(h, t.path, h[e].dst, h[e].src))
               && Finished(h[e].dst) !in t.at
               && Discovered(h[e].dst) in t.at && t.at[Discovered(h[e].dst)] < |t.log|
             else Finished(h[e].dst) in t.at && t.at[Finished(h[e].dst)] < |t.log|
    ensures Meant(h, t.Append(ev), e)
  {
  }

  /** An edge to a gray vertex is a back edge, an edge to a black one a forward or cross edge. */
  lemma Classify<V, E>(g: map<E, Arc<V>>, examine: E -> bool, t: Trace<V, E>, colors: map<V, Color>,
                       below: seq<VertexInfo<V, E>>, u: V, rest: set<E>, e: E, ev: Event<V, E>)
    requires Searching(g, examine, t, below + [VertexInfo(u, rest)], colors) && e in rest && examine(e) && e in g
    requires ColorOf(colors, g[e].dst) != White
    requires ev == if ColorOf(colors, g[e].dst) == Gray then BackEdge(e) else ForwardOrCrossEdge(e)
    ensures Searching(g, examine, t.Append(ev), below + [VertexInfo(u, rest - {e})], colors)
  {
    hide Logged, Forest, AllMeant, Stacked, Covered, Meant;
    var h, v, now := Permitted(g, examine), g[e].dst, t.Append(ev);
    AtHand(g, examine, t, colors, below, u, rest, e);
    if ColorOf(colors, v) == Gray {
      GrayIsAncestor(g, h, t, below, u, rest, v);
    }
    KeysLogged(h, t, v);
    LoggedAppend(t, ev);
    ForestAppend(h, t, ev);
    MeantBack(h, t, e, ev);
    MeantAppend(h, t, ev);
    StackedLook(g, h, t, now, below, u, rest, e);
    CoveredLook(g, h, t, now, below, u, rest, e);
  }

  // ----- Following a tree edge -----

  lemma PrefixSnoc<T>(a: seq<T>, b: seq<T>, x: T)
    requires a <= b
    ensures a < b + [x]
  {
    assert (b + [x])[..|b|] == b;
  }

  lemma AncestorOfChild<V, E>(h: map<E, Arc<V>>, path: map<V, seq<E>>, w: V, u: V, e: E, v: V)
    requires u in path && (w == u || ProperAncestor(h, path, w, u)) && e in h && h[e].src == u && v !in path
    ensures ProperAncestor(h, path[v := path[u] + [e]], w, v)
  {
    PrefixSnoc(path[w], path[u], e);
  }

  lemma AncestorStays<V, E>(h: map<E, Arc<V>>, path: map<V, seq<E>>, w: V, u: V, v: V, p: seq<E>)
    requires v !in path && ProperAncestor(h, path, w, u)
    ensures ProperAncestor(h, path[v := p], w, u)
  {
  }

  lemma StackedTree<V, E>(g: map<E, Arc<V>>, h: map<E, Arc<V>>, t: Trace<V, E>, stack: seq<VertexInfo<V, E>>, u: V,
                          e: E, v: V)
    requires Stacked(g, h, t, stack) && stack != [] && stack[|stack| - 1].v == u
    requires u in t.path && v !in t.path && Finished(v) !in t.at && e in h && h[e].src == u
    ensures Stacked(g, h, t.Discover(v, t.path[u] + [e]), stack + [VertexInfo(v, Out(g, v))])
  {
    var now, after := t.Discover(v, t.path[u] + [e]), stack + [VertexInfo(v, Out(g, v))];
    assert after[|stack|] == VertexInfo(v, Out(g, v));
    forall i | 0 <= i < |stack| ensures after[i] == stack[i] && ProperAncestor(h, now.path, stack[i].v, v) {
      assert i < |stack| - 1 ==> ProperAncestor(h, t.path, stack[i].v, u);
      AncestorOfChild(h, t.path, stack[i].v, u, e, v);
    }
    forall i, j | 0 <= i < j < |stack| ensures ProperAncestor(h, now.path, stack[i].v, stack[j].v) {
      AncestorStays(h, t.path, stack[i].v, stack[j].v, v, t.path[u] + [e]);
    }
    hide ProperAncestor;
    forall w | w in now.path && Finished(w) !in now.at ensures OnStack(after, w) {
      if w != v {
        assert OnStack(stack, w);
        var i :| 0 <= i < |stack| && stack[i].v == w;
        assert after[i].v == w;
      }
    }
  }

  lemma CoveredTree<V, E>(g: map<E, Arc<V>>, h: map<E, Arc<V>>, t: Trace<V, E>, stack: seq<VertexInfo<V, E>>, v: V,
                          p: seq<E>)
    requires Subgraph(h, g) && Covered(h, t, stack) && v !in t.path
    requires forall f | f in h && h[f].src == v :: Classified(f) !in t.at
    ensures Covered(h, t.Discover(v, p), stack + [VertexInfo(v, Out(g, v))])
  {
    var now, after := t.Discover(v, p), stack + [VertexInfo(v, Out(g, v))];
    assert after[|stack|] == VertexInfo(v, Out(g, v));
    assert forall i | 0 <= i < |stack| :: after[i] == stack[i];
    forall f | f in h && h[f].src in now.path ensures Classified(f) in now.at <==> !Pending(after, f) {
      if h[f].src == v {
        assert f in after[|stack|].rest;
      } else {
        assert Pending(stack, f) <==> Pending(after, f) by {
          if Pending(stack, f) {
            var i :| 0 <= i < |stack| && f in stack[i].rest;
            assert f in after[i].rest;
          }
          if Pending(after, f) {
            var i :| 0 <= i < |after| && f in after[i].rest;
            assert f in stack[i].rest;
          }
        }
      }
    }
  }

  lemma MeantTree<V, E>(h: map<E, Arc<V>>, t: Trace<V, E>, u: V, e: E, v: V)
    requires AllMeant(h, t) && Classified(e) !in t.at && e in h && h[e] == Arc(u, v)
    requires u in t.path && v !in t.path && Discovered(v) !in t.at && Finished(u) !in t.at
    requires Discovered(u) in t.at && t.at[Discovered(u)] < |t.log|
    ensures AllMeant(h, t.Append(TreeEdge(e)).Discover(v, t.path[u] + [e]))
  {
    var now := t.Append(TreeEdge(e)).Discover(v, t.path[u] + [e]);
    forall key | key in now.at && key.Classified? ensures Meant(h, now, key.e) {
      if key.e != e {
        assert key in t.at && Meant(h, t, key.e);
        assert now.log[t.at[key]] == t.log[t.at[key]];
      }
    }
  }

  lemma UnseenSource<V, E>(h: map<E, Arc<V>>, t: Trace<V, E>, v: V)
    requires AllMeant(h, t) && v !in t.path
    ensures forall f | f in h && h[f].src == v :: Classified(f) !in t.at
  {
    forall f | f in h && h[f].src == v ensures Classified(f) !in t.at {
      assert Classified(f) in t.at ==> Meant(h, t, f);
    }
  }

  lemma ColouredTree<V, E>(t: Trace<V, E>, colors: map<V, Color>, e: E, v: V, p: seq<E>)
    requires Coloured(t, colors) && ColorOf(colors, v) == White
    ensures v !in t.path && Discovered(v) !in t.at && Finished(v) !in t.at
    ensures Coloured(t.Append(TreeEdge(e)).Discover(v, p), colors[v := Gray])
  {
  }

  /** An edge to a white vertex becomes a tree edge, and the search goes on from its target. */
  lemma Descend<V, E>(g: map<E, Arc<V>>, examine: E -> bool, t: Trace<V, E>, colors: map<V, Color>,
                      below: seq<VertexInfo<V, E>>, u: V, rest: set<E>, e: E)
    requires Searching(g, examine, t, below + [VertexInfo(u, rest)], colors) && e in rest && examine(e) && e in g
    requires ColorOf(colors, g[e].dst) == White
    ensures u in t.path
    ensures var v := g[e].dst;
            Searching(g, examine, t.Append(TreeEdge(e)).Discover(v, t.path[u] + [e]),
                      below + [VertexInfo(u, rest - {e})] + [VertexInfo(v, Out(g, v))], colors[v := Gray])
  {
    hide Logged, Forest, AllMeant, Stacked, Covered, Coloured;
    var h, v := Permitted(g, examine), g[e].dst;
    AtHand(g, examine, t, colors, below, u, rest, e);
    var mid, stack := t.Append(TreeEdge(e)), below + [VertexInfo(u, rest - {e})];
    var p := t.path[u] + [e];
    assert p[..|p| - 1] == t.path[u];
    ColouredTree(t, colors, e, v, p);
    LoggedAppend(t, TreeEdge(e));
    LoggedDiscover(mid, v, p);
    ForestAppend(h, t, TreeEdge(e));
    ForestDiscover(h, mid, v, p);
    MeantTree(h, t, u, e, v);
    UnseenSource(h, t, v);
    StackedLook(g, h, t, mid, below, u, rest, e);
    StackedTree(g, h, mid, stack, u, e, v);
    CoveredLook(g, h, t, mid, below, u, rest, e);
    CoveredTree(g, h, mid, stack, v, p);
  }

  // ----- Finishing a vertex -----

  lemma MeantFinish<V, E>(g: map<E, Arc<V>>, h: map<E, Arc<V>>, t: Trace<V, E>, below: seq<VertexInfo<V, E>>, u: V)
    requires Stacked(g, h, t, below + [VertexInfo(u, {})]) && AllMeant(h, t) && Logged(t)
    ensures AllMeant(h, t.Append(FinishVertex(u)))
  {
    var now, stack := t.Append(FinishVertex(u)), below + [VertexInfo(u, {})];
    assert stack[|below|] == VertexInfo(u, {});
    forall key | key in now.at && key.Classified? ensures Meant(h, now, key.e) {
      assert Meant(h, t, key.e);
      assert now.log[t.at[key]] == t.log[t.at[key]];
      var x, y := h[key.e].src, h[key.e].dst;
      if x == u && !t.log[t.at[key]].BackEdge? {
        if Finished(y) !in t.at {
          GrayIsAncestor(g, h, t, below, u, {}, y);
          assert false;
        }
      }
    }
  }

  lemma PendingFinish<V, E>(below: seq<VertexInfo<V, E>>, u: V)
    ensures forall e :: Pending(below, e) <==> Pending(below + [VertexInfo(u, {})], e)
  {
    var stack := below + [VertexInfo(u, {})];
    assert stack[|below|].rest == {};
    assert forall i | 0 <= i < |below| :: stack[i] == below[i];
    forall e | Pending(stack, e) ensures Pending(below, e) {
      var i :| 0 <= i < |stack| && e in stack[i].rest;
      assert e in below[i].rest;
    }
    forall e | Pending(below, e) ensures Pending(stack, e) {
      var i :| 0 <= i < |below| && e in below[i].rest;
      assert e in stack[i].rest;
    }
  }

  lemma StackedFinish<V, E>(g: map<E, Arc<V>>, h: map<E, Arc<V>>, t: Trace<V, E>, below: seq<VertexInfo<V, E>>, u: V)
    requires Stacked(g, h, t, below + [VertexInfo(u, {})])
    ensures u in t.path && Finished(u) !in t.at
    ensures Stacked(g, h, t.Append(FinishVertex(u)), below)
  {
    hide ProperAncestor;
    var now, stack := t.Append(FinishVertex(u)), below + [VertexInfo(u, {})];
    assert stack[|below|] == VertexInfo(u, {});
    assert forall i | 0 <= i < |below| :: stack[i] == below[i];
    forall i | 0 <= i < |below| ensures below[i].v != u {
      StackDistinct(g, h, t, stack, i, |below|);
    }
    forall w | w in now.path && Finished(w) !in now.at ensures OnStack(below, w) {
      assert OnStack(stack, w);
      var i :| 0 <= i < |stack| && stack[i].v == w;
      assert below[i].v == w;
    }
  }

  /** A vertex with no out-edge left to look at is finished and leaves the stack. */
  lemma Ascend<V, E>(g: map<E, Arc<V>>, examine: E -> bool, t: Trace<V, E>, colors: map<V, Color>,
                     below: seq<VertexInfo<V, E>>, u: V)
    requires Searching(g, examine, t, below + [VertexInfo(u, {})], colors)
    ensures Searching(g, examine, t.Append(FinishVertex(u)), below, colors[u := Black])
  {
    hide Logged, Forest, AllMeant, Stacked, Pending;
    var h := Permitted(g, examine);
    StackedFinish(g, h, t, below, u);
    PendingFinish<V, E>(below, u);
    LoggedAppend(t, FinishVertex(u));
    ForestAppend(h, t, FinishVertex(u));
    MeantFinish(g, h, t, below, u);
  }

  // ----- The search -----

  function Targets<V, E>(g: map<E, Arc<V>>): set<V>
  {
    set e | e in g :: g[e].dst
  }

  ghost function EdgesLeft<V, E>(stack: seq<VertexInfo<V, E>>): nat
  {
    if stack == [] then 0 else EdgesLeft(stack[..|stack| - 1]) + |stack[|stack| - 1].rest|
  }

  lemma EdgesLeftPush<V, E>(stack: seq<VertexInfo<V, E>>, info: VertexInfo<V, E>)
    ensures EdgesLeft(stack + [info]) == EdgesLeft(stack) + |info.rest|
  {
    assert (stack + [info])[..|stack|] == stack;
  }

  /** What a search adds to a trace: earlier discoveries stay, and `source` is the only new root. */
  ghost predicate GrownFrom<V, E>(t0: Trace<V, E>, t: Trace<V, E>, source: V)
  {
    && t0.log <= t.log
    && source in t.path && t.path[source] == []
    && (forall v | v in t0.path :: v in t.path && t.path[v] == t0.path[v])
    && (forall v | v in t.path && v !in t0.path && t.path[v] == [] :: v == source)
  }

  lemma GrownAppend<V, E>(t0: Trace<V, E>, t: Trace<V, E>, source: V, ev: Event<V, E>)
    requires GrownFrom(t0, t, source)
    ensures GrownFrom(t0, t.Append(ev), source)
    ensures t.Append(ev).path == t.path && t.Append(ev).log == t.log + [ev]
  {
  }

  lemma GrownDiscover<V, E>(t0: Trace<V, E>, t: Trace<V, E>, source: V, v: V, p: seq<E>)
    requires GrownFrom(t0, t, source) && v !in t.path && p != []
    ensures GrownFrom(t0, t.Discover(v, p), source)
    ensures t.Discover(v, p).log == t.log + [DiscoverVertex(v)] && t.Discover(v, p).path.Keys == t.path.Keys + {v}
  {
  }

  lemma GrownRoot<V, E>(t: Trace<V, E>, source: V)
    requires source !in t.path
    ensures GrownFrom(t, t.Discover(source, []), source)
    ensures t.Discover(source, []).log == t.log + [DiscoverVertex(source)]
  {
  }

  /** White vertices have not been discovered. */
  lemma WhiteIsNew<V, E>(g: map<E, Arc<V>>, examine: E -> bool, t: Trace<V, E>, stack: seq<VertexInfo<V, E>>,
                         colors: map<V, Color>, v: V)
    requires Searching(g, examine, t, stack, colors)
    ensures ColorOf(colors, v) == White <==> v !in t.path
  {
  }

  lemma FewerWhite<V, E>(g: map<E, Arc<V>>, e: E, t: Trace<V, E>, now: Trace<V, E>)
    requires e in g && g[e].dst !in t.path && now.path.Keys == t.path.Keys + {g[e].dst}
    ensures Targets(g) - now.path.Keys < Targets(g) - t.path.Keys
  {
    assert g[e].dst in Targets(g);
  }

  method Visit<V(==), E(==)>(g: map<E, Arc<V>>, examine: E -> bool, source: V,
                             colors0: map<V, Color>, log0: seq<Event<V, E>>, ghost t0: Trace<V, E>)
    returns (colors: map<V, Color>, log: seq<Event<V, E>>, ghost t: Trace<V, E>)
    requires Searching<V, E>(g, examine, t0, [], colors0) && log0 == t0.log && ColorOf(colors0, source) == White
    ensures Searching<V, E>(g, examine, t, [], colors) && log == t.log
    ensures GrownFrom(t0, t, source)
  {
    hide *;
    WhiteIsNew<V, E>(g, examine, t0, [], colors0, source);
    Root(g, examine, t0, colors0, source);
    GrownRoot(t0, source);
    t := t0.Discover(source, []);
    var u := source;
    colors := colors0[u := Gray];
    log := log0 + [DiscoverVertex(u)];
    var ei := Out(g, u);
    var stack := [VertexInfo(u, ei)];
    while stack != []
      invariant Searching(g, examine, t, stack, colors) && log == t.log && GrownFrom(t0, t, source)
      decreases Targets(g) - t.path.Keys, EdgesLeft(stack), |stack|
    {
      ghost var top, white := |stack| - 1, Targets(g) - t.path.Keys;
      EdgesLeftPush(stack[..top], stack[top]);
      assert stack[..top] + [stack[top]] == stack;
      ghost var edges := EdgesLeft(stack);
      u, ei := stack[|stack| - 1].v, stack[|stack| - 1].rest;
      assert stack[top] == VertexInfo(u, ei);
      stack := stack[..|stack| - 1];
      while ei != {}
        invariant Searching(g, examine, t, stack + [VertexInfo(u, ei)], colors) && log == t.log
        invariant GrownFrom(t0, t, source)
        invariant || Targets(g) - t.path.Keys < white
                  || (Targets(g) - t.path.Keys == white && EdgesLeft(stack) + |ei| <= edges && |stack| == top)
        decreases Targets(g) - t.path.Keys, EdgesLeft(stack) + |ei|
      {
        var e :| e in ei;
        AtHand(g, examine, t, colors, stack, u, ei, e);
        if !examine(e) {
          Reject(g, examine, t, colors, stack, u, ei, e);
          ei := ei - {e};
          continue;
        }
        var v := g[e].dst;
        WhiteIsNew(g, examine, t, stack + [VertexInfo(u, ei)], colors, v);
        if ColorOf(colors, v) == White {
          Descend(g, examine, t, colors, stack, u, ei, e);
          ghost var p := t.path[u] + [e];
          GrownAppend(t0, t, source, TreeEdge(e));
          GrownDiscover(t0, t.Append(TreeEdge(e)), source, v, p);
          FewerWhite(g, e, t, t.Append(TreeEdge(e)).Discover(v, p));
          t := t.Append(TreeEdge(e)).Discover(v, p);
          log := log + [TreeEdge(e)];
          stack := stack + [VertexInfo(u, ei - {e})];
          u := v;
          colors := colors[u := Gray];
          log := log + [DiscoverVertex(u)];
          ei := Out(g, u);
        } else {
          var ev := if ColorOf(colors, v) == Gray then BackEdge(e) else ForwardOrCrossEdge(e);
          Classify(g, examine, t, colors, stack, u, ei, e, ev);
          GrownAppend(t0, t, source, ev);
          t := t.Append(ev);
          log := log + [ev];
          ei := ei - {e};
        }
      }
      Ascend(g, examine, t, colors, stack, u);
      GrownAppend(t0, t, source, FinishVertex(u));
      t := t.Append(FinishVertex(u));
      colors := colors[u := Black];
      log := log + [FinishVertex(u)];
    }
  }

  // ----- What a finished search tells -----

  ghost function EmptyTrace<V, E>(): Trace<V, E>
  {
    Trace([], map[], map[])
  }

  lemma EmptySearch<V, E>(g: map<E, Arc<V>>, examine: E -> bool)
    ensures Searching<V, E>(g, examine, EmptyTrace(), [], map[])
  {
  }

  /** The edges that a log shows as tree edges. */
  function TreeArcs<V(==), E(==)>(h: map<E, Arc<V>>, log: seq<Event<V, E>>): map<E, Arc<V>>
  {
    map e | e in h && TreeEdge(e) in log :: h[e]
  }

  /** The edges out of `vs` that a log does not show as back edges. */
  function ForwardArcs<V(==), E(==)>(h: map<E, Arc<V>>, log: seq<Event<V, E>>, vs: set<V>): map<E, Arc<V>>
  {
    map e | e in h && h[e].src in vs && BackEdge(e) !in log :: h[e]
  }

  lemma {:induction false} TreeWalk<V, E>(h: map<E, Arc<V>>, t: Trace<V, E>, v: V) returns (root: V)
    requires Forest(h, t) && v in t.path
    ensures root in t.path && t.path[root] == [] && IsWalk(TreeArcs(h, t.log), root, t.path[v], v)
    decreases |t.path[v]|
  {
    if t.path[v] == [] {
      return v;
    }
    var n := |t.path[v]| - 1;
    var e := t.path[v][n];
    assert Grown(h, t, v);
    assert t.log[t.at[Discovered(v)] - 1] == TreeEdge(e);
    root := TreeWalk(h, t, h[e].src);
    WalkSnoc(TreeArcs(h, t.log), root, t.path[v][..n], e);
    assert t.path[v][..n] + [e] == t.path[v];
  }

  /** Tree edges lead down from an ancestor. */
  lemma AncestorReaches<V, E>(h: map<E, Arc<V>>, t: Trace<V, E>, v: V, w: V)
    requires Forest(h, t) && ProperAncestor(h, t.path, v, w)
    ensures Reaches(TreeArcs(h, t.log), v, w)
  {
    hide Forest;
    var root := TreeWalk(h, t, w);
    var p, q := t.path[v], t.path[w][|t.path[v]|..];
    assert t.path[w] == p + q;
    var u := WalkSplit(TreeArcs(h, t.log), root, p, q, w);
    assert q[0] == t.path[w][|p|];
  }

  lemma OneEventToAKey<V, E>(t: Trace<V, E>, ev: Event<V, E>, ev': Event<V, E>)
    requires Logged(t) && ev in t.log && ev' in t.log && KeyOf(ev) == KeyOf(ev')
    ensures ev == ev' && KeyOf(ev) in t.at && t.at[KeyOf(ev)] < |t.log| && t.log[t.at[KeyOf(ev)]] == ev
  {
    var i :| 0 <= i < |t.log| && t.log[i] == ev;
    var j :| 0 <= j < |t.log| && t.log[j] == ev';
    assert t.at[KeyOf(ev)] == i == j;
  }

  /** Tree edges are not back edges: an edge is classified once. */
  lemma TreeIsForward<V, E>(h: map<E, Arc<V>>, t: Trace<V, E>, e: E)
    requires Logged(t) && TreeEdge(e) in t.log
    ensures BackEdge(e) !in t.log
  {
    if BackEdge(e) in t.log {
      OneEventToAKey(t, TreeEdge(e), BackEdge(e));
    }
  }

  /** Once the stack is empty every discovered vertex is finished and all its permitted out-edges are classified. */
  lemma AllFinished<V, E>(g: map<E, Arc<V>>, examine: E -> bool, t: Trace<V, E>, colors: map<V, Color>)
    requires Searching<V, E>(g, examine, t, [], colors)
    ensures forall v | v in t.path :: Discovered(v) in t.at && Finished(v) in t.at
    ensures forall e | e in Permitted(g, examine) && g[e].src in t.path :: Classified(e) in t.at && g[e].dst in t.path
  {
    forall v | v in t.path ensures Finished(v) in t.at {
      assert !OnStack<V, E>([], v);
    }
    forall e | e in Permitted(g, examine) && g[e].src in t.path ensures Classified(e) in t.at && g[e].dst in t.path {
      assert !Pending<V, E>([], e);
      assert Meant(Permitted(g, examine), t, e);
    }
  }

  lemma ClosedDiscoveries<V, E>(g: map<E, Arc<V>>, examine: E -> bool, t: Trace<V, E>, colors: map<V, Color>, s: V,
                                v: V)
    requires Searching<V, E>(g, examine, t, [], colors) && s in t.path && Reaches(Permitted(g, examine), s, v)
    ensures v in t.path
  {
    AllFinished(g, examine, t, colors);
    ClosedReaches(Permitted(g, examine), t.path.Keys, s, v);
  }

  /** A search from one source discovers what the source reaches over permitted edges, no more and no less. */
  lemma DiscoversReachable<V, E>(g: map<E, Arc<V>>, examine: E -> bool, t: Trace<V, E>, colors: map<V, Color>,
                                 source: V)
    requires Searching<V, E>(g, examine, t, [], colors) && GrownFrom(EmptyTrace(), t, source)
    ensures forall v :: v in t.path <==> Reaches(Permitted(g, examine), source, v)
    ensures forall v | v in t.path :: IsWalk(TreeArcs(Permitted(g, examine), t.log), source, t.path[v], v)
  {
    var h := Permitted(g, examine);
    forall v | v in t.path
      ensures IsWalk(TreeArcs(h, t.log), source, t.path[v], v) && Reaches(h, source, v)
    {
      var root := TreeWalk(h, t, v);
      assert root == source;
      WalkMonotone(TreeArcs(h, t.log), h, source, t.path[v], v);
    }
    forall v | Reaches(h, source, v) ensures v in t.path {
      ClosedDiscoveries(g, examine, t, colors, source, v);
    }
  }

  lemma FinishesEarlier<V, E>(h: map<E, Arc<V>>, t: Trace<V, E>, e: E)
    requires Logged(t) && Classified(e) in t.at && Meant(h, t, e) && BackEdge(e) !in t.log
    requires Finished(h[e].src) in t.at
    ensures Finished(h[e].dst) in t.at && t.at[Finished(h[e].dst)] < t.at[Finished(h[e].src)]
  {
    var k := t.at[Classified(e)];
    assert t.log[k] in t.log && KeyOf(t.log[k]) == Classified(e);
  }

  /** Finishing order is a ranking of all edges but the back edges, so these have no cycle. */
  lemma ForwardIsAcyclic<V, E>(g: map<E, Arc<V>>, examine: E -> bool, t: Trace<V, E>, colors: map<V, Color>)
    requires Searching<V, E>(g, examine, t, [], colors)
    ensures Acyclic(ForwardArcs(Permitted(g, examine), t.log, t.path.Keys))
  {
    hide Stacked, Covered, Coloured, Forest, Logged, Meant;
    AllFinished(g, examine, t, colors);
    var h := Permitted(g, examine);
    var k := ForwardArcs(h, t.log, t.path.Keys);
    var rank := map v | v in t.path :: t.at[Finished(v)];
    forall e | e in k ensures k[e].dst in rank && rank[k[e].dst] < rank[k[e].src] {
      assert Meant(h, t, e);
      FinishesEarlier(h, t, e);
    }
    RankedIsAcyclic(k, rank);
  }

  lemma BackMeans<V, E>(h: map<E, Arc<V>>, t: Trace<V, E>, e: E)
    requires Logged(t) && Classified(e) in t.at && Meant(h, t, e)
    ensures e in h && h[e].src in t.path && h[e].dst in t.path
    ensures BackEdge(e) in t.log ==> h[e].dst == h[e].src || ProperAncestor(h, t.path, h[e].dst, h[e].src)
    ensures h[e].src == h[e].dst && Finished(h[e].src) in t.at ==> BackEdge(e) in t.log
  {
    if BackEdge(e) in t.log {
      OneEventToAKey(t, BackEdge(e), BackEdge(e));
    }
    assert t.log[t.at[Classified(e)]] in t.log && KeyOf(t.log[t.at[Classified(e)]]) == Classified(e);
  }

  /** A back edge closes a cycle: its target is an ancestor of its source. A self edge is always one. */
  lemma BackEdgesCloseCycles<V, E>(g: map<E, Arc<V>>, examine: E -> bool, t: Trace<V, E>, colors: map<V, Color>, e: E)
    requires Searching<V, E>(g, examine, t, [], colors) && e in Permitted(g, examine) && g[e].src in t.path
    ensures BackEdge(e) in t.log ==>
              g[e].dst == g[e].src || ProperAncestor(Permitted(g, examine), t.path, g[e].dst, g[e].src)
    ensures g[e].src == g[e].dst ==> BackEdge(e) in t.log
  {
    hide Stacked, Covered, Coloured, Forest, Logged, Meant;
    AllFinished(g, examine, t, colors);
    assert Meant(Permitted(g, examine), t, e);
    BackMeans(Permitted(g, examine), t, e);
  }

  /** Two events never settle the same thing. */
  ghost predicate NoRepeats<V, E>(log: seq<Event<V, E>>)
  {
    forall i, j | 0 <= i < j < |log| :: KeyOf(log[i]) != KeyOf(log[j])
  }

  function DiscoveredIn<V(==), E(==)>(log: seq<Event<V, E>>): set<V>
  {
    set ev | ev in log && ev.DiscoverVertex? :: ev.v
  }

  function FinishedIn<V(==), E(==)>(log: seq<Event<V, E>>): set<V>
  {
    set ev | ev in log && ev.FinishVertex? :: ev.v
  }

  function ClassifiedIn<V(==), E(==)>(log: seq<Event<V, E>>): set<E>
  {
    set ev | ev in log && KeyOf(ev).Classified? :: KeyOf(ev).e
  }

  lemma LogAndTrace<V, E>(t: Trace<V, E>)
    requires Logged(t)
    ensures NoRepeats(t.log)
    ensures forall v :: v in DiscoveredIn(t.log) <==> Discovered(v) in t.at
    ensures forall v :: v in FinishedIn(t.log) <==> Finished(v) in t.at
    ensures forall e :: e in ClassifiedIn(t.log) <==> Classified(e) in t.at
  {
    forall key | key in t.at ensures t.log[t.at[key]] in t.log && KeyOf(t.log[t.at[key]]) == key {
    }
    forall v | Discovered(v) in t.at ensures v in DiscoveredIn(t.log) {
      assert t.log[t.at[Discovered(v)]] == DiscoverVertex(v);
    }
    forall v | Finished(v) in t.at ensures v in FinishedIn(t.log) {
      assert t.log[t.at[Finished(v)]] == FinishVertex(v);
    }
  }

  /** The event came among the first `k`. */
  ghost predicate Before<V, E>(log: seq<Event<V, E>>, k: nat, ev: Event<V, E>)
    requires k <= |log|
  {
    ev in log[..k]
  }

  /** A tree edge is followed by the discovery of its target. The target of a back edge has been discovered but not
      finished by then, that of any other edge has been finished. */
  ghost predicate ComesInTurn<V, E>(h: map<E, Arc<V>>, log: seq<Event<V, E>>, k: nat)
    requires k < |log|
  {
    match log[k]
    case TreeEdge(e) => e in h && k + 1 < |log| && log[k + 1] == DiscoverVertex(h[e].dst)
    case BackEdge(e) =>
      e in h && Before(log, k, DiscoverVertex(h[e].dst)) && !Before(log, k, FinishVertex(h[e].dst))
    case ForwardOrCrossEdge(e) => e in h && Before(log, k, FinishVertex(h[e].dst))
    case _ => true
  }

  ghost predicate InTurn<V, E>(h: map<E, Arc<V>>, log: seq<Event<V, E>>)
  {
    forall k | 0 <= k < |log| :: ComesInTurn(h, log, k)
  }

  lemma EventAt<V, E>(t: Trace<V, E>, key: Key<V, E>, k: nat)
    requires Logged(t) && k <= |t.log|
    ensures key in t.at ==> t.at[key] < |t.log| && KeyOf(t.log[t.at[key]]) == key
    ensures key.Discovered? ==> (Before(t.log, k, DiscoverVertex(key.v)) <==> key in t.at && t.at[key] < k)
    ensures key.Finished? ==> (Before(t.log, k, FinishVertex(key.v)) <==> key in t.at && t.at[key] < k)
  {
    if key.Discovered? && Before(t.log, k, DiscoverVertex(key.v)) {
      var i :| 0 <= i < k && t.log[..k][i] == DiscoverVertex(key.v);
      assert KeyOf(t.log[i]) == key;
    }
    if key.Finished? && Before(t.log, k, FinishVertex(key.v)) {
      var i :| 0 <= i < k && t.log[..k][i] == FinishVertex(key.v);
      assert KeyOf(t.log[i]) == key;
    }
    if key in t.at && t.at[key] < k {
      assert t.log[..k][t.at[key]] == t.log[t.at[key]];
    }
  }

  lemma EventInTurn<V, E>(h: map<E, Arc<V>>, t: Trace<V, E>, k: nat)
    requires Logged(t) && Forest(h, t) && AllMeant(h, t) && k < |t.log|
    ensures ComesInTurn(h, t.log, k)
  {
    hide Logged, Forest, AllMeant, Before;
    var key := KeyOf(t.log[k]);
    if key.Classified? {
      TargetAt(h, t, key.e, k);
      EventAt(t, Discovered(h[key.e].dst), k);
      EventAt(t, Finished(h[key.e].dst), k);
      if t.log[k].TreeEdge? {
        TreeComesBefore(t, key.e, h[key.e].dst, k);
      }
    }
  }

  lemma TargetAt<V, E>(h: map<E, Arc<V>>, t: Trace<V, E>, e: E, k: nat)
    requires Logged(t) && Forest(h, t) && AllMeant(h, t) && k < |t.log| && KeyOf(t.log[k]) == Classified(e)
    ensures e in h
    ensures var v := h[e].dst;
            match t.log[k]
            case TreeEdge(_) =>
              && Discovered(v) in t.at && 0 < t.at[Discovered(v)] <= |t.log|
              && t.log[t.at[Discovered(v)] - 1] == TreeEdge(e)
            case BackEdge(_) =>
              && Discovered(v) in t.at && t.at[Discovered(v)] < k && (Finished(v) in t.at ==> k < t.at[Finished(v)])
            case _ => Finished(v) in t.at && t.at[Finished(v)] < k
  {
    assert Classified(e) in t.at && t.at[Classified(e)] == k && Meant(h, t, e);
    hide Logged, AllMeant, ProperAncestor;
    if t.log[k].TreeEdge? {
      assert Grown(h, t, h[e].dst);
    }
  }

  lemma TreeComesBefore<V, E>(t: Trace<V, E>, e: E, v: V, k: nat)
    requires Logged(t) && k < |t.log| && t.log[k] == TreeEdge(e) && Discovered(v) in t.at
    requires 0 < t.at[Discovered(v)] <= |t.log| && t.log[t.at[Discovered(v)] - 1] == TreeEdge(e)
    ensures k + 1 < |t.log| && t.log[k + 1] == DiscoverVertex(v)
  {
    assert t.at[KeyOf(t.log[k])] == k && t.at[KeyOf(t.log[t.at[Discovered(v)] - 1])] == t.at[Discovered(v)] - 1;
  }

  lemma LogInTurn<V, E>(h: map<E, Arc<V>>, t: Trace<V, E>)
    requires Logged(t) && Forest(h, t) && AllMeant(h, t)
    ensures InTurn(h, t.log)
  {
    hide Logged, Forest, AllMeant, ComesInTurn;
    forall k | 0 <= k < |t.log| ensures ComesInTurn(h, t.log, k) {
      EventInTurn(h, t, k);
    }
  }

  /** What the visitor of a depth-first visit is told: exactly the vertices that the source reaches over permitted
      edges are discovered, each once, and finished, each once; exactly the permitted edges out of those are
      classified, each once, in turn; and without the back edges, among them all self edges, no cycle is left. */
  ghost predicate Exact<V, E>(g: map<E, Arc<V>>, examine: E -> bool, source: V, log: seq<Event<V, E>>)
  {
    var h, vs := Permitted(g, examine), DiscoveredIn(log);
    && NoRepeats(log) && InTurn(h, log)
    && source in vs && Closed(h, vs) && (forall v | v in vs :: Reaches(h, source, v))
    && FinishedIn(log) == vs
    && ClassifiedIn(log) == (set e | e in h && h[e].src in vs)
    && (forall e | e in h && h[e].src in vs && h[e].src == h[e].dst :: BackEdge(e) in log)
    && Acyclic(ForwardArcs(h, log, vs))
  }

  lemma FromOneSource<V, E>(g: map<E, Arc<V>>, examine: E -> bool, t: Trace<V, E>, colors: map<V, Color>, source: V)
    requires Searching<V, E>(g, examine, t, [], colors) && GrownFrom(EmptyTrace(), t, source)
    ensures Exact(g, examine, source, t.log)
  {
    hide Logged, Forest, Stacked, Covered, Meant, Permitted, ForwardArcs;
    LogAndTrace(t);
    LogInTurn(Permitted(g, examine), t);
    hide InTurn;
    AllFinished(g, examine, t, colors);
    DiscoversReachable(g, examine, t, colors, source);
    ForwardIsAcyclic(g, examine, t, colors);
    hide AllMeant, Coloured, GrownFrom, IsWalk;
    var h := Permitted(g, examine);
    PermittedArcs(g, examine);
    assert DiscoveredIn(t.log) == t.path.Keys == FinishedIn(t.log);
    forall e | e in h && h[e].src in t.path && h[e].src == h[e].dst ensures BackEdge(e) in t.log {
      BackEdgesCloseCycles(g, examine, t, colors, e);
    }
    ClassifiedExactly(h, t);
  }

  lemma ClassifiedExactly<V, E>(h: map<E, Arc<V>>, t: Trace<V, E>)
    requires Logged(t) && AllMeant(h, t)
    requires forall e | e in h && h[e].src in t.path :: Classified(e) in t.at
    ensures ClassifiedIn(t.log) == set e | e in h && h[e].src in t.path
  {
    hide Logged, Meant;
    LogAndTrace(t);
    forall e | Classified(e) in t.at ensures e in h && h[e].src in t.path {
      assert Meant(h, t, e);
      MeantArc(h, t, e);
    }
  }

  lemma PermittedArcs<V, E>(g: map<E, Arc<V>>, examine: E -> bool)
    ensures Subgraph(Permitted(g, examine), g)
  {
  }

  lemma MeantArc<V, E>(h: map<E, Arc<V>>, t: Trace<V, E>, e: E)
    requires Classified(e) in t.at && Meant(h, t, e)
    ensures e in h && h[e].src in t.path && h[e].dst in t.path
  {
  }

  method ImprovedDepthFirstVisit<V(==), E(==)>(g: map<E, Arc<V>>, source: V, examine: E -> bool)
    returns (log: seq<Event<V, E>>)
    ensures Exact(g, examine, source, log)
  {
    EmptySearch(g, examine);
    ghost var t;
    var colors;
    colors, log, t := Visit(g, examine, source, map[], [], EmptyTrace());
    FromOneSource(g, examine, t, colors, source);
  }
}
