/** Kahn's topological visit: a vertex is visited once all its permitted in-edges have been taken. The number of
    in-edges still missing is kept in a lazily filled map that forgets a vertex as soon as nothing is missing. */
module Kahn {
  import opened Basics
  import opened Walks
  import opened PropertyMaps
  import opened DepthFirst

  /** The in-edges of `v` that have been taken. */
  function Taken<V(==), E>(h: map<E, Arc<V>>, done: set<E>, v: V): set<E>
  {
    set e | e in h && h[e].dst == v && e in done
  }

  /** All in-edges of `v` have been taken, and no more were asked for. */
  ghost predicate Complete<V, E>(h: map<E, Arc<V>>, need: V -> int, done: set<E>, v: V)
  {
    Taken(h, done, v) == In(h, v) && AsksExactly(h, need, v)
  }

  /** The vertex asks for as many edges as can be taken. */
  ghost predicate AsksExactly<V, E>(h: map<E, Arc<V>>, need: V -> int, v: V)
  {
    need(v) == |In(h, v)|
  }

  /** What the map holds: how many in-edges each vertex still waits for, once some have been taken. */
  ghost predicate Counts<V, E>(h: map<E, Arc<V>>, need: V -> int, done: set<E>, underlying: map<V, int>)
  {
    && (forall v | v in underlying :: Taken(h, done, v) != {} && !Complete(h, need, done, v)
                                      && underlying[v] == need(v) - |Taken(h, done, v)|)
    && (forall e | e in h ::
          Taken(h, done, h[e].dst) != {} && !Complete(h, need, done, h[e].dst) ==> h[e].dst in underlying)
  }

  /** The default is at least the number of permitted in-edges. */
  ghost predicate DefaultsOk<V, E>(h: map<E, Arc<V>>, need: V -> int)
  {
    forall e | e in h :: need(h[e].dst) >= |In(h, h[e].dst)|
  }

  lemma SubsetSize<T>(a: set<T>, b: set<T>)
    requires a <= b
    ensures |a| <= |b| && (|a| == |b| ==> a == b)
  {
    CardinalityMonotone(a, b);
    if a != b {
      assert |b - a| > 0;
      assert b == a + (b - a);
    }
  }

  /** One more in-edge of its target is taken. */
  lemma TakeOne<V, E>(h: map<E, Arc<V>>, need: V -> int, done: set<E>, underlying: map<V, int>, e: E)
    returns (missing: int)
    requires Counts(h, need, done, underlying) && DefaultsOk(h, need) && e in h && e !in done
    ensures missing == Lookup(underlying, need, h[e].dst) - 1 && missing >= 0
    ensures missing == need(h[e].dst) - |Taken(h, done + {e}, h[e].dst)|
    ensures missing == 0 <==> Complete(h, need, done + {e}, h[e].dst)
    ensures forall v | v != h[e].dst :: Taken(h, done + {e}, v) == Taken(h, done, v)
    ensures Taken(h, done + {e}, h[e].dst) == Taken(h, done, h[e].dst) + {e}
  {
    var v := h[e].dst;
    var before, after := Taken(h, done, v), Taken(h, done + {e}, v);
    assert e in In(h, v) && e !in before;
    assert after == before + {e};
    SubsetSize(after, In(h, v));
    missing := need(v) - |after|;
    assert before == {} ==> v !in underlying;
  }

  lemma CountsMore<V, E>(h: map<E, Arc<V>>, need: V -> int, done: set<E>, underlying: map<V, int>, e: E, val: int,
                         missing: int)
    requires Counts(h, need, done, underlying) && DefaultsOk(h, need) && e in h && e !in done
    requires missing == need(h[e].dst) - |Taken(h, done + {e}, h[e].dst)|
    ensures Counts(h, need, done + {e}, Put(underlying[h[e].dst := val], 0, h[e].dst, missing))
  {
    var v := h[e].dst;
    var m := TakeOne(h, need, done, underlying, e);
    var u := Put(underlying[v := val], 0, v, missing);
    hide Taken, In, DefaultsOk;
    CountsElsewhere(h, need, done, underlying, e, u);
    PutThere(underlying[v := val], v, missing);
    hide Counts, Put;
    CountsSo(h, need, done + {e}, u, v);
  }

  lemma PutThere<V>(m: map<V, int>, v: V, missing: int)
    ensures v in Put(m, 0, v, missing) <==> missing != 0
    ensures missing != 0 ==> Put(m, 0, v, missing)[v] == missing
  {
  }

  /** Nothing changes at the vertices that the edge does not enter. */
  lemma CountsElsewhere<V, E>(h: map<E, Arc<V>>, need: V -> int, done: set<E>, underlying: map<V, int>, e: E,
                              u: map<V, int>)
    requires Counts(h, need, done, underlying) && e in h && u - {h[e].dst} == underlying - {h[e].dst}
    requires forall x | x != h[e].dst :: Taken(h, done + {e}, x) == Taken(h, done, x)
    ensures forall x | x in u && x != h[e].dst :: CountedRight(h, need, done + {e}, u, x)
    ensures forall f | f in h && h[f].dst != h[e].dst :: MissingThere(h, need, done + {e}, u, h[f].dst)
  {
    hide Taken, In;
    forall x | x in u && x != h[e].dst ensures CountedRight(h, need, done + {e}, u, x) {
      assert x in u - {h[e].dst};
      assert x in underlying && u[x] == underlying[x];
    }
    forall f | f in h && h[f].dst != h[e].dst ensures MissingThere(h, need, done + {e}, u, h[f].dst) {
      assert h[f].dst in underlying ==> h[f].dst in underlying - {h[e].dst};
    }
  }

  ghost predicate CountedRight<V, E>(h: map<E, Arc<V>>, need: V -> int, done: set<E>, u: map<V, int>, v: V)
    requires v in u
  {
    Taken(h, done, v) != {} && !Complete(h, need, done, v) && u[v] == need(v) - |Taken(h, done, v)|
  }

  ghost predicate MissingThere<V, E>(h: map<E, Arc<V>>, need: V -> int, done: set<E>, u: map<V, int>, v: V)
  {
    Taken(h, done, v) != {} && !Complete(h, need, done, v) ==> v in u
  }

  lemma CountsSo<V, E>(h: map<E, Arc<V>>, need: V -> int, done: set<E>, u: map<V, int>, v: V)
    requires v in u ==> CountedRight(h, need, done, u, v)
    requires MissingThere(h, need, done, u, v)
    requires forall x | x in u && x != v :: CountedRight(h, need, done, u, x)
    requires forall f | f in h && h[f].dst != v :: MissingThere(h, need, done, u, h[f].dst)
    ensures Counts(h, need, done, u)
  {
    hide Taken, In, Complete;
    forall x | x in u ensures CountedRight(h, need, done, u, x) {
    }
    forall f | f in h ensures MissingThere(h, need, done, u, h[f].dst) {
    }
  }

  // ----- The state of the visit -----

  ghost predicate Visits<V, E>(g: map<E, Arc<V>>, order: seq<E>, v: V)
  {
    exists e :: e in order && e in g && g[e].dst == v
  }

  /** Vertices are visited, or wait to be visited, by one edge each. */
  ghost predicate OnceEach<V, E>(g: map<E, Arc<V>>, order: seq<E>, stack: seq<E>)
  {
    && (forall e | e in order + stack :: e in g)
    && (forall e, f | e in order + stack && f in order + stack && e != f :: g[e].dst != g[f].dst)
    && (forall i, j | 0 <= i < j < |order| :: order[i] != order[j])
    && (forall i, j | 0 <= i < j < |stack| :: stack[i] != stack[j])
    && (forall e | e in order :: e !in stack)
  }

  /** All permitted in-edges of the `i`-th visited vertex come from vertices visited before it. */
  ghost predicate AllBefore<V, E>(g: map<E, Arc<V>>, h: map<E, Arc<V>>, order: seq<E>, i: nat)
    requires i < |order| && order[i] in g
  {
    forall e | e in h && h[e].dst == g[order[i]].dst :: Visits(g, order[..i], h[e].src)
  }

  ghost predicate InOrder<V, E>(g: map<E, Arc<V>>, h: map<E, Arc<V>>, order: seq<E>)
  {
    forall i | 0 <= i < |order| :: order[i] in g && AllBefore(g, h, order, i)
  }

  /** Exactly the first vertex and those whose permitted in-edges have all been taken are visited or wait. */
  ghost predicate Reached<V, E>(g: map<E, Arc<V>>, h: map<E, Arc<V>>, need: V -> int, source: E, order: seq<E>,
                                stack: seq<E>,
                                done: set<E>)
  {
    && source in order + stack
    && (forall e | e in h && Complete(h, need, done, h[e].dst) :: Visits(g, order + stack, h[e].dst))
    && (forall e | e in order + stack && e != source ::
          e in g && e in h && h[e] == g[e] && Complete(h, need, done, g[e].dst))
  }

  /** The permitted edges out of visited vertices have been taken, but for those still `todo`. */
  ghost predicate TakenOut<V, E>(g: map<E, Arc<V>>, h: map<E, Arc<V>>, order: seq<E>, done: set<E>, todo: set<E>)
  {
    done <= h.Keys && forall e | e in h :: e in done <==> Visits(g, order, h[e].src) && e !in todo
  }

  ghost predicate Going<V, E>(g: map<E, Arc<V>>, h: map<E, Arc<V>>, need: V -> int, source: E, order: seq<E>,
                              stack: seq<E>,
                              done: set<E>, todo: set<E>)
  {
    && Subgraph(h, g) && source in g && In(h, g[source].dst) == {}
    && OnceEach(g, order, stack) && InOrder(g, h, order)
    && Reached(g, h, need, source, order, stack, done) && TakenOut(g, h, order, done, todo)
  }

  lemma GoingStart<V, E>(g: map<E, Arc<V>>, h: map<E, Arc<V>>, need: V -> int, source: E)
    requires Subgraph(h, g) && source in g && In(h, g[source].dst) == {}
    ensures Going(g, h, need, source, [], [source], {}, {})
  {
    forall e | e in h ensures !Complete(h, need, {}, h[e].dst) {
      assert e in In(h, h[e].dst);
    }
  }

  lemma VisitsMore<V, E>(g: map<E, Arc<V>>, order: seq<E>, e: E)
    requires e in g
    ensures forall v :: Visits(g, order + [e], v) <==> Visits(g, order, v) || v == g[e].dst
  {
    forall v | Visits(g, order, v) || v == g[e].dst ensures Visits(g, order + [e], v) {
      if v == g[e].dst {
        assert e in order + [e];
      } else {
        var x :| x in order && x in g && g[x].dst == v;
        assert x in order + [e];
      }
    }
  }

  lemma SameElements<V, E>(g: map<E, Arc<V>>, a: seq<E>, b: seq<E>)
    requires forall e :: e in a <==> e in b
    ensures forall v :: Visits(g, a, v) <==> Visits(g, b, v)
  {
  }

  /** The next vertex is visited: its in-edges have all been taken, and its out-edges are next. */
  lemma GoingPop<V, E>(g: map<E, Arc<V>>, h: map<E, Arc<V>>, need: V -> int, source: E, order: seq<E>, stack: seq<E>,
                       done: set<E>)
    requires Going(g, h, need, source, order, stack, done, {}) && stack != []
    ensures var e, rest := stack[|stack| - 1], stack[..|stack| - 1];
            e in g && Going(g, h, need, source, order + [e], rest, done, Out(h, g[e].dst))
  {
    var e, rest := stack[|stack| - 1], stack[..|stack| - 1];
    assert stack == rest + [e];
    assert forall x :: x in order + stack <==> x in (order + [e]) + rest;
    PopOnce(g, order, rest, e);
    assert e in order + stack;
    hide Taken, IsWalk;
    VisitsMore(g, order, e);
    SameElements(g, order + stack, (order + [e]) + rest);
    PopOut(g, h, order, stack, done, e);
    PopInOrder(g, h, need, source, order, stack, done, e);
  }

  lemma PopOnce<V, E>(g: map<E, Arc<V>>, order: seq<E>, rest: seq<E>, e: E)
    requires OnceEach(g, order, rest + [e])
    ensures OnceEach(g, order + [e], rest)
  {
    var stack := rest + [e];
    assert forall x | x in (order + [e]) + rest :: x in order + stack;
    assert e in stack && stack[|rest|] == e;
    forall i | 0 <= i < |rest| ensures rest[i] != e {
      assert stack[i] == rest[i];
    }
    forall i, j | 0 <= i < j < |rest| ensures rest[i] != rest[j] {
      assert stack[i] == rest[i] && stack[j] == rest[j];
    }
    assert forall x | x in rest :: x in stack;
    assert forall i | 0 <= i < |order| :: order[i] in order;
  }

  lemma PopOut<V, E>(g: map<E, Arc<V>>, h: map<E, Arc<V>>, order: seq<E>, stack: seq<E>, done: set<E>, e: E)
    requires OnceEach(g, order, stack) && TakenOut(g, h, order, done, {}) && e in stack && e in g
    requires forall v :: Visits(g, order + [e], v) <==> Visits(g, order, v) || v == g[e].dst
    ensures TakenOut(g, h, order + [e], done, Out(h, g[e].dst))
  {
  }

  lemma PopInOrder<V, E>(g: map<E, Arc<V>>, h: map<E, Arc<V>>, need: V -> int, source: E, order: seq<E>,
                         stack: seq<E>, done: set<E>,
                         e: E)
    requires Going(g, h, need, source, order, stack, done, {}) && e in stack && e in g
    ensures InOrder(g, h, order + [e])
  {
    hide OnceEach;
    var order' := order + [e];
    assert order'[..|order|] == order && e in order + stack;
    forall x | x in h && h[x].dst == g[e].dst ensures Visits(g, order, h[x].src) {
      assert x in In(h, g[e].dst);
    }
    forall i | 0 <= i < |order'| ensures order'[i] in g && AllBefore(g, h, order', i) {
      if i < |order| {
        assert AllBefore(g, h, order, i) && order'[..i] == order[..i];
      }
    }
  }

  lemma TakenMore<V, E>(h: map<E, Arc<V>>, need: V -> int, done: set<E>, f: E)
    requires f in h && f !in done
    ensures !Complete(h, need, done, h[f].dst)
    ensures forall v | v != h[f].dst :: Complete(h, need, done + {f}, v) <==> Complete(h, need, done, v)
  {
    assert f in In(h, h[f].dst);
    forall v | v != h[f].dst ensures Taken(h, done + {f}, v) == Taken(h, done, v) {
    }
  }

  lemma NotWaiting<V, E>(g: map<E, Arc<V>>, h: map<E, Arc<V>>, need: V -> int, source: E, order: seq<E>,
                         stack: seq<E>, done: set<E>,
                         f: E)
    requires Subgraph(h, g) && source in g && In(h, g[source].dst) == {}
    requires Reached(g, h, need, source, order, stack, done)
    requires f in h && !Complete(h, need, done, h[f].dst)
    ensures !Visits(g, order + stack, h[f].dst)
  {
    assert f in In(h, h[f].dst);
  }

  lemma PushOnce<V, E>(g: map<E, Arc<V>>, order: seq<E>, stack: seq<E>, f: E)
    requires OnceEach(g, order, stack) && f in g && !Visits(g, order + stack, g[f].dst)
    ensures OnceEach(g, order, stack + [f])
  {
    assert forall x :: x in order + (stack + [f]) <==> x in order + stack || x == f;
    assert forall x | x in order :: x in order + stack;
    assert forall i | 0 <= i < |stack| :: stack[i] in order + stack;
  }

  /** An edge out of the vertex being visited is taken; if it was the last that its target waited for, that is next. */
  lemma GoingTake<V, E>(g: map<E, Arc<V>>, h: map<E, Arc<V>>, need: V -> int, source: E, order: seq<E>,
                        stack: seq<E>, done: set<E>,
                        todo: set<E>, f: E)
    requires Going(g, h, need, source, order, stack, done, todo) && f in todo && f in h && Visits(g, order, h[f].src)
    ensures f !in done
    ensures Going(g, h, need, source, order, if Complete(h, need, done + {f}, h[f].dst) then stack + [f] else stack,
                  done + {f}, todo - {f})
  {
    hide *;
    GoingParts(g, h, need, source, order, stack, done, todo);
    SubgraphEdge(h, g, f);
    var last := Complete(h, need, done + {f}, h[f].dst);
    var stack' := if last then stack + [f] else stack;
    NotDone(g, h, order, done, todo, f);
    TakenMore(h, need, done, f);
    NotWaiting(g, h, need, source, order, stack, done, f);
    assert forall x :: x in order + (stack + [f]) <==> x in (order + stack) + [f];
    VisitsMore(g, order + stack, f);
    SameElements(g, order + (stack + [f]), (order + stack) + [f]);
    TakeReached(g, h, need, source, order, stack, done, f);
    if last {
      PushOnce(g, order, stack, f);
    }
    TakenOutMore(g, h, order, done, todo, f);
    GoingSo(g, h, need, source, order, stack', done + {f}, todo - {f});
  }

  lemma GoingParts<V, E>(g: map<E, Arc<V>>, h: map<E, Arc<V>>, need: V -> int, source: E, order: seq<E>, stack: seq<E>,
                         done: set<E>, todo: set<E>)
    requires Going(g, h, need, source, order, stack, done, todo)
    ensures Subgraph(h, g) && source in g && In(h, g[source].dst) == {}
    ensures OnceEach(g, order, stack) && InOrder(g, h, order)
    ensures Reached(g, h, need, source, order, stack, done) && TakenOut(g, h, order, done, todo)
  {
  }

  lemma GoingSo<V, E>(g: map<E, Arc<V>>, h: map<E, Arc<V>>, need: V -> int, source: E, order: seq<E>, stack: seq<E>,
                      done: set<E>, todo: set<E>)
    requires Subgraph(h, g) && source in g && In(h, g[source].dst) == {}
    requires OnceEach(g, order, stack) && InOrder(g, h, order)
    requires Reached(g, h, need, source, order, stack, done) && TakenOut(g, h, order, done, todo)
    ensures Going(g, h, need, source, order, stack, done, todo)
  {
  }

  lemma SubgraphEdge<V, E>(h: map<E, Arc<V>>, g: map<E, Arc<V>>, e: E)
    requires Subgraph(h, g) && e in h
    ensures e in g && g[e] == h[e]
  {
  }

  lemma NotDone<V, E>(g: map<E, Arc<V>>, h: map<E, Arc<V>>, order: seq<E>, done: set<E>, todo: set<E>, f: E)
    requires TakenOut(g, h, order, done, todo) && f in todo && f in h
    ensures f !in done
  {
  }

  lemma TakenOutMore<V, E>(g: map<E, Arc<V>>, h: map<E, Arc<V>>, order: seq<E>, done: set<E>, todo: set<E>, f: E)
    requires TakenOut(g, h, order, done, todo) && f in todo && f in h && Visits(g, order, h[f].src)
    ensures TakenOut(g, h, order, done + {f}, todo - {f})
  {
    hide Visits;
  }

  lemma TakeReached<V, E>(g: map<E, Arc<V>>, h: map<E, Arc<V>>, need: V -> int, source: E, order: seq<E>,
                          stack: seq<E>, done: set<E>,
                          f: E)
    requires Subgraph(h, g) && Reached(g, h, need, source, order, stack, done) && f in h && f !in done
    requires !Visits(g, order + stack, h[f].dst)
    requires forall v | v != h[f].dst :: Complete(h, need, done + {f}, v) <==> Complete(h, need, done, v)
    requires forall v :: Visits(g, order + (stack + [f]), v) <==> Visits(g, order + stack, v) || v == g[f].dst
    ensures Reached(g, h, need, source, order,
                    if Complete(h, need, done + {f}, h[f].dst) then stack + [f] else stack, done + {f})
  {
    hide Complete;
    assert forall x :: x in order + (stack + [f]) <==> x in order + stack || x == f;
    forall e | e in order + stack && e != source ensures e in g && g[e].dst != h[f].dst {
      assert e in g;
    }
  }

  // ----- What the visit achieves -----

  /** The visited vertices, in order: each once, each after the sources of all its permitted in-edges; and beside the
      first vertex exactly those with permitted in-edges that all come from visited vertices, and that do not ask for
      more in-edges than these. */
  ghost predicate VisitedWell<V, E>(g: map<E, Arc<V>>, h: map<E, Arc<V>>, need: V -> int, source: E, order: seq<E>)
  {
    && source in order && source in g && In(h, g[source].dst) == {} && (forall e | e in order :: e in g)
    && (forall i, j | 0 <= i < j < |order| :: order[i] in g && order[j] in g && g[order[i]].dst != g[order[j]].dst)
    && InOrder(g, h, order)
    && (forall e | e in h && Ready(g, h, order, h[e].dst) && AsksExactly(h, need, h[e].dst) ::
          Visits(g, order, h[e].dst))
    && (forall e | e in order && e != source ::
          e in g && In(h, g[e].dst) != {} && Ready(g, h, order, g[e].dst) && AsksExactly(h, need, g[e].dst))
  }

  ghost predicate Ready<V, E>(g: map<E, Arc<V>>, h: map<E, Arc<V>>, order: seq<E>, v: V)
  {
    forall e | e in h && h[e].dst == v :: Visits(g, order, h[e].src)
  }

  lemma GoingEnd<V, E>(g: map<E, Arc<V>>, h: map<E, Arc<V>>, need: V -> int, source: E, order: seq<E>, done: set<E>)
    requires Going(g, h, need, source, order, [], done, {})
    ensures VisitedWell(g, h, need, source, order)
    ensures forall e | e in h ::
              Complete(h, need, done, h[e].dst) <==> Ready(g, h, order, h[e].dst) && AsksExactly(h, need, h[e].dst)
    ensures forall e | e in h :: e in done <==> Visits(g, order, h[e].src)
  {
    assert order + [] == order;
    forall i, j | 0 <= i < j < |order| ensures order[i] in g && order[j] in g && g[order[i]].dst != g[order[j]].dst {
      assert order[i] in order && order[j] in order;
    }
    forall e | e in h
      ensures Complete(h, need, done, h[e].dst) <==> Ready(g, h, order, h[e].dst) && AsksExactly(h, need, h[e].dst)
    {
      ReadyIsComplete(g, h, need, order, done, h[e].dst);
    }
    forall e | e in order && e != source
      ensures e in g && In(h, g[e].dst) != {} && Ready(g, h, order, g[e].dst) && AsksExactly(h, need, g[e].dst)
    {
      assert e in In(h, g[e].dst);
      ReadyIsComplete(g, h, need, order, done, g[e].dst);
    }
  }

  lemma ReadyIsComplete<V, E>(g: map<E, Arc<V>>, h: map<E, Arc<V>>, need: V -> int, order: seq<E>, done: set<E>, v: V)
    requires TakenOut(g, h, order, done, {})
    ensures Taken(h, done, v) == In(h, v) <==> Ready(g, h, order, v)
    ensures Complete(h, need, done, v) <==> Ready(g, h, order, v) && AsksExactly(h, need, v)
  {
    forall e | e in h && h[e].dst == v ensures e in Taken(h, done, v) <==> Visits(g, order, h[e].src) {
    }
    assert Ready(g, h, order, v) ==> forall e | e in In(h, v) :: e in Taken(h, done, v);
    assert Taken(h, done, v) == In(h, v) ==> forall e | e in h && h[e].dst == v ::
             e in In(h, v) && e in Taken(h, done, v);
  }

  /** What is left in the map: exactly the vertices with a permitted in-edge from a visited vertex, that also have one
      from elsewhere or ask for more in-edges than they have; with the number of edges they are still waiting for. */
  ghost predicate LeftOver<V, E>(g: map<E, Arc<V>>, h: map<E, Arc<V>>, need: V -> int, order: seq<E>,
                                 underlying: map<V, int>)
  {
    && (forall v | v in underlying ::
          && !(Ready(g, h, order, v) && AsksExactly(h, need, v))
          && underlying[v] == need(v) - |In(h, v)| + |Missing(g, h, order, v)|)
    && (forall e | e in h && Visits(g, order, h[e].src)
                   && !(Ready(g, h, order, h[e].dst) && AsksExactly(h, need, h[e].dst)) ::
          h[e].dst in underlying)
    && (forall v | v in underlying :: exists e :: e in h && h[e].dst == v && Visits(g, order, h[e].src))
  }

  ghost function Missing<V, E>(g: map<E, Arc<V>>, h: map<E, Arc<V>>, order: seq<E>, v: V): set<E>
  {
    set e | e in h && h[e].dst == v && !Visits(g, order, h[e].src)
  }

  lemma CountsAtEnd<V, E>(g: map<E, Arc<V>>, h: map<E, Arc<V>>, need: V -> int, order: seq<E>, done: set<E>,
                          underlying: map<V, int>)
    requires TakenOut(g, h, order, done, {}) && Counts(h, need, done, underlying)
    ensures LeftOver(g, h, need, order, underlying)
  {
    hide Visits;
    forall v | v in underlying
      ensures !(Ready(g, h, order, v) && AsksExactly(h, need, v))
      ensures underlying[v] == need(v) - |In(h, v)| + |Missing(g, h, order, v)|
      ensures exists e :: e in h && h[e].dst == v && Visits(g, order, h[e].src)
    {
      MissingSize(g, h, need, order, done, v);
      var e :| e in Taken(h, done, v);
    }
    forall e | e in h && Visits(g, order, h[e].src) && !(Ready(g, h, order, h[e].dst) && AsksExactly(h, need, h[e].dst))
      ensures h[e].dst in underlying
    {
      assert e in Taken(h, done, h[e].dst);
      ReadyIsComplete(g, h, need, order, done, h[e].dst);
    }
  }

  lemma MissingSize<V, E>(g: map<E, Arc<V>>, h: map<E, Arc<V>>, need: V -> int, order: seq<E>, done: set<E>, v: V)
    requires TakenOut(g, h, order, done, {})
    ensures |Missing(g, h, order, v)| == |In(h, v)| - |Taken(h, done, v)|
    ensures Complete(h, need, done, v) <==> Ready(g, h, order, v) && AsksExactly(h, need, v)
  {
    hide Visits;
    ReadyIsComplete(g, h, need, order, done, v);
    assert In(h, v) == Taken(h, done, v) + Missing(g, h, order, v);
    assert Taken(h, done, v) !! Missing(g, h, order, v);
  }

  lemma {:induction false} SeqSize<T>(s: seq<T>)
    requires forall i, j | 0 <= i < j < |s| :: s[i] != s[j]
    ensures |set x | x in s| == |s|
  {
    if s != [] {
      var last := s[|s| - 1];
      var rest := s[..|s| - 1];
      SeqSize(rest);
      assert s == rest + [last];
      assert (set x | x in s) == (set x | x in rest) + {last};
    }
  }

  lemma RoomLeft<V, E>(g: map<E, Arc<V>>, order: seq<E>, stack: seq<E>)
    requires OnceEach(g, order, stack) && stack != []
    ensures |order| < |g|
  {
    var e := stack[0];
    assert e in stack && e in order + stack;
    SeqSize(order);
    var s := set x | x in order;
    assert forall x | x in s :: x in order + stack;
    assert e !in s;
    SubsetSize(s + {e}, g.Keys);
  }

  lemma LastVisited<V, E>(g: map<E, Arc<V>>, order: seq<E>, e: E)
    requires e in g
    ensures Visits(g, order + [e], g[e].dst)
  {
    assert e in order + [e];
  }

  lemma PermittedEdge<V, E>(g: map<E, Arc<V>>, examine: E -> bool, f: E)
    requires f in g
    ensures f in Permitted(g, examine) <==> examine(f)
    ensures f in Permitted(g, examine) ==> Permitted(g, examine)[f] == g[f]
    ensures Subgraph(Permitted(g, examine), g)
  {
  }

  /** The visitor filters edges; it never cuts off a branch. `source` is an edge into the vertex to start from. */
  method TopologicalVisitKahn<V(==), E(==)>(g: map<E, Arc<V>>, source: E, examine: E -> bool,
                                inDegreeMap: SparsePropertyMap<V, int>)
    returns (order: seq<E>)
    requires source in g && In(Permitted(g, examine), g[source].dst) == {}
    requires inDegreeMap.sentinel == 0 && inDegreeMap.underlying == map[]
    requires DefaultsOk(Permitted(g, examine), inDegreeMap.defaultValue)
    modifies inDegreeMap
    ensures VisitedWell(g, Permitted(g, examine), inDegreeMap.defaultValue, source, order)
    ensures LeftOver(g, Permitted(g, examine), inDegreeMap.defaultValue, order, inDegreeMap.underlying)
  {
    hide Permitted, Going, Counts, VisitedWell, LeftOver, DefaultsOk, OnceEach, TakenOut, Visits;
    ghost var h, need, done := Permitted(g, examine), inDegreeMap.defaultValue, {};
    PermittedEdge(g, examine, source);
    GoingStart(g, h, need, source);
    CountsNothing(h, need);
    order := [];
    var noRemainingInEdges := [source];
    while noRemainingInEdges != []
      invariant Going(g, h, need, source, order, noRemainingInEdges, done, {})
      invariant Counts(h, need, done, inDegreeMap.underlying)
      invariant |order| <= |g|
      decreases |g| - |order|
    {
      GoingParts(g, h, need, source, order, noRemainingInEdges, done, {});
      RoomLeft(g, order, noRemainingInEdges);
      GoingPop(g, h, need, source, order, noRemainingInEdges, done);
      var e := noRemainingInEdges[|noRemainingInEdges| - 1];
      noRemainingInEdges := noRemainingInEdges[..|noRemainingInEdges| - 1];
      var u := g[e].dst;
      LastVisited(g, order, e);
      order := order + [e];
      noRemainingInEdges, done := TakeOutEdges(g, source, examine, inDegreeMap, u, order, noRemainingInEdges, done);
    }
    GoingEnd(g, h, need, source, order, done);
    GoingParts(g, h, need, source, order, [], done, {});
    CountsAtEnd(g, h, need, order, done, inDegreeMap.underlying);
  }

  lemma CountsNothing<V, E>(h: map<E, Arc<V>>, need: V -> int)
    ensures Counts(h, need, {}, map[])
  {
  }

  /** Takes the permitted out-edges of the visited vertex, and pushes those that were the last ones missing. */
  method TakeOutEdges<V(==), E(==)>(g: map<E, Arc<V>>, source: E, examine: E -> bool,
                        inDegreeMap: SparsePropertyMap<V, int>,
                                    u: V, ghost order: seq<E>, stack: seq<E>, ghost done: set<E>)
    returns (stack': seq<E>, ghost done': set<E>)
    requires Going(g, Permitted(g, examine), inDegreeMap.defaultValue, source, order, stack, done,
                   Out(Permitted(g, examine), u))
    requires Visits(g, order, u)
    requires inDegreeMap.sentinel == 0
    requires Counts(Permitted(g, examine), inDegreeMap.defaultValue, done, inDegreeMap.underlying)
    requires DefaultsOk(Permitted(g, examine), inDegreeMap.defaultValue)
    modifies inDegreeMap
    ensures Going(g, Permitted(g, examine), inDegreeMap.defaultValue, source, order, stack', done', {})
    ensures Counts(Permitted(g, examine), inDegreeMap.defaultValue, done', inDegreeMap.underlying)
  {
    hide Permitted, Going, Counts, DefaultsOk, Visits, Taken;
    ghost var h, need := Permitted(g, examine), inDegreeMap.defaultValue;
    ghost var todo := Out(h, u);
    stack', done' := stack, done;
    var ei := Out(g, u);
    OutPermitted(g, examine, u);
    while ei != {}
      invariant ei <= Out(g, u) && todo <= Out(h, u)
      invariant forall x :: x in todo <==> x in ei && examine(x)
      invariant Going(g, h, need, source, order, stack', done', todo) && Counts(h, need, done', inDegreeMap.underlying)
    {
      var f :| f in ei;
      PermittedEdge(g, examine, f);
      if examine(f) {
        var v := g[f].dst;
        GoingTake(g, h, need, source, order, stack', done', todo, f);
        ghost var missing := TakeOne(h, need, done', inDegreeMap.underlying, f);
        ghost var before := inDegreeMap.underlying;
        var id := inDegreeMap.Read(v);
        CountsMore(h, need, done', before, f, id, missing);
        id := id - 1;
        inDegreeMap.Write(v, id);
        if id == 0 {
          stack' := stack' + [f];
        }
        done', todo := done' + {f}, todo - {f};
      }
      ei := ei - {f};
    }
    assert todo == {};
  }

  lemma OutPermitted<V, E>(g: map<E, Arc<V>>, examine: E -> bool, u: V)
    ensures forall x :: x in Out(Permitted(g, examine), u) <==> x in Out(g, u) && examine(x)
  {
  }

  // ----- When all that is reachable is visited -----

  ghost function VisitedSet<V, E>(g: map<E, Arc<V>>, order: seq<E>): set<V>
  {
    set e | e in order && e in g :: g[e].dst
  }

  /** No permitted edge enters the set from outside. */
  ghost predicate NoWayInto<V, E>(h: map<E, Arc<V>>, r: set<V>)
  {
    forall e | e in h && h[e].dst in r :: h[e].src in r
  }

  lemma VisitedIn<V, E>(g: map<E, Arc<V>>, order: seq<E>)
    ensures forall v :: Visits(g, order, v) <==> v in VisitedSet(g, order)
  {
  }

  lemma {:induction false} VisitedReachable<V, E>(g: map<E, Arc<V>>, h: map<E, Arc<V>>, need: V -> int, source: E,
                                                  order: seq<E>,
                                                  r: set<V>, i: nat)
    requires VisitedWell(g, h, need, source, order) && source in g && ReachableFrom(h, g[source].dst, r) && i < |order|
    ensures order[i] in g && g[order[i]].dst in r
    decreases i
  {
    hide Ready, Reaches;
    var e := order[i];
    assert e in order;
    if e != source {
      var f :| f in In(h, g[e].dst);
      assert AllBefore(g, h, order, i);
      var x :| x in order[..i] && x in g && g[x].dst == h[f].src;
      var j :| 0 <= j < i && order[j] == x;
      VisitedReachable(g, h, need, source, order, r, j);
    }
  }

  ghost function Above<V, E>(h: map<E, Arc<V>>, us: set<V>, u: V): set<V>
  {
    set w | w in us && Reaches(h, w, u)
  }

  lemma FewerAbove<V, E>(h: map<E, Arc<V>>, us: set<V>, u: V, e: E)
    requires u in us && e in h && h[e].dst == u && !Reaches(h, u, h[e].src)
    ensures |Above(h, us, h[e].src)| < |Above(h, us, u)|
  {
    hide IsWalk, Reaches;
    var before, after := Above(h, us, u), Above(h, us, h[e].src);
    forall x | x in after ensures x in before {
      ReachesStep(h, x, e);
    }
    ReachesRefl(h, u);
    assert u in before && u !in after;
    SubsetSize(after, before);
  }

  ghost predicate EnteredWithin<V, E>(h: map<E, Arc<V>>, us: set<V>, v: V)
  {
    exists e :: e in h && h[e].dst == v && h[e].src in us
  }

  /** Where every vertex has an in-edge from the same set, going back has to come round. */
  lemma {:induction false} NoFirst<V, E>(h: map<E, Arc<V>>, us: set<V>, u: V)
    requires u in us && forall v | v in us :: EnteredWithin(h, us, v)
    ensures !Acyclic(h)
    decreases |Above(h, us, u)|
  {
    hide Reaches, Above;
    assert EnteredWithin(h, us, u);
    var e :| e in h && h[e].dst == u && h[e].src in us;
    if !Reaches(h, u, h[e].src) {
      FewerAbove(h, us, u, e);
      NoFirst(h, us, h[e].src);
    }
  }

  lemma AllVisited<V, E>(g: map<E, Arc<V>>, h: map<E, Arc<V>>, need: V -> int, source: E, order: seq<E>, r: set<V>)
    requires VisitedWell(g, h, need, source, order) && source in g && Subgraph(h, g)
    requires ReachableFrom(h, g[source].dst, r)
    requires Acyclic(FromWithin(h, r)) && NoWayInto(h, r) && AllAskExactly(h, need, r)
    ensures r <= VisitedSet(g, order)
  {
    hide Acyclic, Reaches;
    VisitedIn(g, order);
    var us := r - VisitedSet(g, order);
    var k := FromWithin(h, r);
    hide VisitedWell, NoWayInto, ReachableFrom;
    forall v | v in us ensures EnteredWithin(k, us, v) {
      EnteredFrom(g, h, need, source, order, r, v);
    }
    hide EnteredWithin, FromWithin, VisitedSet;
    if us != {} {
      var u :| u in us;
      NoFirst(k, us, u);
      assert false;
    }
    assert forall v | v in r :: v in us || v in VisitedSet(g, order);
  }

  /** A reachable vertex that was not visited waits for another such vertex. */
  lemma EnteredFrom<V, E>(g: map<E, Arc<V>>, h: map<E, Arc<V>>, need: V -> int, source: E, order: seq<E>, r: set<V>,
                          v: V)
    requires VisitedWell(g, h, need, source, order) && source in g && ReachableFrom(h, g[source].dst, r)
    requires NoWayInto(h, r) && AllAskExactly(h, need, r)
    requires v in r && v !in VisitedSet(g, order)
    ensures exists e :: e in FromWithin(h, r) && h[e].dst == v && h[e].src in r - VisitedSet(g, order)
  {
    hide Acyclic, IsWalk;
    VisitedIn(g, order);
    assert source in order && v != g[source].dst;
    var p: seq<E> :| IsWalk(h, g[source].dst, p, v);
    var e0 := LastStep(h, g[source].dst, p, v);
    assert !Ready(g, h, order, v);
    var e :| e in h && h[e].dst == v && !Visits(g, order, h[e].src);
    assert e in FromWithin(h, r);
  }

  lemma LastStep<V, E>(h: map<E, Arc<V>>, s: V, p: seq<E>, v: V) returns (e: E)
    requires IsWalk(h, s, p, v) && s != v
    ensures e in h && h[e].dst == v
  {
    var u := WalkSplitLast(h, s, p, v);
    e := p[|p| - 1];
  }

  /** An edge between visited vertices leads from an earlier to a later one. */
  lemma EarlierFirst<V, E>(g: map<E, Arc<V>>, h: map<E, Arc<V>>, need: V -> int, source: E, order: seq<E>, e: E)
    requires VisitedWell(g, h, need, source, order) && e in h && Visits(g, order, h[e].dst)
    ensures PlaceOf(g, order, h[e].src) < PlaceOf(g, order, h[e].dst) < |order|
  {
    hide Ready, PlaceOf, OnceEach;
    Placed(g, order, h[e].dst);
    var i := PlaceOf(g, order, h[e].dst);
    assert AllBefore(g, h, order, i);
    EarlierPlace(g, order, i, h[e].src);
  }

  lemma OrderRanks<V, E>(g: map<E, Arc<V>>, h: map<E, Arc<V>>, need: V -> int, source: E, order: seq<E>)
    requires VisitedWell(g, h, need, source, order) && Closed(h, VisitedSet(g, order))
    ensures Acyclic(FromWithin(h, VisitedSet(g, order)))
  {
    hide Acyclic, VisitedWell, PlaceOf;
    VisitedIn(g, order);
    var r := VisitedSet(g, order);
    var later := set v | v in r && PlaceOf(g, order, v) <= |order|;
    var rank := map v | v in later :: |order| - PlaceOf(g, order, v);
    var k := FromWithin(h, r);
    hide VisitedSet, Visits;
    forall e | e in k ensures k[e].src in rank && k[e].dst in rank && rank[k[e].dst] < rank[k[e].src] {
      EarlierFirst(g, h, need, source, order, e);
    }
    RankedIsAcyclic(k, rank);
  }

  /** The first place at which `v` is visited. */
  ghost function PlaceOf<V, E>(g: map<E, Arc<V>>, order: seq<E>, v: V): nat
    decreases |order|
  {
    if order == [] then 0
    else if order[0] in g && g[order[0]].dst == v then 0
    else 1 + PlaceOf(g, order[1..], v)
  }

  lemma {:induction false} Placed<V, E>(g: map<E, Arc<V>>, order: seq<E>, v: V)
    requires Visits(g, order, v)
    ensures PlaceOf(g, order, v) < |order| && order[PlaceOf(g, order, v)] in g
    ensures g[order[PlaceOf(g, order, v)]].dst == v
    decreases |order|
  {
    if !(order[0] in g && g[order[0]].dst == v) {
      var e :| e in order && e in g && g[e].dst == v;
      assert e in order[1..];
      Placed(g, order[1..], v);
    }
  }

  lemma {:induction false} EarlierPlace<V, E>(g: map<E, Arc<V>>, order: seq<E>, i: nat, v: V)
    requires i <= |order| && Visits(g, order[..i], v)
    ensures PlaceOf(g, order, v) < i
    decreases |order|
  {
    var e :| e in order[..i] && e in g && g[e].dst == v;
    if !(order[0] in g && g[order[0]].dst == v) {
      assert order[..i][1..] == order[1..][..i - 1];
      assert e in order[..i][1..];
      EarlierPlace(g, order[1..], i - 1, v);
    }
  }

  /** No reachable vertex asks for more in-edges than the permitted ones. */
  ghost predicate AllAskExactly<V, E>(h: map<E, Arc<V>>, need: V -> int, r: set<V>)
  {
    forall e | e in h && h[e].dst in r :: AsksExactly(h, need, h[e].dst)
  }

  /** The visit covers all that is reachable over permitted edges exactly if these have no cycle there, none enters it
      from elsewhere, and no vertex waits for more edges than these. Then nothing is left in the map. */
  lemma VisitsAllExactly<V, E>(g: map<E, Arc<V>>, h: map<E, Arc<V>>, need: V -> int, source: E, order: seq<E>,
                               r: set<V>)
    requires VisitedWell(g, h, need, source, order) && source in g && Subgraph(h, g)
    requires ReachableFrom(h, g[source].dst, r)
    ensures VisitedSet(g, order) <= r
    ensures VisitedSet(g, order) == r <==> Acyclic(FromWithin(h, r)) && NoWayInto(h, r) && AllAskExactly(h, need, r)
    ensures forall underlying: map<V, int> | VisitedSet(g, order) == r && LeftOver(g, h, need, order, underlying) ::
              underlying == map[]
  {
    hide Acyclic, Reaches, InOrder, LeftOver, AllAskExactly, NoWayInto;
    VisitedIn(g, order);
    forall e | e in order && e in g ensures g[e].dst in r {
      var i :| 0 <= i < |order| && order[i] == e;
      VisitedReachable(g, h, need, source, order, r, i);
    }
    if Acyclic(FromWithin(h, r)) && NoWayInto(h, r) && AllAskExactly(h, need, r) {
      AllVisited(g, h, need, source, order, r);
    }
    if VisitedSet(g, order) == r {
      OrderRanks(g, h, need, source, order);
      SourcesVisited(g, h, need, source, order);
      VisitedExact(g, h, need, source, order);
      forall underlying: map<V, int> | LeftOver(g, h, need, order, underlying) ensures underlying == map[] {
        forall v | v in underlying ensures false {
          NothingLeft(g, h, need, order, underlying, v);
        }
      }
    }
  }

  lemma VisitedExact<V, E>(g: map<E, Arc<V>>, h: map<E, Arc<V>>, need: V -> int, source: E, order: seq<E>)
    requires VisitedWell(g, h, need, source, order)
    ensures AllAskExactly(h, need, VisitedSet(g, order))
  {
    hide Ready, InOrder, AsksExactly;
    VisitedIn(g, order);
    forall e | e in h && h[e].dst in VisitedSet(g, order) ensures AsksExactly(h, need, h[e].dst) {
      assert e in In(h, h[e].dst);
    }
  }

  /** A vertex that asks for more in-edges than there are to take is never visited. */
  lemma WaitsForEver<V, E>(g: map<E, Arc<V>>, h: map<E, Arc<V>>, need: V -> int, source: E, order: seq<E>, v: V)
    requires VisitedWell(g, h, need, source, order) && v != g[source].dst && !AsksExactly(h, need, v)
    ensures v !in VisitedSet(g, order)
  {
    hide Ready, InOrder, AsksExactly;
    forall e | e in order && e in g ensures g[e].dst != v {
    }
  }

  lemma SourcesVisited<V, E>(g: map<E, Arc<V>>, h: map<E, Arc<V>>, need: V -> int, source: E, order: seq<E>)
    requires VisitedWell(g, h, need, source, order)
    ensures NoWayInto(h, VisitedSet(g, order))
  {
    VisitedIn(g, order);
    forall e | e in h && h[e].dst in VisitedSet(g, order) ensures h[e].src in VisitedSet(g, order) {
      var x :| x in order && x in g && g[x].dst == h[e].dst;
      var i :| 0 <= i < |order| && order[i] == x;
      assert AllBefore(g, h, order, i);
      var y :| y in order[..i] && y in g && g[y].dst == h[e].src;
      assert y in order;
    }
  }

  lemma NothingLeft<V, E>(g: map<E, Arc<V>>, h: map<E, Arc<V>>, need: V -> int, order: seq<E>, underlying: map<V,
                          int>, v: V)
    requires Closed(h, VisitedSet(g, order)) && NoWayInto(h, VisitedSet(g, order))
    requires AllAskExactly(h, need, VisitedSet(g, order))
    requires LeftOver(g, h, need, order, underlying)
    ensures v !in underlying
  {
    hide Ready, AsksExactly, Missing;
    VisitedIn(g, order);
    if v in underlying {
      var e :| e in h && h[e].dst == v && Visits(g, order, h[e].src);
      ReadyIf(g, h, order, v);
    }
  }

  lemma ReadyIf<V, E>(g: map<E, Arc<V>>, h: map<E, Arc<V>>, order: seq<E>, v: V)
    requires NoWayInto(h, VisitedSet(g, order)) && v in VisitedSet(g, order)
    ensures Ready(g, h, order, v)
  {
    VisitedIn(g, order);
  }
}
