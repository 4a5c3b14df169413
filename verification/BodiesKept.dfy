/** The bodies of a program's functions, as functions are added and linked. */
module BodiesKept {
  import opened Walks
  import opened Graphs
  import opened Programs
  import opened Construction
  import opened Creation
  import opened ControlFlowGraphs
  import opened Meaning
  import opened Linking
  import opened LinkedPrograms
  import opened Executions
  import opened ProgramRuns

  // ----- One more function -----

  ghost function NewBody(r: Record, vs: set<Vertex>): Body
  {
    Body(r, vs, map[], map[])
  }

  lemma BodyStays(b: Body, f: Function, functions: seq<Function>, g: Arcs, h: Arcs, more: seq<Function>)
    requires g.Keys !! h.Keys && BodyOk(b, f, functions, g)
    ensures BodyOk(b, f, functions + more, g + h)
  {
    hide CreatedBody, RenOk;
  }

  lemma BodyStarts(f: Function, functions: seq<Function>, g: Arcs, h: Arcs, r: Record, vs: set<Vertex>)
    requires h == r.final && g.Keys !! h.Keys && CreatedBody(NewBody(r, vs), f)
    ensures BodyOk(NewBody(r, vs), f, functions, g + h) && Now(NewBody(r, vs)) == vs
  {
    hide CreatedBody;
    NothingMoved(g, h);
    var b := NewBody(r, vs);
    assert forall v | v in vs :: Ren(b.ren, v) == v;
    assert forall v | v in vs :: v in Now(b) by {
      forall v | v in vs ensures v in Now(b) {
        NowMeans(b, v);
      }
    }
  }

  lemma NothingMoved(g: Arcs, h: Arcs)
    requires g.Keys !! h.Keys
    ensures Moved(h, g + h, map[])
  {
  }

  /** A new function joins a program. */
  lemma BodiesJoin(functions: seq<Function>, vs: set<Vertex>, g: Arcs, bodies: seq<Body>, f: Function,
                   vs1: set<Vertex>, r: Record)
    requires vs !! vs1 && g.Keys !! r.final.Keys && CreatedBody(NewBody(r, vs1), f)
    requires BodiesOk(functions, vs, g, bodies)
    ensures BodiesOk(functions + [f], vs + vs1, g + r.final, bodies + [NewBody(r, vs1)])
  {
    hide *;
    SameLength(functions, vs, g, bodies);
    var n, functions', bodies' := |bodies|, functions + [f], bodies + [NewBody(r, vs1)];
    BodyStarts(f, functions', g, r.final, r, vs1);
    forall k | 0 <= k < |bodies'|
      ensures BodyOk(bodies'[k], functions'[k], functions', g + r.final) && Now(bodies'[k]) <= vs + vs1
    {
      if k < n {
        BodyAt(functions, vs, g, bodies, k);
        BodyStays(bodies[k], functions[k], functions, g, r.final, [f]);
      }
    }
    forall k, m | 0 <= k < m < |bodies'| ensures Now(bodies'[k]) !! Now(bodies'[m]) {
      BodyAt(functions, vs, g, bodies, k);
      if m < n {
        BodiesApart(functions, vs, g, bodies, k, m);
      }
    }
    forall e | e in g + r.final && !e.kind.FunctionCall? && !e.kind.Return? ensures FromSome(bodies', e) {
      if e in g && e !in r.final {
        var k := SomeBody(functions, vs, g, bodies, e);
        FromThis(bodies', k, e);
      } else {
        NewBodyIs(r, vs1);
        FromThis(bodies', n, e);
      }
    }
    TheyAreOk(functions', vs + vs1, g + r.final, bodies');
  }

  lemma NewBodyIs(r: Record, vs: set<Vertex>)
    ensures NewBody(r, vs).r == r
  {
  }

  lemma BodiesApart(functions: seq<Function>, vs: set<Vertex>, g: Arcs, bodies: seq<Body>, k: nat, m: nat)
    requires BodiesOk(functions, vs, g, bodies) && k < |bodies| && m < |bodies| && k != m
    ensures Now(bodies[k]) !! Now(bodies[m])
  {
    hide BodyOk, Now;
  }

  lemma FromThis(bodies: seq<Body>, k: nat, e: Edge)
    requires k < |bodies| && e in bodies[k].r.final
    ensures FromSome(bodies, e)
  {
  }

  lemma TheyAreOk(functions: seq<Function>, vs: set<Vertex>, g: Arcs, bodies: seq<Body>)
    requires |bodies| == |functions|
    requires forall k | 0 <= k < |bodies| :: BodyOk(bodies[k], functions[k], functions, g) && Now(bodies[k]) <= vs
    requires forall k, m | 0 <= k < m < |bodies| :: Now(bodies[k]) !! Now(bodies[m])
    requires forall e | e in g && !e.kind.FunctionCall? && !e.kind.Return? :: FromSome(bodies, e)
    ensures BodiesOk(functions, vs, g, bodies)
  {
    hide BodyOk, Now, FromSome;
  }

  lemma CodeJoin(bodies: seq<Body>, r: Record, vs: set<Vertex>)
    ensures CodeOf(bodies + [NewBody(r, vs)]) == CodeOf(bodies) + [Listing(r.c.prog, map[])]
  {
  }

  // ----- One function is linked -----

  /** The number of the function in the order of creation. */
  ghost function NumberOf(functions: seq<Function>, f: Function): (k: nat)
    ensures f in functions ==> k < |functions| && functions[k] == f
  {
    if functions == [] || functions[0] == f then 0 else 1 + NumberOf(functions[1..], f)
  }

  predicate CallsKnown(s: Statement, functionMap: map<string, Function>)
  {
    s.CallUnresolved? && s.name in functionMap
  }

  ghost function CalleeOf(s: Statement, functions: seq<Function>, functionMap: map<string, Function>): nat
    requires CallsKnown(s, functionMap)
  {
    NumberOf(functions, functionMap[s.name])
  }

  /** The list with its calls linked: one that is not linked yet calls the function that its name stands for now. */
  ghost function LinkedListing(l: Listing, functions: seq<Function>, functionMap: map<string, Function>): Listing
  {
    Listing(l.prog, map p: nat | 0 < p <= |l.prog| && (p in l.calls || CallsKnown(l.prog[p - 1], functionMap)) ::
              if p in l.calls then l.calls[p] else CalleeOf(l.prog[p - 1], functions, functionMap))
  }

  /** The body when the vertices in `ren` have been replaced as well. */
  ghost function Relinked(b: Body, functions: seq<Function>, functionMap: map<string, Function>,
                          ren: map<Vertex, Vertex>): Body
  {
    Body(b.r, b.vs, b.ren + ren, LinkedListing(ListingOf(b), functions, functionMap).calls)
  }

  /** What linking the function of this body replaces. */
  ghost predicate Replaces(b: Body, functions: seq<Function>, functionMap: map<string, Function>,
                           ren: map<Vertex, Vertex>, vs: set<Vertex>)
  {
    && ren.Keys == ResolvableIn(Listed(b), functionMap) && ReplacementsOk(ren, functionMap)
    && ren.Values !! vs && ren.Values !! b.vs && functionMap.Values <= Elements(functions)
  }

  /** Only vertices that were not replaced before are replaced now. */
  lemma ReplacedNow(b: Body, functions: seq<Function>, functionMap: map<string, Function>, ren: map<Vertex, Vertex>,
                    vs: set<Vertex>, v: Vertex)
    requires Replaces(b, functions, functionMap, ren, vs) && RenOk(b) && Elements(b.r.c.at) - b.r.gone <= b.vs
    requires v in ren
    ensures v !in b.ren && v in b.vs && v in Elements(b.r.c.at) && CallsKnown(v.statement, functionMap)
    ensures ren[v].statement == CallResolved(functionMap[v.statement.name])
    ensures ren[v] !in vs && ren[v] !in b.vs && v in Now(b)
  {
    hide OneToOne;
    assert v in Listed(b);
    var u :| u in Elements(b.r.c.at) && u !in b.r.gone && Ren(b.ren, u) == v;
    assert u !in b.ren;
    NowMeans(b, v);
    NotReplacedTwice(b, functions, functionMap, v);
  }

  lemma NotReplacedTwice(b: Body, functions: seq<Function>, functionMap: map<string, Function>, v: Vertex)
    requires RenOk(b) && v in b.vs && v in Elements(b.r.c.at)
    requires exists u :: u in Elements(b.r.c.at) && u in b.vs && u !in b.ren && Ren(b.ren, u) == v
    ensures v !in b.ren
  {
  }

  lemma Composed(b: Body, functions: seq<Function>, functionMap: map<string, Function>, ren: map<Vertex, Vertex>,
                 vs: set<Vertex>, v: Vertex)
    requires Replaces(b, functions, functionMap, ren, vs) && RenOk(b) && Elements(b.r.c.at) - b.r.gone <= b.vs
    ensures Ren(b.ren + ren, v) == Ren(ren, Ren(b.ren, v))
  {
    hide Replaces;
    RenOkMeans(b);
    if v in ren {
      ReplacedNow(b, functions, functionMap, ren, vs, v);
    }
    if v in b.ren && b.ren[v] in ren {
      ReplacedNow(b, functions, functionMap, ren, vs, b.ren[v]);
    }
  }

  lemma RenOkMore(b: Body, functions: seq<Function>, functionMap: map<string, Function>, ren: map<Vertex, Vertex>,
                  vs: set<Vertex>)
    requires Replaces(b, functions, functionMap, ren, vs) && RenOk(b) && Elements(b.r.c.at) - b.r.gone <= b.vs
    requires Now(b) <= vs
    ensures RenOk(Relinked(b, functions, functionMap, ren))
  {
    hide Replaces, ReplacementsOk, Listed, OneToOne, LinkedListing, RenOk;
    RenOkMeans(b);
    var more := b.ren + ren;
    forall v | v in ren
      ensures ren[v] !in b.vs && v in Elements(b.r.c.at) * b.vs && v.statement.CallUnresolved?
      ensures ren[v].statement.CallResolved?
    {
      ReplacedNow(b, functions, functionMap, ren, vs, v);
    }
    OneToOneMore(b, functions, functionMap, ren, vs);
    RenIsOk(Relinked(b, functions, functionMap, ren));
  }

  lemma RenIsOk(b: Body)
    requires OneToOne(b.ren, b.vs) && b.ren.Keys <= Elements(b.r.c.at) * b.vs
    requires forall v | v in b.ren :: v.statement.CallUnresolved? && b.ren[v].statement.CallResolved?
    ensures RenOk(b)
  {
  }

  lemma OneToOneMore(b: Body, functions: seq<Function>, functionMap: map<string, Function>, ren: map<Vertex, Vertex>,
                     vs: set<Vertex>)
    requires Replaces(b, functions, functionMap, ren, vs) && RenOk(b) && Elements(b.r.c.at) - b.r.gone <= b.vs
    requires Now(b) <= vs
    ensures OneToOne(b.ren + ren, b.vs)
  {
    forall v | v in b.ren ensures b.ren[v] in vs {
      NowMeans(b, v);
    }
    UnionOneToOne(b.ren, ren, b.vs, vs);
  }

  lemma UnionOneToOne(ren: map<Vertex, Vertex>, more: map<Vertex, Vertex>, own: set<Vertex>, vs: set<Vertex>)
    requires OneToOne(ren, own) && OneToOne(more, own) && more.Values !! vs && forall v | v in ren :: ren[v] in vs
    ensures OneToOne(ren + more, own)
  {
    var both := ren + more;
    assert forall v | v in both :: both[v] == if v in more then more[v] else ren[v];
    assert forall v | v in more :: more[v] in more.Values;
    assert forall v | v in ren :: ren[v] in ren.Values;
  }

  // ----- The calls of its list -----

  /** A call in a list is still in its place. */
  lemma CallInPlace(r: Record, p: nat)
    requires IsCallAt(r.c.prog, p) && Created(r)
    ensures HoldsCall(r.c, p)
  {
    hide *;
    CreatedDrawn(r);
    DrawnLinked(r.c, r.orig, r.drawn, r.entrySelf, r.exitSelf);
    DrawnStatements(r.c, r.orig, r.drawn, r.entrySelf, r.exitSelf);
    CallUnmoved(r.c, r.orig, p);
  }

  lemma CallUnmoved(c: Building, orig: seq<Vertex>, p: nat)
    requires Linked(c, orig) && StatementsAt(c.prog, orig) && |c.at| == |orig| == |c.prog| + 2 && IsCallAt(c.prog, p)
    ensures HoldsCall(c, p)
  {
    hide Ways, Built, Complete;
  }

  /** A position has its call replaced now, or had before. */
  lemma ReplacedCalls(b: Body, functions: seq<Function>, functionMap: map<string, Function>, ren: map<Vertex, Vertex>,
                      vs: set<Vertex>, p: nat)
    requires Replaces(b, functions, functionMap, ren, vs) && RenOk(b) && CallsAre(b, functions)
    requires Elements(b.r.c.at) - b.r.gone <= b.vs && Created(b.r)
    ensures p < |b.r.c.at| && b.r.c.at[p] in ren <==>
            p !in b.calls && IsCallAt(b.r.c.prog, p) && CallsKnown(b.r.c.prog[p - 1], functionMap)
  {
    hide *;
    CallAtMeans(b.r.c.prog, p);
    ElementsAre(b.r.c.at);
    if p < |b.r.c.at| && b.r.c.at[p] in ren {
      ReplacedNow(b, functions, functionMap, ren, vs, b.r.c.at[p]);
      KnownIsCall(b.r.c.at[p].statement, functionMap);
      CallAtPosition(b.r, p);
      HoldsCallMeans(b.r.c, p);
      if p in b.calls {
        CallHolds(b, functions, p);
      }
    }
    if p !in b.calls && IsCallAt(b.r.c.prog, p) && CallsKnown(b.r.c.prog[p - 1], functionMap) {
      CallInPlace(b.r, p);
      HoldsCallMeans(b.r.c, p);
      KnownIsCall(b.r.c.at[p].statement, functionMap);
      CallStays(b.r, b.r.c.at[p]);
      assert b.r.c.at[p] in b.r.c.at;
      if b.r.c.at[p] in b.ren {
        CallRecorded(b, functions, p);
      }
      ListedItself(b, b.r.c.at[p]);
      KnownIsReplaced(b, functions, functionMap, ren, vs, b.r.c.at[p]);
    }
  }

  lemma KnownIsCall(s: Statement, functionMap: map<string, Function>)
    ensures CallsKnown(s, functionMap) ==> s.CallUnresolved?
  {
  }

  lemma ListedItself(b: Body, v: Vertex)
    requires v in Elements(b.r.c.at) && v !in b.r.gone && v !in b.ren
    ensures v in Listed(b)
  {
    assert Ren(b.ren, v) == v;
  }

  lemma KnownIsReplaced(b: Body, functions: seq<Function>, functionMap: map<string, Function>, ren: map<Vertex, Vertex>,
                        vs: set<Vertex>, v: Vertex)
    requires Replaces(b, functions, functionMap, ren, vs) && v in Listed(b) && CallsKnown(v.statement, functionMap)
    ensures v in ren
  {
    hide Listed, ReplacementsOk;
  }

  lemma LinkedCalls(l: Listing, functions: seq<Function>, functionMap: map<string, Function>)
    ensures forall p :: p in LinkedListing(l, functions, functionMap).calls <==>
              0 < p <= |l.prog| && (p in l.calls || CallsKnown(l.prog[p - 1], functionMap))
    ensures forall p | p in LinkedListing(l, functions, functionMap).calls ::
              LinkedListing(l, functions, functionMap).calls[p] ==
              if p in l.calls then l.calls[p] else CalleeOf(l.prog[p - 1], functions, functionMap)
  {
  }

  lemma CallsMore(b: Body, functions: seq<Function>, functionMap: map<string, Function>, ren: map<Vertex, Vertex>,
                  vs: set<Vertex>)
    requires Replaces(b, functions, functionMap, ren, vs) && RenOk(b) && CallsAre(b, functions)
    requires Elements(b.r.c.at) - b.r.gone <= b.vs && Created(b.r)
    ensures CallsAre(Relinked(b, functions, functionMap, ren), functions)
  {
    hide *;
    var b' := Relinked(b, functions, functionMap, ren);
    RelinkedIs(b, functions, functionMap, ren);
    LinkedCalls(ListingOf(b), functions, functionMap);
    forall p | p in b'.calls
      ensures p < |b'.r.c.at| && b'.r.c.at[p] in b'.ren && b'.calls[p] < |functions|
      ensures b'.ren[b'.r.c.at[p]].statement == CallResolved(functions[b'.calls[p]])
    {
      ReplacedCalls(b, functions, functionMap, ren, vs, p);
      if p in b.calls {
        CallHolds(b, functions, p);
        StaysReplaced(b, functions, functionMap, ren, vs, p);
      } else {
        KnownIsCall(b.r.c.prog[p - 1], functionMap);
        CallAtMeans(b.r.c.prog, p);
        CallInPlace(b.r, p);
        NewlyReplaced(b, functions, functionMap, ren, vs, p);
      }
    }
    forall p: nat | p < |b'.r.c.at| && b'.r.c.at[p] in b'.ren ensures p in b'.calls {
      ReplacedCalls(b, functions, functionMap, ren, vs, p);
      if b.r.c.at[p] in b.ren {
        CallRecorded(b, functions, p);
        CallHolds(b, functions, p);
        CallAtPosition(b.r, p);
        HoldsCallMeans(b.r.c, p);
        CallAtMeans(b.r.c.prog, p);
      } else {
        CallAtMeans(b.r.c.prog, p);
      }
    }
    CallsSo(b', functions);
  }

  lemma CallAtMeans(prog: Program, p: nat)
    ensures IsCallAt(prog, p) <==> 0 < p <= |prog| && prog[p - 1].CallUnresolved?
  {
  }

  lemma RelinkedIs(b: Body, functions: seq<Function>, functionMap: map<string, Function>, ren: map<Vertex, Vertex>)
    ensures var b' := Relinked(b, functions, functionMap, ren);
            && b'.r == b.r && b'.vs == b.vs && b'.ren == b.ren + ren
            && b'.calls == LinkedListing(ListingOf(b), functions, functionMap).calls
    ensures ListingOf(b).prog == b.r.c.prog && ListingOf(b).calls == b.calls
    ensures ListingOf(Relinked(b, functions, functionMap, ren)) == LinkedListing(ListingOf(b), functions, functionMap)
  {
  }

  lemma StaysReplaced(b: Body, functions: seq<Function>, functionMap: map<string, Function>, ren: map<Vertex, Vertex>,
                      vs: set<Vertex>, p: nat)
    requires Replaces(b, functions, functionMap, ren, vs) && RenOk(b) && Elements(b.r.c.at) - b.r.gone <= b.vs
    requires p < |b.r.c.at| && b.r.c.at[p] in b.ren
    ensures b.r.c.at[p] in b.ren + ren && (b.ren + ren)[b.r.c.at[p]] == Ren(b.ren, b.r.c.at[p])
  {
    hide Replaces, RenOk;
    if b.r.c.at[p] in ren {
      ReplacedNow(b, functions, functionMap, ren, vs, b.r.c.at[p]);
    }
  }

  lemma NewlyReplaced(b: Body, functions: seq<Function>, functionMap: map<string, Function>, ren: map<Vertex, Vertex>,
                      vs: set<Vertex>, p: nat)
    requires Replaces(b, functions, functionMap, ren, vs) && RenOk(b) && Elements(b.r.c.at) - b.r.gone <= b.vs
    requires p < |b.r.c.at| && b.r.c.at[p] in ren && HoldsCall(b.r.c, p) && CallsKnown(b.r.c.prog[p - 1], functionMap)
    ensures b.r.c.at[p] in b.ren + ren && CalleeOf(b.r.c.prog[p - 1], functions, functionMap) < |functions|
    ensures (b.ren + ren)[b.r.c.at[p]].statement ==
            CallResolved(functions[CalleeOf(b.r.c.prog[p - 1], functions, functionMap)])
  {
    hide RenOk, Listed, ResolvableIn, NumberOf;
    var v := b.r.c.at[p];
    assert ren[v].statement == CallResolved(functionMap[v.statement.name]);
    assert functionMap[v.statement.name] in functionMap.Values;
    FunctionsAre(functions);
  }

  lemma FunctionsAre(functions: seq<Function>)
    ensures forall f | f in Elements(functions) :: f in functions
  {
  }

  lemma CallsSo(b: Body, functions: seq<Function>)
    requires forall p | p in b.calls ::
               && p < |b.r.c.at| && b.r.c.at[p] in b.ren && b.calls[p] < |functions|
               && b.ren[b.r.c.at[p]].statement == CallResolved(functions[b.calls[p]])
    requires forall p: nat | p < |b.r.c.at| && b.r.c.at[p] in b.ren :: p in b.calls
    ensures CallsAre(b, functions)
  {
  }

  // ----- The whole program after linking one function -----

  lemma MovedMore(b: Body, functions: seq<Function>, functionMap: map<string, Function>, ren: map<Vertex, Vertex>,
                  vs: set<Vertex>, g: Arcs, h: Arcs)
    requires Replaces(b, functions, functionMap, ren, vs) && RenOk(b) && Elements(b.r.c.at) - b.r.gone <= b.vs
    requires Moved(b.r.final, g, b.ren) && Moved(g, h, ren)
    ensures Moved(b.r.final, h, b.ren + ren)
  {
    hide Replaces, RenOk, Ren;
    forall e | e in b.r.final
      ensures h[e] == Arc(Ren(b.ren + ren, b.r.final[e].src), Ren(b.ren + ren, b.r.final[e].dst))
    {
      Composed(b, functions, functionMap, ren, vs, b.r.final[e].src);
      Composed(b, functions, functionMap, ren, vs, b.r.final[e].dst);
    }
  }

  lemma MovedElsewhere(b: Body, ren: map<Vertex, Vertex>, g: Arcs, h: Arcs)
    requires Moved(b.r.final, g, b.ren) && Moved(g, h, ren) && EndsIn(b.vs, b.r.final) && Now(b) !! ren.Keys
    ensures Moved(b.r.final, h, b.ren)
  {
    forall e | e in b.r.final ensures h[e] == g[e] {
      NowMeans(b, b.r.final[e].src);
      NowMeans(b, b.r.final[e].dst);
    }
  }

  lemma BodyElsewhere(b: Body, f: Function, functions: seq<Function>, ren: map<Vertex, Vertex>, g: Arcs, h: Arcs)
    requires Moved(g, h, ren) && Now(b) !! ren.Keys && BodyOk(b, f, functions, g)
    ensures BodyOk(b, f, functions, h)
  {
    hide RenOk, CallsAre, Moved, Now, Created;
    MovedElsewhere(b, ren, g, h);
  }

  lemma BodyRelinked(b: Body, f: Function, functions: seq<Function>, functionMap: map<string, Function>,
                     ren: map<Vertex, Vertex>, vs: set<Vertex>, g: Arcs, h: Arcs)
    requires Moved(g, h, ren) && Now(b) <= vs
    requires Replaces(b, functions, functionMap, ren, vs) && BodyOk(b, f, functions, g)
    ensures BodyOk(Relinked(b, functions, functionMap, ren), f, functions, h)
  {
    hide *;
    BodyParts(b, f, functions, g);
    RenOkMore(b, functions, functionMap, ren, vs);
    CallsMore(b, functions, functionMap, ren, vs);
    MovedMore(b, functions, functionMap, ren, vs, g, h);
    RelinkedIs(b, functions, functionMap, ren);
    BodySo(b, Relinked(b, functions, functionMap, ren), f, functions, h);
  }

  lemma BodySo(b: Body, b': Body, f: Function, functions: seq<Function>, g: Arcs)
    requires b'.r == b.r && b'.vs == b.vs && CreatedBody(b, f)
    requires RenOk(b') && CallsAre(b', functions) && Moved(b'.r.final, g, b'.ren)
    ensures BodyOk(b', f, functions, g)
  {
    hide RenOk, CallsAre, Moved, Created;
  }

  /** The vertices now are those of before, with the replaced ones replaced. */
  lemma NowRelinked(b: Body, functions: seq<Function>, functionMap: map<string, Function>, ren: map<Vertex, Vertex>,
                    vs: set<Vertex>, w: Vertex)
    requires Replaces(b, functions, functionMap, ren, vs) && RenOk(b) && Elements(b.r.c.at) - b.r.gone <= b.vs
    requires w in Now(Relinked(b, functions, functionMap, ren))
    ensures w in ren.Values || (w in Now(b) && w !in ren)
  {
    hide Replaces, RenOk, Now;
    RelinkedIs(b, functions, functionMap, ren);
    var v := NowFrom(Relinked(b, functions, functionMap, ren), w);
    Composed(b, functions, functionMap, ren, vs, v);
    NowMeans(b, v);
    var u := Ren(b.ren, v);
    if u in ren {
      assert ren[u] in ren.Values;
    }
  }

  lemma ListedRelinked(b: Body, functions: seq<Function>, functionMap: map<string, Function>, ren: map<Vertex, Vertex>,
                       vs: set<Vertex>)
    requires Replaces(b, functions, functionMap, ren, vs) && RenOk(b) && Elements(b.r.c.at) - b.r.gone <= b.vs
    requires Now(b) <= vs
    ensures Listed(Relinked(b, functions, functionMap, ren)) == Listed(b) - ren.Keys + ren.Values
  {
    hide *;
    var b' := Relinked(b, functions, functionMap, ren);
    ReplacesListed(b, functions, functionMap, ren, vs);
    forall w | w in Listed(b') ensures w in Listed(b) - ren.Keys + ren.Values {
      ListedBefore(b, functions, functionMap, ren, vs, w);
    }
    forall u | u in Listed(b) ensures u in vs && Ren(ren, u) in Listed(b') {
      ListedAfter(b, functions, functionMap, ren, vs, u);
    }
    RenIs(ren);
    forall w | w in ren.Values ensures w in Listed(b') {
      var u :| u in ren && ren[u] == w;
      assert Ren(ren, u) == w;
    }
    forall w | w in Listed(b) && w !in ren ensures w in Listed(b') {
      assert Ren(ren, w) == w;
    }
  }

  lemma RenIs(ren: map<Vertex, Vertex>)
    ensures forall v :: Ren(ren, v) == if v in ren then ren[v] else v
  {
  }

  lemma ListedBefore(b: Body, functions: seq<Function>, functionMap: map<string, Function>, ren: map<Vertex, Vertex>,
                     vs: set<Vertex>, w: Vertex)
    requires Replaces(b, functions, functionMap, ren, vs) && RenOk(b) && Elements(b.r.c.at) - b.r.gone <= b.vs
    requires Now(b) <= vs && w in Listed(Relinked(b, functions, functionMap, ren))
    ensures w in Listed(b) - ren.Keys + ren.Values
  {
    hide Replaces, RenOk, Now;
    RelinkedIs(b, functions, functionMap, ren);
    ReplacesListed(b, functions, functionMap, ren, vs);
    var v :| v in Elements(b.r.c.at) && v !in b.r.gone && Ren(b.ren + ren, v) == w;
    Composed(b, functions, functionMap, ren, vs, v);
    NowMeans(b, v);
    var u := Ren(b.ren, v);
    assert u in Listed(b) && (u in ren ==> ren[u] in ren.Values);
  }

  lemma ListedAfter(b: Body, functions: seq<Function>, functionMap: map<string, Function>, ren: map<Vertex, Vertex>,
                    vs: set<Vertex>, u: Vertex)
    requires Replaces(b, functions, functionMap, ren, vs) && RenOk(b) && Elements(b.r.c.at) - b.r.gone <= b.vs
    requires Now(b) <= vs && u in Listed(b)
    ensures u in vs && Ren(ren, u) in Listed(Relinked(b, functions, functionMap, ren))
  {
    hide Replaces, RenOk, Now, Ren;
    RelinkedIs(b, functions, functionMap, ren);
    var v :| v in Elements(b.r.c.at) && v !in b.r.gone && Ren(b.ren, v) == u;
    Composed(b, functions, functionMap, ren, vs, v);
    NowMeans(b, v);
  }

  lemma ReplacesListed(b: Body, functions: seq<Function>, functionMap: map<string, Function>, ren: map<Vertex, Vertex>,
                       vs: set<Vertex>)
    requires Replaces(b, functions, functionMap, ren, vs)
    ensures ren.Keys <= Listed(b) && ren.Values !! vs
  {
    hide Listed;
  }

  lemma KeysAreOwn(b: Body, functions: seq<Function>, functionMap: map<string, Function>, ren: map<Vertex, Vertex>,
                   vs: set<Vertex>)
    requires Replaces(b, functions, functionMap, ren, vs) && RenOk(b) && Elements(b.r.c.at) - b.r.gone <= b.vs
    ensures ren.Keys <= Now(b) && ren.Values !! vs
  {
    hide Replaces, RenOk, Now;
    ReplacesListed(b, functions, functionMap, ren, vs);
    forall v | v in ren ensures v in Now(b) {
      ReplacedNow(b, functions, functionMap, ren, vs, v);
    }
  }

  /** Linking one function of a program. */
  lemma BodiesLinked(functions: seq<Function>, vs: set<Vertex>, g: Arcs, links: Links, bodies: seq<Body>, k: nat,
                     functionMap: map<string, Function>, ren: map<Vertex, Vertex>, vs': set<Vertex>, g': Arcs,
                     links': Links)
    requires k < |bodies| && CallsLinked(vs, g, links, ren, vs', g', links')
    requires Replaces(bodies[k], functions, functionMap, ren, vs) && BodiesOk(functions, vs, g, bodies)
    ensures BodiesOk(functions, vs', g', bodies[k := Relinked(bodies[k], functions, functionMap, ren)])
  {
    hide *;
    SameLength(functions, vs, g, bodies);
    LinkedMeans(vs, g, links, ren, vs', g', links');
    var b, b' := bodies[k], Relinked(bodies[k], functions, functionMap, ren);
    var bodies' := bodies[k := b'];
    BodyAt(functions, vs, g, bodies, k);
    BodyParts(b, functions[k], functions, g);
    KeysAreOwn(b, functions, functionMap, ren, vs);
    BodyRelinked(b, functions[k], functions, functionMap, ren, vs, g, g');
    RelinkedIs(b, functions, functionMap, ren);
    forall w | w in Now(b') ensures w in vs' && (w in Now(b) || w !in vs) {
      NowRelinked(b, functions, functionMap, ren, vs, w);
    }
    forall m | 0 <= m < |bodies'| ensures BodyOk(bodies'[m], functions[m], functions, g') && Now(bodies'[m]) <= vs' {
      if m != k {
        BodyAt(functions, vs, g, bodies, m);
        BodiesApart(functions, vs, g, bodies, m, k);
        BodyElsewhere(bodies[m], functions[m], functions, ren, g, g');
      }
    }
    forall m, n | 0 <= m < n < |bodies'| ensures Now(bodies'[m]) !! Now(bodies'[n]) {
      BodyAt(functions, vs, g, bodies, m);
      BodyAt(functions, vs, g, bodies, n);
      BodiesApart(functions, vs, g, bodies, m, n);
    }
    forall e | e in g' && !e.kind.FunctionCall? && !e.kind.Return? ensures FromSome(bodies', e) {
      var m := SomeBody(functions, vs, g, bodies, e);
      FromThis(bodies', m, e);
    }
    TheyAreOk(functions, vs', g', bodies');
  }

  lemma LinkedMeans(vs: set<Vertex>, g: Arcs, links: Links, ren: map<Vertex, Vertex>, vs': set<Vertex>, g': Arcs,
                    links': Links)
    requires CallsLinked(vs, g, links, ren, vs', g', links')
    ensures vs' == vs - ren.Keys + ren.Values && Moved(g, g', ren)
    ensures forall e | e in g' && !e.kind.FunctionCall? && !e.kind.Return? :: e in g
  {
  }

  lemma CodeRelinked(bodies: seq<Body>, k: nat, functions: seq<Function>, functionMap: map<string, Function>,
                     ren: map<Vertex, Vertex>)
    requires k < |bodies|
    ensures CodeOf(bodies[k := Relinked(bodies[k], functions, functionMap, ren)]) ==
            CodeOf(bodies)[k := LinkedListing(CodeOf(bodies)[k], functions, functionMap)]
  {
    hide *;
    RelinkedIs(bodies[k], functions, functionMap, ren);
    CodeIs(bodies);
    var bodies' := bodies[k := Relinked(bodies[k], functions, functionMap, ren)];
    CodeIs(bodies');
    forall m | 0 <= m < |bodies|
      ensures CodeOf(bodies)[m] == ListingOf(bodies[m]) && CodeOf(bodies')[m] == ListingOf(bodies'[m])
    {
      CodeAt(bodies, m);
      CodeAt(bodies', m);
    }
  }

  lemma CodeAt(bodies: seq<Body>, k: nat)
    requires k < |bodies|
    ensures |CodeOf(bodies)| == |bodies| && CodeOf(bodies)[k] == ListingOf(bodies[k])
  {
  }
}
