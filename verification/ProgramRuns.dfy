/** What the graph of a linked program says about the runs of its statement lists. */
module ProgramRuns {
  import opened Walks
  import opened Graphs
  import opened Programs
  import opened Construction
  import opened Resolution
  import opened Creation
  import opened Contraction
  import opened CfgAlgs
  import opened ControlFlowGraphs
  import opened Meaning
  import opened Entries
  import opened Reachability
  import opened Linking
  import opened LinkedPrograms
  import opened Executions

  /** How a function came about: the record of its creation, the vertices it had then, what linking has replaced since,
      and the functions that it calls at the positions of its list. */
  datatype Body = Body(r: Record, vs: set<Vertex>, ren: map<Vertex, Vertex>, calls: map<nat, nat>)

  /** The vertices of a function now. */
  ghost function Now(b: Body): set<Vertex>
  {
    set v | v in b.vs :: Ren(b.ren, v)
  }

  /** Those of its vertices that its graph lists. */
  ghost function Listed(b: Body): set<Vertex>
  {
    set v | v in Elements(b.r.c.at) && v !in b.r.gone :: Ren(b.ren, v)
  }

  /** The positions of the calls that were replaced, with the functions that these call. */
  ghost predicate CallsAre(b: Body, functions: seq<Function>)
  {
    && (forall p | p in b.calls ::
          && p < |b.r.c.at| && b.r.c.at[p] in b.ren && b.calls[p] < |functions|
          && b.ren[b.r.c.at[p]].statement == CallResolved(functions[b.calls[p]]))
    && (forall p: nat | p < |b.r.c.at| && b.r.c.at[p] in b.ren :: p in b.calls)
  }

  ghost predicate RenOk(b: Body)
  {
    && OneToOne(b.ren, b.vs) && b.ren.Keys <= Elements(b.r.c.at) * b.vs
    && forall v | v in b.ren :: v.statement.CallUnresolved? && b.ren[v].statement.CallResolved?
  }

  ghost predicate CreatedBody(b: Body, f: Function)
  {
    && |b.r.c.at| == |b.r.c.prog| + 2 && f.entry == b.r.c.at[0] && f.exit == b.r.c.at[|b.r.c.at| - 1]
    && NoResolvedCalls(b.r.c.prog)
    && EndsIn(b.vs, b.r.final)
    && Elements(b.r.c.at) - b.r.gone <= b.vs <= Elements(b.r.orig) + Elements(b.r.c.at)
    && Created(b.r)
  }

  ghost predicate BodyOk(b: Body, f: Function, functions: seq<Function>, g: Arcs)
  {
    CreatedBody(b, f) && RenOk(b) && CallsAre(b, functions) && Moved(b.r.final, g, b.ren)
  }

  ghost predicate FromSome(bodies: seq<Body>, e: Edge)
  {
    exists k :: 0 <= k < |bodies| && e in bodies[k].r.final
  }

  /** The graph of the program consists of the graphs of its functions and the edges of the linked calls. */
  ghost predicate BodiesOk(functions: seq<Function>, vs: set<Vertex>, g: Arcs, bodies: seq<Body>)
  {
    && |bodies| == |functions|
    && (forall k | 0 <= k < |bodies| :: BodyOk(bodies[k], functions[k], functions, g) && Now(bodies[k]) <= vs)
    && (forall k, m | 0 <= k < m < |bodies| :: Now(bodies[k]) !! Now(bodies[m]))
    && (forall e | e in g && !e.kind.FunctionCall? && !e.kind.Return? :: FromSome(bodies, e))
  }

  ghost function ListingOf(b: Body): Listing
  {
    Listing(b.r.c.prog, b.calls)
  }

  ghost function CodeOf(bodies: seq<Body>): Code
  {
    seq(|bodies|, k requires 0 <= k < |bodies| => ListingOf(bodies[k]))
  }

  // ----- Reading it -----

  lemma BodyAt(functions: seq<Function>, vs: set<Vertex>, g: Arcs, bodies: seq<Body>, k: nat)
    requires BodiesOk(functions, vs, g, bodies) && k < |bodies|
    ensures |bodies| == |functions| && BodyOk(bodies[k], functions[k], functions, g) && Now(bodies[k]) <= vs
  {
    hide BodyOk;
  }

  lemma BodyParts(b: Body, f: Function, functions: seq<Function>, g: Arcs)
    requires BodyOk(b, f, functions, g)
    ensures Created(b.r) && CreatedBody(b, f) && RenOk(b) && CallsAre(b, functions) && Moved(b.r.final, g, b.ren)
    ensures |b.r.c.at| == |b.r.c.prog| + 2 && f.entry == b.r.c.at[0] && f.exit == b.r.c.at[|b.r.c.at| - 1]
    ensures NoResolvedCalls(b.r.c.prog)
    ensures EndsIn(b.vs, b.r.final)
    ensures Elements(b.r.c.at) - b.r.gone <= b.vs <= Elements(b.r.orig) + Elements(b.r.c.at)
  {
    hide Created, RenOk, CallsAre, Moved;
  }

  lemma CodeIs(bodies: seq<Body>)
    ensures |CodeOf(bodies)| == |bodies|
    ensures forall k | 0 <= k < |bodies| ::
              CodeOf(bodies)[k].prog == bodies[k].r.c.prog && CodeOf(bodies)[k].calls == bodies[k].calls
  {
  }

  lemma NowMeans(b: Body, v: Vertex)
    ensures v in b.vs ==> Ren(b.ren, v) in Now(b)
  {
  }

  lemma NowFrom(b: Body, w: Vertex) returns (v: Vertex)
    requires w in Now(b)
    ensures v in b.vs && Ren(b.ren, v) == w
  {
    v :| v in b.vs && Ren(b.ren, v) == w;
  }

  /** The statement of a call is still in its place, and stays in the graph. */
  lemma CallHolds(b: Body, functions: seq<Function>, p: nat)
    requires RenOk(b) && CallsAre(b, functions) && p in b.calls
    ensures p < |b.r.c.at| && b.r.c.at[p] in b.vs && b.r.c.at[p] in b.ren && b.r.c.at[p].statement.CallUnresolved?
    ensures b.calls[p] < |functions|
    ensures Ren(b.ren, b.r.c.at[p]).statement == CallResolved(functions[b.calls[p]])
  {
  }

  lemma CallStays(r: Record, v: Vertex)
    requires v.statement.CallUnresolved? && Created(r)
    ensures v !in r.gone
  {
    hide *;
    CreatedDrawn(r);
    CallNeverRedundant(r.proxied, Elements(r.c.at), v);
  }

  lemma CodeIsOk(functions: seq<Function>, vs: set<Vertex>, g: Arcs, bodies: seq<Body>)
    requires BodiesOk(functions, vs, g, bodies)
    ensures CodeOk(CodeOf(bodies))
  {
    hide *;
    CodeIs(bodies);
    var code := CodeOf(bodies);
    forall k | 0 <= k < |code| ensures ListingOk(code[k], |code|) {
      BodyAt(functions, vs, g, bodies, k);
      BodyParts(bodies[k], functions[k], functions, g);
      forall p | p in code[k].calls
        ensures IsCallAt(code[k].prog, p) && code[k].calls[p] < |code|
      {
        CallHolds(bodies[k], functions, p);
        CallAtPosition(bodies[k].r, p);
        HoldsCallMeans(bodies[k].r.c, p);
      }
      ListingIsOk(code[k], |code|);
    }
    AllListingsOk(code);
  }

  /** At this position of the list is a call, which its vertex still stands for. */
  ghost predicate HoldsCall(c: Building, p: nat)
  {
    IsCallAt(c.prog, p) && p < |c.at| && c.prog[p - 1] == c.at[p].statement
  }

  lemma HoldsCallMeans(c: Building, p: nat)
    ensures HoldsCall(c, p) <==> IsCallAt(c.prog, p) && p < |c.at| && c.prog[p - 1] == c.at[p].statement
  {
  }

  lemma CallAtPosition(r: Record, p: nat)
    requires p < |r.c.at| && r.c.at[p].statement.CallUnresolved? && Created(r)
    ensures HoldsCall(r.c, p)
  {
    hide *;
    CallPlace(r, p);
    ReplacedJump(r, p);
    CallNotResolved(r.c.prog, p, r.c.at[p].statement);
    HoldsCallMeans(r.c, p);
  }

  lemma CallNotResolved(prog: Program, p: nat, t: Statement)
    requires t.CallUnresolved? && 0 < p <= |prog| && (prog[p - 1] == t || t == Resolved(prog[p - 1]))
    ensures prog[p - 1] == t && IsCallAt(prog, p)
  {
  }

  lemma ListingIsOk(l: Listing, n: nat)
    requires forall p | p in l.calls :: IsCallAt(l.prog, p) && l.calls[p] < n
    ensures ListingOk(l, n)
  {
  }

  lemma AllListingsOk(code: Code)
    requires forall k | 0 <= k < |code| :: ListingOk(code[k], |code|)
    ensures CodeOk(code)
  {
  }

  // ----- The whole program -----

  datatype Whole = Whole(functions: seq<Function>, vs: set<Vertex>, g: Arcs, links: Links, bodies: seq<Body>)

  ghost predicate WholeOk(w: Whole)
  {
    ProgramLinked(Elements(w.functions), w.vs, w.g, w.links) && BodiesOk(w.functions, w.vs, w.g, w.bodies)
  }

  lemma WholeParts(w: Whole)
    requires WholeOk(w)
    ensures ProgramLinked(Elements(w.functions), w.vs, w.g, w.links) && BodiesOk(w.functions, w.vs, w.g, w.bodies)
  {
  }

  /** The vertex that stands at a place now. */
  ghost predicate IsThere(w: Whole, x: Place, v: Vertex)
  {
    && x.fn < |w.bodies|
    && var b := w.bodies[x.fn];
       x.pos < |b.r.c.at| && b.r.c.at[x.pos] !in b.r.gone && b.r.c.at[x.pos] in b.vs && v == Ren(b.ren, b.r.c.at[x.pos])
  }

  /** What can be reached from a place by stepping over calls and entering them. */
  ghost predicate Gets(w: Whole, x: Place, y: Place)
  {
    Reaches(Over(CodeOf(w.bodies), Called(CodeOf(w.bodies))), x, y)
  }

  lemma PlaceOfVertex(w: Whole, k: nat, p: nat)
    requires WholeOk(w) && k < |w.bodies| && p < |w.bodies[k].r.c.at| && w.bodies[k].r.c.at[p] !in w.bodies[k].r.gone
    ensures IsThere(w, Place(k, p), Ren(w.bodies[k].ren, w.bodies[k].r.c.at[p]))
  {
    hide *;
    WholeParts(w);
    BodyAt(w.functions, w.vs, w.g, w.bodies, k);
    BodyParts(w.bodies[k], w.functions[k], w.functions, w.g);
    var b := w.bodies[k];
    ElementsAre(b.r.c.at);
    assert b.r.c.at[p] in b.r.c.at;
    assert b.r.c.at[p] in b.vs;
    ThereMeans(w, Place(k, p), Ren(b.ren, b.r.c.at[p]));
  }

  lemma ThereMeans(w: Whole, x: Place, v: Vertex)
    ensures IsThere(w, x, v) <==>
            && x.fn < |w.bodies|
            && var b := w.bodies[x.fn];
               && x.pos < |b.r.c.at| && b.r.c.at[x.pos] !in b.r.gone && b.r.c.at[x.pos] in b.vs
               && v == Ren(b.ren, b.r.c.at[x.pos])
  {
  }

  lemma EntryThere(w: Whole, k: nat)
    requires WholeOk(w) && k < |w.functions|
    ensures IsThere(w, Place(k, 0), w.functions[k].entry)
  {
    hide *;
    WholeParts(w);
    SameLength(w.functions, w.vs, w.g, w.bodies);
    BodyAt(w.functions, w.vs, w.g, w.bodies, k);
    BodyParts(w.bodies[k], w.functions[k], w.functions, w.g);
    EntryOnlySelfEdge(w.bodies[k].r);
    EntryStatement(w.bodies[k].r);
    EntryKept(w.bodies[k], w.bodies[k].r.c.at[0]);
    PlaceOfVertex(w, k, 0);
  }

  lemma SameLength(functions: seq<Function>, vs: set<Vertex>, g: Arcs, bodies: seq<Body>)
    requires BodiesOk(functions, vs, g, bodies)
    ensures |bodies| == |functions|
  {
    hide BodyOk;
  }

  lemma EntryStatement(r: Record)
    requires r.c.at != [] && Created(r)
    ensures !r.c.at[0].statement.CallUnresolved?
  {
    hide Drawn, WellMarked, ProxiesOk, Contracted, OneWayIn, DegreesKept, RedundantIn;
  }

  lemma EntryKept(b: Body, v: Vertex)
    requires RenOk(b) && !v.statement.CallUnresolved?
    ensures Ren(b.ren, v) == v
  {
  }

  // ----- From the graph to the lists -----

  /** An edge that is no call belongs to the function of its source. */
  lemma EdgeOfBody(w: Whole, x: Place, e: Edge)
    requires WholeOk(w) && e in w.g && Possible(e) && !e.kind.FunctionCall? && IsThere(w, x, w.g[e].src)
    ensures x.fn < |w.bodies| && x.pos < |w.bodies[x.fn].r.c.at|
    ensures e in w.bodies[x.fn].r.final && w.bodies[x.fn].r.final[e].src == w.bodies[x.fn].r.c.at[x.pos]
    ensures w.g[e].dst == Ren(w.bodies[x.fn].ren, w.bodies[x.fn].r.final[e].dst)
  {
    hide *;
    WholeParts(w);
    PossibleMeans(e);
    ThereMeans(w, x, w.g[e].src);
    var b := w.bodies[x.fn];
    var m := SomeBody(w.functions, w.vs, w.g, w.bodies, e);
    BodyAt(w.functions, w.vs, w.g, w.bodies, m);
    BodyParts(w.bodies[m], w.functions[m], w.functions, w.g);
    MovedEdge(w.bodies[m], w.g, e);
    NowMeans(b, b.r.c.at[x.pos]);
    SameBody(w.functions, w.vs, w.g, w.bodies, m, x.fn, w.g[e].src);
    RenOkMeans(b);
    RenInjective(b.ren, b.vs, b.r.final[e].src, b.r.c.at[x.pos]);
  }

  lemma PossibleMeans(e: Edge)
    ensures Possible(e) <==> !e.kind.Impossible? && !e.kind.Return? && !e.kind.FunctionCallBypass?
  {
  }

  lemma SomeBody(functions: seq<Function>, vs: set<Vertex>, g: Arcs, bodies: seq<Body>, e: Edge) returns (k: nat)
    requires BodiesOk(functions, vs, g, bodies) && e in g && !e.kind.FunctionCall? && !e.kind.Return?
    ensures k < |bodies| && e in bodies[k].r.final
  {
    hide BodyOk;
    assert FromSome(bodies, e);
    k :| 0 <= k < |bodies| && e in bodies[k].r.final;
  }

  lemma MovedEdge(b: Body, g: Arcs, e: Edge)
    requires Moved(b.r.final, g, b.ren) && EndsIn(b.vs, b.r.final) && e in b.r.final
    ensures e in g && g[e] == Arc(Ren(b.ren, b.r.final[e].src), Ren(b.ren, b.r.final[e].dst))
    ensures b.r.final[e].src in b.vs && b.r.final[e].dst in b.vs && g[e].src in Now(b) && g[e].dst in Now(b)
  {
  }

  lemma SameBody(functions: seq<Function>, vs: set<Vertex>, g: Arcs, bodies: seq<Body>, k: nat, m: nat, v: Vertex)
    requires BodiesOk(functions, vs, g, bodies) && k < |bodies| && m < |bodies|
    requires v in Now(bodies[k]) && v in Now(bodies[m])
    ensures k == m
  {
    hide BodyOk, Now;
  }

  lemma RenOkMeans(b: Body)
    requires RenOk(b)
    ensures OneToOne(b.ren, b.vs) && b.ren.Keys <= Elements(b.r.c.at) * b.vs
    ensures forall v | v in b.ren :: v.statement.CallUnresolved? && b.ren[v].statement.CallResolved?
  {
  }

  /** An edge of a created graph leads from a position to where a run gets, with the way `step` first. */
  lemma EdgeRuns(r: Record, p: nat, e: Edge) returns (t: nat, step: Slot)
    requires e in r.final && Possible(e) && p < |r.c.at| && r.final[e].src == r.c.at[p] && Created(r)
    ensures t < |r.c.at| && r.c.at[t] == r.final[e].dst && r.final[e].dst !in r.gone && Reaches(Machine(r.c.prog), p, t)
    ensures step in Machine(r.c.prog) && Machine(r.c.prog)[step].src == p
    ensures Reaches(Machine(r.c.prog), Machine(r.c.prog)[step].dst, t)
  {
    hide *;
    PossibleIsSolid(r.final, e);
    OneEdge(SolidArcs(r.final), e);
    var run;
    run, t := WalksAreRuns(r, p, [e], r.final[e].dst);
    RunReachesIn(Machine(r.c.prog), p, run, t);
    FinalOffGone(r, e);
    RunIsThere(r.c, e, run, PositionsOf(r.c, r.gone));
    step := FirstStepOf(Machine(r.c.prog), p, run, t);
  }

  lemma RunIsThere(c: Building, e: Edge, run: seq<Slot>, gone: set<nat>)
    requires Shows(c, [e], run, gone)
    ensures run != []
  {
    assert [e][0] in [e];
  }

  lemma FirstStepOf<V, E>(g: map<E, Arc<V>>, s: V, run: seq<E>, t: V) returns (step: E)
    requires run != [] && IsWalk(g, s, run, t)
    ensures step in g && g[step].src == s && Reaches(g, g[step].dst, t)
  {
    step := run[0];
    RunReachesIn(g, g[step].dst, run[1..], t);
  }

  lemma OneEdge(g: Arcs, e: Edge)
    requires e in g
    ensures IsWalk(g, g[e].src, [e], g[e].dst)
  {
    assert [e][1..] == [];
  }

  lemma RunReachesIn<V, E>(g: map<E, Arc<V>>, s: V, p: seq<E>, t: V)
    requires IsWalk(g, s, p, t)
    ensures Reaches(g, s, t)
  {
  }

  lemma {:induction false} MachineGoes(code: Code, k: nat, p: nat, run: seq<Slot>, t: nat)
    requires k < |code| && IsWalk(Machine(code[k].prog), p, run, t)
    ensures Reaches(Over(code, Called(code)), Place(k, p), Place(k, t))
    decreases |run|
  {
    hide Over, Called, Reaches, Ways;
    if run == [] {
      ReachesRefl(Over(code, Called(code)), Place(k, p));
    } else {
      var s := run[0];
      var next := Machine(code[k].prog)[s].dst;
      SlotGoes(code, k, s);
      MachineGoes(code, k, next, run[1..], t);
      ReachesRefl(Over(code, Called(code)), Place(k, p));
      ReachesStep(Over(code, Called(code)), Place(k, p), Go(Place(k, p), s.way));
      ReachesTrans(Over(code, Called(code)), Place(k, p), Place(k, next), Place(k, t));
    }
  }

  lemma SlotGoes(code: Code, k: nat, s: Slot)
    requires k < |code| && s in Machine(code[k].prog)
    ensures var m := Go(Place(k, s.pos), s.way);
            m in Over(code, Called(code))
            && Over(code, Called(code))[m] == Arc(Place(k, s.pos), Place(k, Machine(code[k].prog)[s].dst))
  {
    hide Ways, Called, Gos, Over;
    var x, y := Place(k, s.pos), Place(k, Machine(code[k].prog)[s].dst);
    CalledThere(code, x);
    GosAre(code, Called(code), x, s.way, y);
    OverParts(code, Called(code));
  }

  lemma EdgeGoes(w: Whole, x: Place, e: Edge) returns (y: Place)
    requires WholeOk(w) && e in w.g && Possible(e) && !e.kind.FunctionCall? && IsThere(w, x, w.g[e].src)
    ensures IsThere(w, y, w.g[e].dst) && Gets(w, x, y)
  {
    hide *;
    WholeParts(w);
    EdgeOfBody(w, x, e);
    var b := w.bodies[x.fn];
    BodyAt(w.functions, w.vs, w.g, w.bodies, x.fn);
    BodyParts(b, w.functions[x.fn], w.functions, w.g);
    var t, step := EdgeRuns(b.r, x.pos, e);
    y := Place(x.fn, t);
    PlaceOfVertex(w, x.fn, t);
    CodeIs(w.bodies);
    var run := WalkOfRun(Machine(b.r.c.prog), x.pos, t);
    MachineGoes(CodeOf(w.bodies), x.fn, x.pos, run, t);
    ItGets(w, x, y);
  }

  lemma WalkOfRun<V, E>(g: map<E, Arc<V>>, s: V, t: V) returns (p: seq<E>)
    requires Reaches(g, s, t)
    ensures IsWalk(g, s, p, t)
  {
    p :| IsWalk(g, s, p, t);
  }

  lemma ItGets(w: Whole, x: Place, y: Place)
    ensures Gets(w, x, y) <==> Reaches(Over(CodeOf(w.bodies), Called(CodeOf(w.bodies))), x, y)
  {
  }

  /** A call edge leads from a call to the ENTRY of its function. */
  lemma CallEdgeGoes(w: Whole, x: Place, e: Edge) returns (y: Place)
    requires WholeOk(w) && e in w.g && e.kind.FunctionCall? && IsThere(w, x, w.g[e].src)
    ensures IsThere(w, y, w.g[e].dst) && Gets(w, x, y)
  {
    hide *;
    WholeParts(w);
    ThereMeans(w, x, w.g[e].src);
    var k, b := x.fn, w.bodies[x.fn];
    BodyAt(w.functions, w.vs, w.g, w.bodies, k);
    BodyParts(b, w.functions[k], w.functions, w.g);
    CallEdgeMeans(Elements(w.functions), w.vs, w.g, w.links, e);
    NeverResolved(b.r, x.pos);
    RenStatement(b, b.r.c.at[x.pos]);
    CallRecorded(b, w.functions, x.pos);
    var h := b.calls[x.pos];
    CallHolds(b, w.functions, x.pos);
    y := Place(h, 0);
    EntryThere(w, h);
    EnterGets(w, x);
  }

  lemma CallEdgeMeans(fs: set<Function>, vs: set<Vertex>, g: Arcs, links: Links, e: Edge)
    requires ProgramLinked(fs, vs, g, links) && e in g && e.kind.FunctionCall?
    ensures g[e].src.statement.CallResolved? && g[e].dst == g[e].src.statement.target.entry
  {
    hide FunctionsOk, EntriesOk, UnresolvedOk, EndsIn;
    assert CallLinked(g, links, e.kind.call);
  }

  lemma NeverResolved(r: Record, p: nat)
    requires p < |r.c.at| && NoResolvedCalls(r.c.prog) && Created(r)
    ensures !r.c.at[p].statement.CallResolved?
  {
    hide *;
    ElementsAre(r.c.at);
    assert r.c.at[p] in r.c.at;
    NoneResolved(r, r.c.at[p]);
  }

  lemma RenStatement(b: Body, v: Vertex)
    ensures Ren(b.ren, v).statement.CallResolved? && !v.statement.CallResolved? ==>
              v in b.ren && Ren(b.ren, v) == b.ren[v]
  {
  }

  lemma CallRecorded(b: Body, functions: seq<Function>, p: nat)
    requires CallsAre(b, functions) && p < |b.r.c.at| && b.r.c.at[p] in b.ren
    ensures p in b.calls
  {
  }

  lemma EnterGets(w: Whole, x: Place)
    requires WholeOk(w) && x.fn < |w.bodies| && x.pos in w.bodies[x.fn].calls
    ensures Gets(w, x, Place(w.bodies[x.fn].calls[x.pos], 0))
  {
    hide *;
    WholeParts(w);
    CodeIs(w.bodies);
    CodeIsOk(w.functions, w.vs, w.g, w.bodies);
    var code := CodeOf(w.bodies);
    ItIsCall(code, x);
    EntersAre(code, x);
    OverParts(code, Called(code));
    SubgraphHas(Enters(code), Over(code, Called(code)), Enter(x));
    ReachesRefl(Over(code, Called(code)), x);
    ReachesStep(Over(code, Called(code)), x, Enter(x));
    ItGets(w, x, Place(code[x.fn].calls[x.pos], 0));
  }

  lemma ItIsCall(code: Code, x: Place)
    ensures IsCall(code, x) <==> x.fn < |code| && x.pos in code[x.fn].calls
  {
  }

  /** Whatever a walk over possible edges gets to, the lists get to by stepping over calls and entering them. */
  lemma {:induction false} WalkGets(w: Whole, x: Place, v: Vertex, q: seq<Edge>, u: Vertex) returns (y: Place)
    requires WholeOk(w) && IsThere(w, x, v) && IsWalk(PossibleArcs(w.g), v, q, u)
    ensures IsThere(w, y, u) && Gets(w, x, y)
    decreases |q|
  {
    hide WholeOk, IsThere, Gets, Possible;
    if q == [] {
      y := x;
      GetsRefl(w, x);
    } else {
      var e := q[0];
      var z;
      if e.kind.FunctionCall? {
        z := CallEdgeGoes(w, x, e);
      } else {
        z := EdgeGoes(w, x, e);
      }
      y := WalkGets(w, z, w.g[e].dst, q[1..], u);
      GetsTrans(w, x, z, y);
    }
  }

  lemma GetsRefl(w: Whole, x: Place)
    ensures Gets(w, x, x)
  {
    hide Over, Called;
    ReachesRefl(Over(CodeOf(w.bodies), Called(CodeOf(w.bodies))), x);
  }

  lemma GetsTrans(w: Whole, x: Place, y: Place, z: Place)
    requires Gets(w, x, y) && Gets(w, y, z)
    ensures Gets(w, x, z)
  {
    hide Over, Called, Reaches;
    ReachesTrans(Over(CodeOf(w.bodies), Called(CodeOf(w.bodies))), x, y, z);
  }

  /** No two places share a vertex. */
  lemma PlaceUnique(w: Whole, x: Place, y: Place, v: Vertex)
    requires WholeOk(w) && IsThere(w, x, v) && IsThere(w, y, v)
    ensures x == y
  {
    hide *;
    WholeParts(w);
    ThereMeans(w, x, v);
    ThereMeans(w, y, v);
    var b := w.bodies[x.fn];
    NowMeans(b, b.r.c.at[x.pos]);
    NowMeans(w.bodies[y.fn], w.bodies[y.fn].r.c.at[y.pos]);
    SameBody(w.functions, w.vs, w.g, w.bodies, x.fn, y.fn, v);
    BodyAt(w.functions, w.vs, w.g, w.bodies, x.fn);
    BodyParts(b, w.functions[x.fn], w.functions, w.g);
    RenOkMeans(b);
    RenInjective(b.ren, b.vs, b.r.c.at[x.pos], b.r.c.at[y.pos]);
    CreatedDrawn(b.r);
    DrawnLinked(b.r.c, b.r.orig, b.r.drawn, b.r.entrySelf, b.r.exitSelf);
    PlacesDiffer(b.r.c, x.pos, y.pos);
  }

  // ----- From the lists to the graph -----

  /** The vertex at position `q` of the function can be reached from `s`, and a run leads on from there to the place. */
  ghost predicate Behind(w: Whole, s: Vertex, x: Place, q: nat)
  {
    && x.fn < |w.bodies|
    && var b := w.bodies[x.fn];
       && q < |b.r.c.at| && b.r.c.at[q] !in b.r.gone
       && Reaches(PossibleArcs(w.g), s, Ren(b.ren, b.r.c.at[q])) && Reaches(Machine(b.r.c.prog), q, x.pos)
  }

  lemma BehindMeans(w: Whole, s: Vertex, x: Place, q: nat)
    ensures Behind(w, s, x, q) <==>
            && x.fn < |w.bodies|
            && var b := w.bodies[x.fn];
               && q < |b.r.c.at| && b.r.c.at[q] !in b.r.gone
               && Reaches(PossibleArcs(w.g), s, Ren(b.ren, b.r.c.at[q])) && Reaches(Machine(b.r.c.prog), q, x.pos)
  {
  }

  lemma BehindOn(w: Whole, s: Vertex, x: Place, q: nat, j: nat, y: Place)
    requires Behind(w, s, x, q) && IsWay(CodeOf(w.bodies), x, j, y)
    ensures Behind(w, s, y, q)
  {
    hide Reaches, Ways, CodeOf;
    CodeIs(w.bodies);
    ReachesStep(Machine(w.bodies[x.fn].r.c.prog), q, Slot(x.pos, j));
  }

  lemma BehindEntry(w: Whole, s: Vertex, k: nat)
    requires WholeOk(w) && k < |w.functions| && Reaches(PossibleArcs(w.g), s, w.functions[k].entry)
    ensures Behind(w, s, Place(k, 0), 0)
  {
    hide *;
    EntryThere(w, k);
    ThereMeans(w, Place(k, 0), w.functions[k].entry);
    ReachesRefl(Machine(w.bodies[k].r.c.prog), 0);
    BehindMeans(w, s, Place(k, 0), 0);
  }

  /** A walk within a created graph is still there. */
  lemma {:induction false} MovedWalk(g: Arcs, h: Arcs, ren: map<Vertex, Vertex>, s: Vertex, p: seq<Edge>, t: Vertex)
    requires Moved(g, h, ren) && IsWalk(SolidArcs(g), s, p, t)
    requires forall e | e in SolidArcs(g) :: Possible(e)
    ensures IsWalk(PossibleArcs(h), Ren(ren, s), p, Ren(ren, t))
  {
    if p != [] {
      MovedWalk(g, h, ren, g[p[0]].dst, p[1..], t);
    }
  }

  lemma SolidIsPossible(r: Record)
    requires Created(r)
    ensures forall e | e in SolidArcs(r.final) :: Possible(e)
  {
    hide *;
    forall e | e in SolidArcs(r.final) ensures Possible(e) {
      SolidAt(r.final, e);
      NewEdgeKinds(r, e);
      PossibleMeans(e);
    }
  }

  lemma SolidAt(g: Arcs, e: Edge)
    requires e in SolidArcs(g)
    ensures e in g && !e.kind.Impossible?
  {
  }

  /** A place whose vertex stays can be reached in the graph. */
  lemma BehindVertex(w: Whole, s: Vertex, x: Place, q: nat)
    requires WholeOk(w) && Behind(w, s, x, q) && x.fn < |w.bodies|
    requires x.pos < |w.bodies[x.fn].r.c.at| ==> w.bodies[x.fn].r.c.at[x.pos] !in w.bodies[x.fn].r.gone
    ensures x.pos < |w.bodies[x.fn].r.c.at|
    ensures Reaches(PossibleArcs(w.g), s, Ren(w.bodies[x.fn].ren, w.bodies[x.fn].r.c.at[x.pos]))
  {
    hide *;
    WholeParts(w);
    BehindMeans(w, s, x, q);
    var k, b := x.fn, w.bodies[x.fn];
    BodyAt(w.functions, w.vs, w.g, w.bodies, k);
    BodyParts(b, w.functions[k], w.functions, w.g);
    var run := WalkOfRun(Machine(b.r.c.prog), q, x.pos);
    var p := RunsStay(b.r, q, run, x.pos);
    SolidIsPossible(b.r);
    MovedWalk(b.r.final, w.g, b.ren, b.r.c.at[q], p, b.r.c.at[x.pos]);
    RunReachesIn(PossibleArcs(w.g), Ren(b.ren, b.r.c.at[q]), p, Ren(b.ren, b.r.c.at[x.pos]));
    ReachesTrans(PossibleArcs(w.g), s, Ren(b.ren, b.r.c.at[q]), Ren(b.ren, b.r.c.at[x.pos]));
  }

  /** From a call, the graph leads to the ENTRY of its function. */
  lemma BehindCall(w: Whole, s: Vertex, x: Place, q: nat)
    requires WholeOk(w) && Behind(w, s, x, q) && IsCall(CodeOf(w.bodies), x)
    ensures x.fn < |w.bodies| && x.pos in w.bodies[x.fn].calls
    ensures w.bodies[x.fn].calls[x.pos] < |w.functions|
    ensures Reaches(PossibleArcs(w.g), s, w.functions[w.bodies[x.fn].calls[x.pos]].entry)
  {
    hide *;
    WholeParts(w);
    ItIsCall(CodeOf(w.bodies), x);
    CodeIs(w.bodies);
    var k, b := x.fn, w.bodies[x.fn];
    BodyAt(w.functions, w.vs, w.g, w.bodies, k);
    BodyParts(b, w.functions[k], w.functions, w.g);
    CallHolds(b, w.functions, x.pos);
    CallStays(b.r, b.r.c.at[x.pos]);
    BehindVertex(w, s, x, q);
    var c := Ren(b.ren, b.r.c.at[x.pos]);
    NowMeans(b, b.r.c.at[x.pos]);
    var e := CallEdgeOf(Elements(w.functions), w.vs, w.g, w.links, c);
    ReachesStep(PossibleArcs(w.g), s, e);
  }

  lemma CallEdgeOf(fs: set<Function>, vs: set<Vertex>, g: Arcs, links: Links, c: Vertex) returns (e: Edge)
    requires ProgramLinked(fs, vs, g, links) && c in vs && c.statement.CallResolved?
    ensures e in PossibleArcs(g) && PossibleArcs(g)[e] == Arc(c, c.statement.target.entry)
  {
    hide FunctionsOk, EntriesOk, UnresolvedOk, EndsIn;
    assert c in links.callEdge && CallLinked(g, links, c);
    e := links.callEdge[c];
  }

  /** Whatever the lists get to by stepping over calls and entering them, the graph leads there. */
  lemma {:induction false} GetsBehind(w: Whole, i: nat, p: seq<Move>, x: Place) returns (q: nat)
    requires WholeOk(w) && i < |w.functions|
    requires IsWalk(Over(CodeOf(w.bodies), Called(CodeOf(w.bodies))), Place(i, 0), p, x)
    ensures Behind(w, w.functions[i].entry, x, q)
    decreases |p|
  {
    hide WholeOk, Over, Called, CodeOf, Behind, Reaches, IsCall;
    var code, s := CodeOf(w.bodies), w.functions[i].entry;
    if p == [] {
      ReachesRefl(PossibleArcs(w.g), s);
      BehindEntry(w, s, i);
      q := 0;
    } else {
      var u := WalkSplitLast(Over(code, Called(code)), Place(i, 0), p, x);
      q := GetsBehind(w, i, p[..|p| - 1], u);
      var m := p[|p| - 1];
      OverParts(code, Called(code));
      if m in Gos(code, Called(code)) {
        GoMeans(code, Called(code), m);
        BehindOn(w, s, u, q, m.way, x);
      } else {
        EnterMeans(code, m);
        BehindCall(w, s, u, q);
        CodeIs(w.bodies);
        BehindEntry(w, s, w.bodies[u.fn].calls[u.pos]);
        q := 0;
      }
    }
  }

  // ----- Both ways -----

  /** In the graph, the ENTRY of one function leads to that of another over edges that a running program might take. */
  ghost predicate Leads(w: Whole, i: nat, j: nat)
  {
    i < |w.functions| && j < |w.functions| && Reaches(PossibleArcs(w.g), w.functions[i].entry, w.functions[j].entry)
  }

  lemma LeadsMeans(w: Whole, i: nat, j: nat)
    ensures Leads(w, i, j) <==>
            && i < |w.functions| && j < |w.functions|
            && Reaches(PossibleArcs(w.g), w.functions[i].entry, w.functions[j].entry)
  {
  }

  /** The graph leads from one function to another exactly if in the lists one can get there by stepping over calls and
      entering them. */
  lemma GraphMeansLists(w: Whole, i: nat, j: nat)
    requires i < |w.functions| && j < |w.functions| && WholeOk(w)
    ensures Leads(w, i, j) <==> Gets(w, Place(i, 0), Place(j, 0))
  {
    hide *;
    var s, t := w.functions[i].entry, w.functions[j].entry;
    EntryThere(w, i);
    EntryThere(w, j);
    LeadsMeans(w, i, j);
    if Leads(w, i, j) {
      var q := WalkOf(PossibleArcs(w.g), s, t);
      var y := WalkGets(w, Place(i, 0), s, q, t);
      PlaceUnique(w, y, Place(j, 0), t);
    }
    if Gets(w, Place(i, 0), Place(j, 0)) {
      ItGets(w, Place(i, 0), Place(j, 0));
      var p := WalkOfRun(Over(CodeOf(w.bodies), Called(CodeOf(w.bodies))), Place(i, 0), Place(j, 0));
      var q := GetsBehind(w, i, p, Place(j, 0));
      ThereMeans(w, Place(j, 0), t);
      BehindVertex(w, s, Place(j, 0), q);
    }
  }
}
