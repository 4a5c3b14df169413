/** The list `L: goto L`: contraction drops the marked edge of the loop, whatever the order of the search. */
module TightLoops {
  import opened Walks
  import opened Graphs
  import opened Programs
  import opened Construction
  import opened Resolution
  import opened Creation
  import opened Contraction
  import opened CfgAlgs
  import opened ControlFlowGraphs
  import opened Meaning
  import opened Entries
  import opened Cycles

  predicate IsLoop(prog: Program)
  {
    prog == [Label("L"), GotoUnlinked("L")]
  }

  lemma LoopWays(prog: Program)
    requires IsLoop(prog)
    ensures |prog| == 2 && Ways(prog, 0) == [Way(Fallthrough, 1)]
    ensures Ways(prog, 1) == [Way(Fallthrough, 2)]
    ensures Ways(prog, 2) == [Way(Fallthrough, 1)]
    ensures !IsFlow(prog, 0) && !IsFlow(prog, 1) && IsFlow(prog, 2) && !IsFlow(prog, 3)
  {
    assert Labels(prog, 0) == map["EXIT" := 3];
    assert Labels(prog, 1) == Labels(prog, 0)["L" := 1];
    assert LabelMap(prog) == Labels(prog, 1);
  }

  /** The edge from position `p` to position `q`. */
  ghost predicate LoopEdge(c: Building, e: Edge, p: nat, q: nat)
  {
    && |c.at| == 4 && p < 3 && q < 4 && e in c.g && e in c.slots && c.slots[e] == Slot(p, 0)
    && c.g[e] == Arc(c.at[p], c.at[q])
  }

  ghost predicate LoopEdges(c: Building, e0: Edge, e1: Edge, e2: Edge)
  {
    LoopEdge(c, e0, 0, 1) && LoopEdge(c, e1, 1, 2) && LoopEdge(c, e2, 2, 1)
  }

  lemma LoopEdgeFrom(c: Building, p: nat) returns (e: Edge)
    requires c.Ok() && Complete(c.prog, c.ways) && IsLoop(c.prog) && p < 3
    ensures LoopEdge(c, e, p, if p == 1 then 2 else 1)
  {
    hide Built, Complete, Ways;
    LoopWays(c.prog);
    e := WayOut(c, p, 0);
    var arc := WayArc(c, e);
  }

  lemma WayArc(c: Building, e: Edge) returns (q: nat)
    requires c.Ok() && e in c.g
    ensures e in c.slots && IsSlot(c.prog, c.slots[e]) && q == Ways(c.prog, c.slots[e].pos)[c.slots[e].way].to
    ensures |c.at| == |c.prog| + 2 && q < |c.at| && c.g[e] == Arc(c.at[c.slots[e].pos], c.at[q])
  {
    hide Ways;
    assert IsBuilt(c.prog, c.at, c.g[e], e.kind, c.slots[e], c.ways);
    q := Ways(c.prog, c.slots[e].pos)[c.slots[e].way].to;
  }

  lemma OnlyLoopEdges(c: Building, e: Edge, e0: Edge, e1: Edge, e2: Edge)
    requires c.Ok() && IsLoop(c.prog) && e in c.g
    requires LoopEdges(c, e0, e1, e2)
    ensures e in {e0, e1, e2}
  {
    hide Ways;
    LoopWays(c.prog);
    var q := WayArc(c, e);
    assert c.slots[e].way == 0;
  }

  lemma LoopDrawn(r: Record, e: Edge, e0: Edge, e1: Edge, e2: Edge)
    requires LoopEdges(r.c, e0, e1, e2) && IsLoop(r.c.prog) && e in r.drawn && Created(r)
    ensures e in {e0, e1, e2, r.entrySelf, r.exitSelf}
  {
    hide *;
    CreatedDrawn(r);
    DrawnLinked(r.c, r.orig, r.drawn, r.entrySelf, r.exitSelf);
    if e in r.c.g {
      OnlyLoopEdges(r.c, e, e0, e1, e2);
    } else {
      NoPatch(r.c, r.orig, r.drawn, r.entrySelf, r.exitSelf, e);
    }
  }

  lemma NoPatch(c: Building, orig: seq<Vertex>, g: Arcs, entrySelf: Edge, exitSelf: Edge, e: Edge)
    requires Drawn(c, orig, g, entrySelf, exitSelf) && IsLoop(c.prog) && e in g && e !in c.g
    ensures e in {entrySelf, exitSelf}
  {
    hide Linked, Placed, StatementsAt, LeftWithoutWayIn, IsPatchAt;
    assert e in g.Keys - c.g.Keys;
    NothingToPatch(c.prog, orig, g[e]);
  }

  lemma NothingToPatch(prog: Program, orig: seq<Vertex>, arc: Arc<Vertex>)
    requires IsLoop(prog)
    ensures !IsPatchAt(prog, orig, arc)
  {
    assert prog[0] == Label("L");
  }

  ghost predicate LoopVertices(at: seq<Vertex>)
  {
    && |at| == 4 && at[0].statement == Entry && at[1].statement == Label("L")
    && at[2].statement == Goto && at[3].statement == Exit
    && forall p, q | 0 <= p < q < |at| :: at[p] != at[q]
  }

  lemma LoopStatements(r: Record)
    requires Created(r) && IsLoop(r.c.prog)
    ensures LoopVertices(r.c.at)
  {
    hide *;
    CreatedDrawn(r);
    DrawnLinked(r.c, r.orig, r.drawn, r.entrySelf, r.exitSelf);
    DrawnStatements(r.c, r.orig, r.drawn, r.entrySelf, r.exitSelf);
    LinkedStatements(r.c, r.orig);
  }

  lemma LinkedStatements(c: Building, orig: seq<Vertex>)
    requires Linked(c, orig) && StatementsAt(c.prog, orig) && IsLoop(c.prog) && |c.at| == |orig| == |c.prog| + 2
    requires c.at[0].statement == Entry && c.at[|c.at| - 1].statement == Exit
    ensures LoopVertices(c.at)
  {
    hide Ways, Built, Complete;
    LoopWays(c.prog);
    assert !Resolves(c.prog, 1) && Resolves(c.prog, 2);
    assert c.at[1] == orig[1];
  }

  /** There is no decision vertex, so nothing can be a proxy. */
  lemma LoopProxied(r: Record, e0: Edge, e1: Edge, e2: Edge)
    requires LoopEdges(r.c, e0, e1, e2) && IsLoop(r.c.prog) && Created(r)
    ensures r.proxied == r.drawn
  {
    hide *;
    CreatedDrawn(r);
    LoopStatements(r);
    SelfEdgeIs(r.c, r.orig, r.drawn, r.entrySelf, r.exitSelf);
    ExitSelfEdgeIs(r.c, r.orig, r.drawn, r.entrySelf, r.exitSelf);
    DrawnSubgraph(r.c, r.orig, r.drawn, r.entrySelf, r.exitSelf);
    forall o | o in r.drawn ensures !r.drawn[o].src.statement.IsDecision() {
      LoopDrawn(r, o, e0, e1, e2);
      LoopSources(r, o, e0, e1, e2);
    }
    NoDecisionNoProxy(r);
  }

  lemma ExitSelfEdgeIs(c: Building, orig: seq<Vertex>, g: Arcs, entrySelf: Edge, exitSelf: Edge)
    requires Drawn(c, orig, g, entrySelf, exitSelf)
    ensures |c.at| == |c.prog| + 2 && c.at != [] && exitSelf in g
    ensures g[exitSelf] == Arc(c.at[|c.at| - 1], c.at[|c.at| - 1])
  {
  }

  lemma LoopSources(r: Record, o: Edge, e0: Edge, e1: Edge, e2: Edge)
    requires LoopVertices(r.c.at) && Subgraph(r.c.g, r.drawn)
    requires LoopEdges(r.c, e0, e1, e2)
    requires r.entrySelf in r.drawn && r.drawn[r.entrySelf] == Arc(r.c.at[0], r.c.at[0])
    requires r.exitSelf in r.drawn && r.drawn[r.exitSelf] == Arc(r.c.at[|r.c.at| - 1], r.c.at[|r.c.at| - 1])
    requires o in {e0, e1, e2, r.entrySelf, r.exitSelf}
    ensures o in r.drawn && !r.drawn[o].src.statement.IsDecision() && !r.drawn[o].src.statement.CallResolved?
  {
  }

  lemma NoDecisionNoProxy(r: Record)
    requires Created(r) && forall o | o in r.drawn :: !r.drawn[o].src.statement.IsDecision()
    ensures r.proxied == r.drawn
  {
    hide Drawn, WellMarked, Contracted, OneWayIn, DegreesKept, RedundantIn, IsProxy, ProxyOrNoWayOut;
    forall e | e in r.proxied ensures e in r.drawn {
      if e !in r.drawn {
        ProxyLeadsFromDecision(r.drawn, r.t.path, r.marked, r.proxied[e]);
      }
    }
  }

  /** The edge into the goto is not marked, since nothing else leads there; so the edge out of it is. */
  lemma LoopMarks(r: Record, e0: Edge, e1: Edge, e2: Edge)
    requires LoopEdges(r.c, e0, e1, e2) && IsLoop(r.c.prog) && Created(r)
    ensures e0 !in r.marked && e1 !in r.marked && e2 in r.marked
  {
    hide *;
    LoopStatements(r);
    LoopEnds(r, e0, e1, e2);
    var at := r.c.at;
    var g: Arcs := r.drawn - r.marked;
    ReachesRefl(r.drawn, at[0]);
    ReachesStep(r.drawn, at[0], e0);
    ReachesStep(r.drawn, at[0], e1);
    FirstReached(r, at[1]);
    FirstReached(r, at[2]);
    var x := LastEdge(g, at[0], at[2]);
    LoopDrawn(r, x, e0, e1, e2);
    assert x == e1;
    DrawnAcyclic(r);
    if e2 !in r.marked {
      ReachesRefl(g, at[2]);
      ReachesStep(g, at[2], e2);
      NotAcyclic(g, e1);
    }
    x := LastEdge(g, at[0], at[1]);
    LoopDrawn(r, x, e0, e1, e2);
  }

  lemma LoopEnds(r: Record, e0: Edge, e1: Edge, e2: Edge)
    requires LoopEdges(r.c, e0, e1, e2) && IsLoop(r.c.prog) && LoopVertices(r.c.at) && Created(r)
    ensures |r.c.at| == 4 && r.c.at[0] != r.c.at[1] && r.c.at[0] != r.c.at[2] && r.c.at[1] != r.c.at[2]
    ensures e0 in r.drawn && r.drawn[e0] == Arc(r.c.at[0], r.c.at[1])
    ensures e1 in r.drawn && r.drawn[e1] == Arc(r.c.at[1], r.c.at[2])
    ensures e2 in r.drawn && r.drawn[e2] == Arc(r.c.at[2], r.c.at[1])
    ensures r.entrySelf in r.drawn && r.drawn[r.entrySelf] == Arc(r.c.at[0], r.c.at[0])
    ensures r.exitSelf in r.drawn && r.drawn[r.exitSelf] == Arc(r.c.at[3], r.c.at[3])
    ensures r.c.at[3] != r.c.at[1] && r.c.at[3] != r.c.at[2]
  {
  }

  lemma LastEdge(g: Arcs, s: Vertex, t: Vertex) returns (e: Edge)
    requires Reaches(g, s, t) && s != t
    ensures e in g && g[e].dst == t
  {
    var p: seq<Edge> :| IsWalk(g, s, p, t);
    var u := WalkSplitLast(g, s, p, t);
    e := p[|p| - 1];
  }

  lemma NotAcyclic(g: Arcs, e: Edge)
    requires e in g && Reaches(g, g[e].dst, g[e].src)
    ensures !Acyclic(g)
  {
  }

  /** The goto goes, the label stays. */
  lemma GotoGone(r: Record, e0: Edge, e1: Edge, e2: Edge)
    requires LoopEdges(r.c, e0, e1, e2) && IsLoop(r.c.prog) && LoopVertices(r.c.at) && Created(r)
    ensures r.c.at[2] in r.gone && r.c.at[1] !in r.gone && r.c.at[0] !in r.gone
  {
    hide *;
    CreatedDrawn(r);
    LoopProxied(r, e0, e1, e2);
    LoopEnds(r, e0, e1, e2);
    var at := r.c.at;
    forall x | x in r.drawn ensures x in {e0, e1, e2, r.entrySelf, r.exitSelf} {
      LoopDrawn(r, x, e0, e1, e2);
    }
    assert In(r.drawn, at[2]) == {e1} && Out(r.drawn, at[2]) == {e2} by {
      EndsOfGoto(r.drawn, at[2], e1, e2);
    }
    GotoIsRedundant(r.drawn, at, e1, e2);
  }

  lemma EndsOfGoto(g: Arcs, v: Vertex, a: Edge, b: Edge)
    requires a in g && b in g && g[a].dst == v && g[b].src == v
    requires forall e | e in g :: (g[e].dst == v ==> e == a) && (g[e].src == v ==> e == b)
    ensures In(g, v) == {a} && Out(g, v) == {b}
  {
  }

  lemma GotoIsRedundant(g: Arcs, at: seq<Vertex>, a: Edge, b: Edge)
    requires LoopVertices(at) && In(g, at[2]) == {a} && Out(g, at[2]) == {b}
    ensures at[2] in RedundantIn(g, Elements(at)) && at[1] !in RedundantIn(g, Elements(at))
    ensures at[0] !in RedundantIn(g, Elements(at))
  {
    assert at[2] in at;
  }

  /** The edge into the contracted vertex takes over its way out. */
  lemma Bypassed(g0: Arcs, g1: Arcs, gone: set<Vertex>, chain: map<Edge, seq<Edge>>, a: Edge, b: Edge)
    requires Contracted(g0, g1, gone, chain) && a in g0 && b in g0 && g0[b].src == g0[a].dst
    requires g0[a].src !in gone && g0[a].dst in gone && g0[b].dst !in gone
    ensures a in g1 && g1[a] == Arc(g0[a].src, g0[b].dst)
  {
    SurvivingEdges(g0, g1, gone, chain);
    var c, v := chain[a], g0[a].dst;
    assert IsChain(g0, g1, gone, a, c);
    assert IsWalk(g0, v, c[1..], g1[a].dst);
    assert [b][1..] == [] && IsWalk(g0, v, [b], g0[b].dst);
    OneWayOn(g0, gone, v, c[1..], g1[a].dst, [b], g0[b].dst);
    assert |c[1..]| == 1 && [b][1..] == [];
  }

  /** Once the graph is finished, ENTRY leads to the label, which has a self edge without a mark. */
  ghost predicate LoopLost(r: Record)
  {
    && |r.c.at| == 4 && r.c.at[0] != r.c.at[1]
    && (exists e :: e in r.final && e !in r.marked && r.final[e] == Arc(r.c.at[0], r.c.at[1]))
    && (exists e :: e in r.final && e !in r.marked && r.final[e] == Arc(r.c.at[1], r.c.at[1]))
  }

  lemma LoopLosesItsMark(r: Record)
    requires IsLoop(r.c.prog) && Created(r)
    ensures LoopLost(r)
  {
    hide *;
    CreatedDrawn(r);
    ProxiedSolid(r);
    LoopStatements(r);
    var e0 := LoopEdgeFrom(r.c, 0);
    var e1 := LoopEdgeFrom(r.c, 1);
    var e2 := LoopEdgeFrom(r.c, 2);
    AllLoopEdges(r.c, e0, e1, e2);
    LoopMarks(r, e0, e1, e2);
    LoopProxied(r, e0, e1, e2);
    LoopEnds(r, e0, e1, e2);
    GotoGone(r, e0, e1, e2);
    ChainOfStayer(r.proxied, r.final, r.gone, r.chain, e0);
    Bypassed(r.proxied, r.final, r.gone, r.chain, e1, e2);
    ItIsLost(r, e0, e1);
  }

  lemma AllLoopEdges(c: Building, e0: Edge, e1: Edge, e2: Edge)
    requires LoopEdge(c, e0, 0, 1) && LoopEdge(c, e1, 1, 2) && LoopEdge(c, e2, 2, 1)
    ensures LoopEdges(c, e0, e1, e2)
  {
  }

  lemma ItIsLost(r: Record, e0: Edge, e1: Edge)
    requires |r.c.at| == 4 && r.c.at[0] != r.c.at[1]
    requires e0 in r.final && e0 !in r.marked && r.final[e0] == Arc(r.c.at[0], r.c.at[1])
    requires e1 in r.final && e1 !in r.marked && r.final[e1] == Arc(r.c.at[1], r.c.at[1])
    ensures LoopLost(r)
  {
  }

  lemma LoopHasNoCalls(r: Record)
    requires IsLoop(r.c.prog) && Created(r)
    ensures forall e | e in r.final :: !r.final[e].src.statement.CallResolved?
  {
    hide *;
    CreatedDrawn(r);
    ProxiedSolid(r);
    LoopStatements(r);
    var e0 := LoopEdgeFrom(r.c, 0);
    var e1 := LoopEdgeFrom(r.c, 1);
    var e2 := LoopEdgeFrom(r.c, 2);
    AllLoopEdges(r.c, e0, e1, e2);
    LoopProxied(r, e0, e1, e2);
    LoopEnds(r, e0, e1, e2);
    SurvivingEdges(r.proxied, r.final, r.gone, r.chain);
    DrawnSubgraph(r.c, r.orig, r.drawn, r.entrySelf, r.exitSelf);
    ExitSelfEdgeIs(r.c, r.orig, r.drawn, r.entrySelf, r.exitSelf);
    forall e | e in r.final ensures !r.final[e].src.statement.CallResolved? {
      LoopDrawn(r, e, e0, e1, e2);
      LoopSources(r, e, e0, e1, e2);
    }
  }
}
