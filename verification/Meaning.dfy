/** What creating a control flow graph preserves: the runs of the statement list, and what ENTRY reaches. */
module Meaning {
  import opened Walks
  import opened Graphs
  import opened Programs
  import opened Construction
  import opened Resolution
  import opened Creation
  import opened Contraction
  import opened CfgAlgs
  import opened ControlFlowGraphs

  function Solid(g: Arcs): set<Edge>
  {
    set e | e in g && !e.kind.Impossible?
  }

  /** The graph without its Impossible edges. */
  function SolidArcs(g: Arcs): Arcs
  {
    Only(g, Solid(g))
  }

  // ----- The solid edges are the ways of the list -----

  /** An edge stands for a way on of the list and has its kind. */
  ghost predicate StandsFor(c: Building, e: Edge)
  {
    && e in c.slots && IsSlot(c.prog, c.slots[e])
    && e.kind == Ways(c.prog, c.slots[e].pos)[c.slots[e].way].kind
  }

  lemma WaysHaveKinds(c: Building, e: Edge)
    requires c.Ok() && e in c.g
    ensures StandsFor(c, e) && e.kind in {Fallthrough, IfTrue, IfFalse}
    ensures c.slots[e].pos < |c.at| && c.g[e].src == c.at[c.slots[e].pos]
    ensures exists q :: 0 < q < |c.at| && c.g[e].dst == c.at[q]
  {
    hide Ways;
    assert IsBuilt(c.prog, c.at, c.g[e], e.kind, c.slots[e], c.ways);
    WaysInRange(c.prog, c.slots[e].pos, c.slots[e].way);
  }

  lemma DrawnSolid(c: Building, orig: seq<Vertex>, g: Arcs, entrySelf: Edge, exitSelf: Edge)
    requires Drawn(c, orig, g, entrySelf, exitSelf)
    ensures SolidArcs(g) == c.g
  {
    hide Built, Placed, Complete, Resolves, IsPatchAt, LeftWithoutWayIn, StatementsAt;
    forall e | e in c.g ensures !e.kind.Impossible? {
      WaysHaveKinds(c, e);
    }
  }

  lemma ProxiedSolid(r: Record)
    requires Created(r)
    ensures SolidArcs(r.proxied) == r.c.g && r.c.Ok() && Complete(r.c.prog, r.c.ways)
  {
    hide *;
    CreatedDrawn(r);
    DrawnSolid(r.c, r.orig, r.drawn, r.entrySelf, r.exitSelf);
    DrawnLinked(r.c, r.orig, r.drawn, r.entrySelf, r.exitSelf);
    SameSolid(r.drawn, r.proxied);
  }

  lemma CreatedDrawn(r: Record)
    requires Created(r)
    ensures Drawn(r.c, r.orig, r.drawn, r.entrySelf, r.exitSelf)
    ensures Subgraph(r.drawn, r.proxied) && forall e | e in r.proxied.Keys - r.drawn.Keys :: e.kind.Impossible?
    ensures Contracted(r.proxied, r.final, r.gone, r.chain) && r.gone == RedundantIn(r.proxied, Elements(r.c.at))
    ensures r.c.at != [] && r.c.at[0].statement == Entry && r.c.at[|r.c.at| - 1].statement == Exit
  {
    hide WellMarked, IsProxy, ProxyOrNoWayOut;
  }

  lemma SameSolid(g: Arcs, h: Arcs)
    requires Subgraph(g, h) && forall e | e in h.Keys - g.Keys :: e.kind.Impossible?
    ensures SolidArcs(h) == SolidArcs(g)
  {
  }

  lemma DrawnLinked(c: Building, orig: seq<Vertex>, g: Arcs, entrySelf: Edge, exitSelf: Edge)
    requires Drawn(c, orig, g, entrySelf, exitSelf)
    ensures Linked(c, orig) && c.Ok() && Complete(c.prog, c.ways) && |c.at| == |orig| == |c.prog| + 2
  {
  }

  /** A position whose vertex can be redundant has exactly one way on if its vertex has one way out. */
  lemma CandidateHasWay(c: Building, orig: seq<Vertex>, p: nat)
    requires Linked(c, orig) && StatementsAt(c.prog, orig) && p < |c.at| && c.at[p].statement.IsRedundancyCandidate()
    requires c.at[0].statement == Entry && p <= |c.prog|
    ensures Ways(c.prog, p) != []
  {
    hide Built, Complete;
    assert p != 0;
  }

  lemma RedundantAt(g: Arcs, at: seq<Vertex>, v: Vertex) returns (p: nat)
    requires v in RedundantIn(g, Elements(at))
    ensures p < |at| && at[p] == v && v.statement.IsRedundancyCandidate() && |Out(g, v)| == 1
  {
    p :| p < |at| && at[p] == v;
  }

  lemma DrawnStatements(c: Building, orig: seq<Vertex>, g: Arcs, entrySelf: Edge, exitSelf: Edge)
    requires Drawn(c, orig, g, entrySelf, exitSelf)
    ensures StatementsAt(c.prog, orig) && Placed(c.prog, orig)
  {
  }

  lemma NoCandidates()
    ensures !Entry.IsRedundancyCandidate() && !Exit.IsRedundancyCandidate()
  {
  }

  ghost predicate GoesOnFrom(c: Building, v: Vertex, p: nat)
  {
    p <= |c.prog| && p < |c.at| && c.at[p] == v && Ways(c.prog, p) != []
  }

  lemma RedundantHasWay(r: Record, v: Vertex) returns (p: nat)
    requires v in r.gone && Created(r)
    ensures GoesOnFrom(r.c, v, p)
    ensures v.statement.IsRedundancyCandidate() && |Out(r.proxied, v)| == 1
  {
    hide *;
    CreatedDrawn(r);
    DrawnLinked(r.c, r.orig, r.drawn, r.entrySelf, r.exitSelf);
    DrawnStatements(r.c, r.orig, r.drawn, r.entrySelf, r.exitSelf);
    NoCandidates();
    p := RedundantAt(r.proxied, r.c.at, v);
    CandidateHasWay(r.c, r.orig, p);
    assert GoesOnFrom(r.c, v, p) by {
      GoesOn(r.c, v, p);
    }
  }

  lemma GoesOn(c: Building, v: Vertex, p: nat)
    ensures GoesOnFrom(c, v, p) <==> p <= |c.prog| && p < |c.at| && c.at[p] == v && Ways(c.prog, p) != []
  {
  }

  /** If there is a way `j` on from position `p`, it is what `e` stands for. */
  ghost predicate TakesWay(c: Building, e: Edge, p: nat, j: nat)
  {
    p <= |c.prog| && j < |Ways(c.prog, p)| ==> e in c.slots && c.slots[e] == Slot(p, j)
  }

  lemma OnlyOut(g: Arcs, v: Vertex, e: Edge, f: Edge)
    requires |Out(g, v)| == 1 && e in g && g[e].src == v && f in SolidArcs(g) && g[f].src == v
    ensures e == f && e in Solid(g)
  {
    SingletonIs(Out(g, v), e);
    assert f in Out(g, v);
  }

  lemma SolidArcsOf(g: Arcs, h: Arcs, e: Edge)
    requires SolidArcs(g) == h && e in h
    ensures e in g && g[e] == h[e]
  {
  }

  /** The one edge out of a redundant vertex is the first way on from its position. */
  lemma OutOfRedundant(r: Record, v: Vertex, e: Edge, j: nat) returns (p: nat)
    requires v in r.gone && e in Out(r.proxied, v) && Created(r)
    ensures GoesOnFrom(r.c, v, p) && e in Solid(r.proxied) && TakesWay(r.c, e, p, j)
  {
    hide *;
    ProxiedSolid(r);
    OutMeans(r.proxied, v, e);
    p := RedundantHasWay(r, v);
    GoesOn(r.c, v, p);
    var f := WayOut(r.c, p, 0);
    SolidArcsOf(r.proxied, r.c.g, f);
    OnlyOut(r.proxied, v, e, f);
    if j < |Ways(r.c.prog, p)| {
      f := WayOut(r.c, p, j);
      SolidArcsOf(r.proxied, r.c.g, f);
      OnlyOut(r.proxied, v, e, f);
    }
    WayTaken(r.c, e, p, j);
  }

  lemma WayTaken(c: Building, e: Edge, p: nat, j: nat)
    ensures TakesWay(c, e, p, j) <==> (p <= |c.prog| && j < |Ways(c.prog, p)| ==>
              e in c.slots && c.slots[e] == Slot(p, j))
  {
  }

  lemma OutMeans(g: Arcs, v: Vertex, e: Edge)
    ensures e in Out(g, v) <==> e in g && g[e].src == v
  {
  }

  lemma WayOut(c: Building, p: nat, j: nat) returns (e: Edge)
    requires c.Ok() && Complete(c.prog, c.ways) && p <= |c.prog| && j < |Ways(c.prog, p)| && p < |c.at|
    ensures e in c.g && c.g[e].src == c.at[p] && e in c.slots && c.slots[e] == Slot(p, j)
  {
    hide Ways, Built, Placed, Complete;
    e := WayIsEdge(c.prog, c.at, c.g, c.slots, c.ways, Slot(p, j));
  }

  /** The out-edge of a redundant vertex is solid, so contraction drops solid edges only. */
  lemma DroppedSolid(r: Record)
    requires Created(r)
    ensures Dropped(r.proxied, r.final) <= Solid(r.proxied)
  {
    hide *;
    CreatedDrawn(r);
    SurvivingEdges(r.proxied, r.final, r.gone, r.chain);
    DroppedAre(r.proxied, r.final);
    forall e | e in Dropped(r.proxied, r.final) ensures e in Solid(r.proxied) {
      assert e in r.proxied && e !in r.final;
      assert r.proxied[e].src in r.gone;
      OutMeans(r.proxied, r.proxied[e].src, e);
      var p := OutOfRedundant(r, r.proxied[e].src, e, 0);
    }
  }

  lemma DroppedAre(g: Arcs, h: Arcs)
    ensures Dropped(g, h) == g.Keys - h.Keys
  {
  }

  /** Of the solid edges, the finished graph is a contraction of the ways of the list. */
  lemma SolidContracted(r: Record)
    requires Created(r)
    ensures Contracted(r.c.g, SolidArcs(r.final), r.gone, r.chain)
    ensures Dropped(r.c.g, SolidArcs(r.final)) == Dropped(r.proxied, r.final)
    ensures r.c.Ok() && Complete(r.c.prog, r.c.ways)
  {
    hide *;
    CreatedDrawn(r);
    ProxiedSolid(r);
    DroppedSolid(r);
    SurvivingEdges(r.proxied, r.final, r.gone, r.chain);
    ContractedWithin(r.proxied, r.final, r.gone, r.chain, Solid(r.proxied));
    SolidOfSome(r.proxied, r.final);
  }

  lemma SolidOfSome(g: Arcs, h: Arcs)
    requires h.Keys <= g.Keys
    ensures Only(h, Solid(g)) == SolidArcs(h) && SolidArcs(g) == Only(g, Solid(g))
  {
  }

  // ----- Runs -----

  /** The run as it is seen when the positions `gone` are not there. */
  function Erased(run: seq<Slot>, gone: set<nat>): seq<Slot>
  {
    if run == [] then [] else (if run[0].pos in gone then [] else [run[0]]) + Erased(run[1..], gone)
  }

  ghost function PositionsOf(c: Building, vs: set<Vertex>): set<nat>
  {
    set p: nat | p < |c.at| && c.at[p] in vs
  }

  /** An erased position offers no choice: it is a generated label or a jump to one place. */
  lemma ErasedOfferNoChoice(r: Record, p: nat)
    requires Created(r) && p in PositionsOf(r.c, r.gone)
    ensures 0 < p <= |r.c.prog| && |Ways(r.c.prog, p)| == 1
    ensures r.c.at[p].statement.Goto? || r.c.at[p].statement.Label?
    ensures r.c.prog[p - 1] == r.c.at[p].statement || r.c.prog[p - 1].GotoUnlinked? || r.c.prog[p - 1].ReturnUnlinked?
  {
    hide Contracted, OneWayIn, DegreesKept, WellMarked, ProxiesOk;
    var q := RedundantHasWay(r, r.c.at[p]);
    AtMostOneWay(r, p);
    ReplacedJump(r, p);
  }

  lemma ReplacedJump(r: Record, p: nat)
    requires 0 < p <= |r.c.prog| && p < |r.c.at| && Created(r)
    ensures r.c.prog[p - 1] == r.c.at[p].statement || r.c.at[p].statement == Resolved(r.c.prog[p - 1])
  {
    hide Ways, Built, Complete;
  }

  ghost predicate OneWayOnFrom(prog: Program, p: nat)
  {
    0 < p <= |prog| && |Ways(prog, p)| == 1
  }

  lemma AtMostOneWay(r: Record, p: nat)
    requires p < |r.c.at| && r.c.at[p] in r.gone && Created(r)
    ensures OneWayOnFrom(r.c.prog, p)
  {
    hide *;
    CreatedDrawn(r);
    var v := r.c.at[p];
    var q := RedundantHasWay(r, v);
    ProxiedSolid(r);
    GoesOn(r.c, v, q);
    PlacesDiffer(r.c, p, q);
    NoCandidates();
    var e := SingleOut(r.proxied, v);
    OutMeans(r.proxied, v, e);
    q := OutOfRedundant(r, v, e, 0);
    GoesOn(r.c, v, q);
    PlacesDiffer(r.c, p, q);
    WayTaken(r.c, e, p, 0);
    if |Ways(r.c.prog, p)| > 1 {
      q := OutOfRedundant(r, v, e, 1);
      GoesOn(r.c, v, q);
      PlacesDiffer(r.c, p, q);
      WayTaken(r.c, e, p, 1);
    }
    OneWay(r.c.prog, p);
  }

  lemma OneWay(prog: Program, p: nat)
    ensures OneWayOnFrom(prog, p) <==> 0 < p <= |prog| && |Ways(prog, p)| == 1
  {
  }

  lemma PlacesDiffer(c: Building, p: nat, q: nat)
    requires c.Ok() && p < |c.at| && q < |c.at| && c.at[p] == c.at[q]
    ensures p == q
  {
    hide Built;
  }

  lemma SingleOut(g: Arcs, v: Vertex) returns (e: Edge)
    requires |Out(g, v)| == 1
    ensures e in g && g[e].src == v
  {
    e :| e in Out(g, v);
  }

  /** Dropping the out-edges of contracted vertices from a walk is erasing their positions from its run. */
  lemma {:induction false} ErasedSlots(c: Building, gone: set<Vertex>, drop: set<Edge>, s: Vertex, w: seq<Edge>,
                                       t: Vertex)
    requires c.Ok() && IsWalk(c.g, s, w, t)
    requires forall e | e in c.g :: e in drop <==> c.g[e].src in gone
    ensures forall e | e in w :: e in c.slots
    ensures forall e | e in Without(w, drop) :: e in c.slots
    ensures SlotsOf(c.slots, Without(w, drop)) == Erased(SlotsOf(c.slots, w), PositionsOf(c, gone))
  {
    hide Ways, Built, Placed, Machine;
    if w == [] {
    } else {
      var e := w[0];
      ErasedSlots(c, gone, drop, c.g[e].dst, w[1..], t);
      hide Building.Ok;
      WaysHaveKinds(c, e);
      assert forall x | x in w :: x == e || x in w[1..];
      SlotsOfCons(c.slots, w);
      PositionIn(c, gone, c.slots[e].pos);
      var rest := Without(w[1..], drop);
      assert ([c.slots[e]] + SlotsOf(c.slots, w[1..]))[1..] == SlotsOf(c.slots, w[1..]);
      if e !in drop {
        assert ([e] + rest)[1..] == rest;
        SlotsOfCons(c.slots, [e] + rest);
      } else {
        assert [] + rest == rest;
      }
    }
  }

  lemma PositionIn(c: Building, gone: set<Vertex>, p: nat)
    requires p < |c.at|
    ensures p in PositionsOf(c, gone) <==> c.at[p] in gone
  {
  }

  lemma DroppedByPosition(r: Record)
    requires Created(r)
    ensures forall e | e in r.c.g :: e in Dropped(r.c.g, SolidArcs(r.final)) <==> r.c.g[e].src in r.gone
  {
    hide Created, Solid;
    SolidContracted(r);
    SurvivingEdges(r.c.g, SolidArcs(r.final), r.gone, r.chain);
  }

  /** The edges `q` stand for the ways taken by a run at the positions that are not `gone`, kind for kind. */
  ghost predicate Shows(c: Building, q: seq<Edge>, run: seq<Slot>, gone: set<nat>)
  {
    (forall e | e in q :: StandsFor(c, e)) && SlotsOf(c.slots, q) == Erased(run, gone)
  }

  lemma ItShows(r: Record, s: Vertex, w: seq<Edge>, t: Vertex)
    requires Created(r) && IsWalk(r.c.g, s, w, t)
    ensures forall e | e in w :: e in r.c.slots
    ensures Shows(r.c, Without(w, Dropped(r.c.g, SolidArcs(r.final))), SlotsOf(r.c.slots, w), PositionsOf(r.c, r.gone))
  {
    hide *;
    SolidContracted(r);
    DroppedByPosition(r);
    var drop := Dropped(r.c.g, SolidArcs(r.final));
    ErasedSlots(r.c, r.gone, drop, s, w, t);
    WithoutElements(w, drop);
    WalkInGraph(r.c.g, s, w, t);
    var q := Without(w, drop);
    forall e | e in q ensures StandsFor(r.c, e) {
      WaysHaveKinds(r.c, e);
    }
    ItShowsSo(r.c, q, SlotsOf(r.c.slots, w), PositionsOf(r.c, r.gone));
  }

  lemma ItShowsSo(c: Building, q: seq<Edge>, run: seq<Slot>, gone: set<nat>)
    requires forall e | e in q :: StandsFor(c, e) && e in c.slots
    requires SlotsOf(c.slots, q) == Erased(run, gone)
    ensures Shows(c, q, run, gone)
  {
  }

  /** Every run of the list between positions that stay is a walk of the finished graph, less the erased positions. */
  lemma RunsStay(r: Record, p: nat, run: seq<Slot>, t: nat) returns (q: seq<Edge>)
    requires p < |r.c.at| && IsWalk(Machine(r.c.prog), p, run, t)
    requires r.c.at[p] !in r.gone && (t < |r.c.at| ==> r.c.at[t] !in r.gone)
    requires Created(r)
    ensures t < |r.c.at| && IsWalk(SolidArcs(r.final), r.c.at[p], q, r.c.at[t])
    ensures Shows(r.c, q, run, PositionsOf(r.c, r.gone))
  {
    hide *;
    SolidContracted(r);
    OkMeans(r.c);
    var w := RunIsWalk(r.c.prog, r.c.at, r.c.g, r.c.slots, r.c.ways, p, run, t);
    Project(r.c.g, SolidArcs(r.final), r.gone, r.chain, r.c.at[p], w, r.c.at[t]);
    q := Without(w, Dropped(r.c.g, SolidArcs(r.final)));
    ItShows(r, r.c.at[p], w, r.c.at[t]);
  }

  lemma OkMeans(c: Building)
    requires c.Ok()
    ensures Placed(c.prog, c.at) && Built(c.prog, c.at, c.g, c.slots, c.ways)
  {
  }

  /** Every walk of the finished graph is a run of the list, less the erased positions. */
  lemma WalksAreRuns(r: Record, p: nat, q: seq<Edge>, v: Vertex) returns (run: seq<Slot>, t: nat)
    requires Created(r) && p < |r.c.at| && IsWalk(SolidArcs(r.final), r.c.at[p], q, v)
    ensures t < |r.c.at| && r.c.at[t] == v && IsWalk(Machine(r.c.prog), p, run, t)
    ensures Shows(r.c, q, run, PositionsOf(r.c, r.gone))
  {
    hide *;
    SolidContracted(r);
    OkMeans(r.c);
    var w := Lift(r.c.g, SolidArcs(r.final), r.gone, r.chain, r.c.at[p], q, v);
    t := WalkIsRun(r.c.prog, r.c.at, r.c.g, r.c.slots, r.c.ways, p, w, v);
    run := SlotsOf(r.c.slots, w);
    ItShows(r, r.c.at[p], w, v);
  }
}
