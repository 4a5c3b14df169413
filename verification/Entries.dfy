/** What a newly created graph looks like from its ENTRY: its one in-edge, and what is reachable from it. */
module Entries {
  import opened Walks
  import opened Graphs
  import opened Programs
  import opened Construction
  import opened Resolution
  import opened Creation
  import opened Contraction
  import opened CfgAlgs
  import opened ControlFlowGraphs
  import opened Meaning
  import opened Traversals
  import opened Reachability

  // ----- The self edge of ENTRY -----

  lemma OrigOffEntry(c: Building, orig: seq<Vertex>, p: nat)
    requires Linked(c, orig) && Placed(c.prog, orig) && 0 < p < |orig|
    ensures c.at != [] && orig[p] != c.at[0]
  {
    hide Ways, Built, Complete, StatementsAt;
    assert orig[0] == c.at[0];
  }

  lemma OnlySelfEdgeDrawn(c: Building, orig: seq<Vertex>, g: Arcs, entrySelf: Edge, exitSelf: Edge, e: Edge)
    requires Drawn(c, orig, g, entrySelf, exitSelf) && e in g && g[e].dst == c.at[0]
    ensures e == entrySelf
  {
    hide Ways, Built, Complete, LeftWithoutWayIn, Linked, StatementsAt;
    DrawnLinked(c, orig, g, entrySelf, exitSelf);
    if e in c.g {
      WaysHaveKinds(c, e);
    } else if IsPatchIn(c, orig, g, e) {
      var p :| 0 < p <= |c.prog| && p < |orig| && g[e] == Arc(orig[p - 1], orig[p]);
      OrigOffEntry(c, orig, p);
    }
  }

  lemma OnlySelfEdgeProxied(r: Record, e: Edge)
    requires Created(r) && e in r.proxied && r.proxied[e].dst == r.c.at[0]
    ensures e == r.entrySelf
  {
    hide Drawn, WellMarked, Contracted, OneWayIn, DegreesKept, RedundantIn, IsProxy, ProxyOrNoWayOut;
    if e !in r.drawn {
      ProxyLeadsFromDecision(r.drawn, r.t.path, r.marked, r.proxied[e]);
      var o :| o in r.drawn && r.drawn[o].src.statement.IsDecision() && r.drawn[o].dst == r.c.at[0];
      OnlySelfEdgeDrawn(r.c, r.orig, r.drawn, r.entrySelf, r.exitSelf, o);
      SelfEdgeIs(r.c, r.orig, r.drawn, r.entrySelf, r.exitSelf);
    } else {
      OnlySelfEdgeDrawn(r.c, r.orig, r.drawn, r.entrySelf, r.exitSelf, e);
    }
  }

  lemma SelfEdgeIs(c: Building, orig: seq<Vertex>, g: Arcs, entrySelf: Edge, exitSelf: Edge)
    requires Drawn(c, orig, g, entrySelf, exitSelf)
    ensures |c.at| == |c.prog| + 2 && entrySelf in g && g[entrySelf] == Arc(c.at[0], c.at[0]) && entrySelf !in c.g
    ensures entrySelf.kind.Impossible?
  {
  }

  lemma FirstStep(g: Arcs, s: Vertex, q: seq<Edge>, t: Vertex)
    requires IsWalk(g, s, q, t) && s != t
    ensures exists e :: e in q && e in g && g[e].src == s
  {
    assert q[0] in q;
  }

  lemma StaysPut(g: Arcs, gone: set<Vertex>, s: Vertex, q: seq<Edge>, t: Vertex)
    requires IsWalk(g, s, q, t) && s !in gone && forall e | e in q :: e in g && g[e].src in gone
    ensures s == t
  {
    if s != t {
      FirstStep(g, s, q, t);
    }
  }

  lemma ChainOfStayer(g0: Arcs, g1: Arcs, gone: set<Vertex>, chain: map<Edge, seq<Edge>>, e: Edge)
    requires Contracted(g0, g1, gone, chain) && e in g0 && g0[e].src !in gone && g0[e].dst !in gone
    ensures e in g1 && g1[e] == g0[e]
  {
    hide OneWayIn;
    assert e in g1;
    var c := chain[e];
    assert IsChain(g0, g1, gone, e, c);
    assert IsWalk(g0, g0[e].dst, c[1..], g1[e].dst);
    StaysPut(g0, gone, g0[e].dst, c[1..], g1[e].dst);
  }

  lemma DegreeOf(g0: Arcs, g1: Arcs, gone: set<Vertex>, vs: set<Vertex>, v: Vertex)
    requires DegreesKept(g0, g1, gone, vs) && v in vs && v !in gone
    ensures |In(g1, v)| == |In(g0, v)|
  {
  }

  /** In a finished graph, the self edge is the one way into ENTRY, and it is marked as a back edge. */
  lemma EntryOnlySelfEdge(r: Record)
    requires Created(r)
    ensures r.c.at != [] && r.c.at[0] in Elements(r.c.at) && r.c.at[0] !in r.gone
    ensures In(r.final, r.c.at[0]) == {r.entrySelf}
    ensures r.entrySelf in r.final && r.final[r.entrySelf] == Arc(r.c.at[0], r.c.at[0])
    ensures r.entrySelf in r.marked && r.entrySelf.kind.Impossible?
  {
    hide Drawn, Contracted, OneWayIn, DegreesKept, WellMarked, ProxiesOk;
    NoCandidates();
    SelfEdgesMarked(r);
    SelfEdgeIs(r.c, r.orig, r.drawn, r.entrySelf, r.exitSelf);
    CreatedDrawn(r);
    SubgraphAt(r.drawn, r.proxied, r.entrySelf);
    var entry := r.c.at[0];
    ChainOfStayer(r.proxied, r.final, r.gone, r.chain, r.entrySelf);
    OnlyIn(r.proxied, entry, r.entrySelf) by {
      forall e | e in r.proxied && r.proxied[e].dst == entry ensures e == r.entrySelf {
        OnlySelfEdgeProxied(r, e);
      }
    }
    DegreeOf(r.proxied, r.final, r.gone, Elements(r.c.at), entry);
    assert r.entrySelf in In(r.final, entry);
    SingletonIs(In(r.final, entry), r.entrySelf);
  }

  lemma SelfEdgesMarked(r: Record)
    requires Created(r)
    ensures forall e | e in r.drawn && r.drawn[e].src in Elements(r.c.at) && r.drawn[e].src == r.drawn[e].dst ::
              e in r.marked
  {
    hide Drawn, Contracted, OneWayIn, DegreesKept, Acyclic, Reaches, Closed, ProxiesOk;
  }

  lemma OnlyIn(g: Arcs, v: Vertex, e: Edge)
    requires e in g && g[e].dst == v && forall x | x in g && g[x].dst == v :: x == e
    ensures In(g, v) == {e}
  {
  }

  /** So nothing but calls can ever lead to ENTRY. */
  lemma NothingLeadsToEntry(r: Record)
    requires Created(r)
    ensures r.c.at != [] && OnlyCalled(r.final, r.marked, r.c.at[0])
  {
    hide Created;
    EntryOnlySelfEdge(r);
    assert forall e | e in r.final && r.final[e].dst == r.c.at[0] :: e in In(r.final, r.c.at[0]);
  }

  // ----- What the marks leave reachable -----

  /** A run can get to the jump at `p`, whose labels are missing. */
  ghost predicate Stuck(prog: Program, p: nat)
  {
    p <= |prog| && IsFlow(prog, p) && !Resolves(prog, p) && Reaches(Machine(prog), 0, p)
  }

  ghost predicate AllFlow(prog: Program, p: nat, q: nat)
  {
    forall k | p <= k < q :: IsFlow(prog, k)
  }

  /** Some way on leads to position `q`. */
  ghost predicate LedInto(prog: Program, q: nat)
  {
    exists s: Slot :: s in Machine(prog) && Machine(prog)[s].dst == q
  }

  /** After a jump at which a run gets stuck, the first statement that is no jump is one that some way leads to. */
  ghost predicate NothingHidden(prog: Program)
  {
    forall p: nat, q: nat | Stuck(prog, p) && p < q <= |prog| && AllFlow(prog, p, q) && !IsFlow(prog, q) ::
      LedInto(prog, q)
  }

  /** In particular, this is so if no run gets stuck. */
  lemma NeverStuckNothingHidden(prog: Program)
    requires forall p: nat | p <= |prog| && IsFlow(prog, p) && Reaches(Machine(prog), 0, p) :: Resolves(prog, p)
    ensures NothingHidden(prog)
  {
  }

  lemma OrigElsewhere(c: Building, orig: seq<Vertex>, p: nat)
    requires Linked(c, orig) && Placed(c.prog, orig) && p <= |c.prog| && p < |orig| && Resolves(c.prog, p)
    ensures orig[p] !in Elements(c.at)
  {
    hide Ways, Built, Complete, StatementsAt, Resolves;
    forall q | 0 <= q < |c.at| ensures c.at[q] != orig[p] {
      assert Resolves(c.prog, q) ==> c.at[q] !in orig;
      assert orig[p] in orig;
    }
  }

  /** What ENTRY reaches over the ways of the list is a vertex of the list, at a position that a run gets to. */
  lemma RunGetsTo(c: Building, v: Vertex) returns (p: nat)
    requires c.Ok() && Complete(c.prog, c.ways) && |c.at| == |c.prog| + 2 && Reaches(c.g, c.at[0], v)
    ensures p < |c.at| && c.at[p] == v && Reaches(Machine(c.prog), 0, p)
  {
    hide Ways, Built, Placed, Complete, IsWalk, Machine;
    var w := WalkOf(c.g, c.at[0], v);
    p := WalkIsRun(c.prog, c.at, c.g, c.slots, c.ways, 0, w, v);
  }

  /** The vertex that the jump at `m` was at first, which comes in a row of jumps after one where a run gets stuck. */
  ghost predicate ShadowAt(prog: Program, orig: seq<Vertex>, v: Vertex, p: nat, m: nat)
  {
    Stuck(prog, p) && p < m <= |prog| && AllFlow(prog, p, m + 1) && m < |orig| && v == orig[m]
  }

  ghost predicate InShadow(prog: Program, orig: seq<Vertex>, v: Vertex)
  {
    exists p: nat, m: nat :: ShadowAt(prog, orig, v, p, m)
  }

  lemma PatchFrom(r: Record, e: Edge) returns (p: nat)
    requires Created(r) && e in r.drawn && e !in r.c.g && e !in r.marked
    ensures 0 < p < |r.c.prog| && p + 1 < |r.orig| && IsFlow(r.c.prog, p) && In(r.c.g, r.orig[p + 1]) == {}
    ensures r.drawn[e] == Arc(r.orig[p], r.orig[p + 1])
  {
    hide Contracted, OneWayIn, DegreesKept, WellMarked, ProxiesOk, Ways, Built, Complete, LeftWithoutWayIn, RedundantIn;
    SelfEdgesMarked(r);
    assert r.drawn[e].src in r.c.at ==> r.drawn[e].src in Elements(r.c.at);
    assert IsPatchIn(r.c, r.orig, r.drawn, e);
    var q :| 0 < q <= |r.c.prog| && q < |r.orig| && IsFlow(r.c.prog, q - 1)
             && r.drawn[e] == Arc(r.orig[q - 1], r.orig[q]);
    p := q - 1;
  }

  /** A patch from a jump where a run gets stuck, or in the shadow of one, leads into the shadow. */
  lemma PatchIntoShadow(c: Building, orig: seq<Vertex>, p: nat, m: nat)
    requires Linked(c, orig) && NothingHidden(c.prog) && |c.at| == |c.prog| + 2
    requires Stuck(c.prog, p) && p <= m < |c.prog| && AllFlow(c.prog, p, m + 1)
    requires m + 1 < |orig| && In(c.g, orig[m + 1]) == {}
    ensures ShadowAt(c.prog, orig, orig[m + 1], p, m + 1)
  {
    hide Stuck, Ways, Built, Complete, Placed;
    if !IsFlow(c.prog, m + 1) {
      assert LedInto(c.prog, m + 1);
      var s: Slot :| s in Machine(c.prog) && Machine(c.prog)[s].dst == m + 1;
      var e := WayIsEdge(c.prog, c.at, c.g, c.slots, c.ways, s);
      EntersAt(c.g, e, c.at[m + 1]);
    }
  }

  lemma EntersAt(g: Arcs, e: Edge, v: Vertex)
    requires e in g && g[e].dst == v
    ensures In(g, v) != {}
  {
    assert e in In(g, v);
  }

  /** Where nothing is hidden, the unmarked edges out of what runs get to are ways of the list or lead into a shadow. */
  lemma UnmarkedFromHere(r: Record, e: Edge)
    requires Created(r) && NothingHidden(r.c.prog) && r.c.at != []
    requires e in r.drawn && e !in r.marked && Reaches(r.c.g, r.c.at[0], r.drawn[e].src)
    ensures (e in r.c.g && r.c.g[e] == r.drawn[e]) || InShadow(r.c.prog, r.orig, r.drawn[e].dst)
  {
    hide *;
    CreatedDrawn(r);
    DrawnLinked(r.c, r.orig, r.drawn, r.entrySelf, r.exitSelf);
    DrawnStatements(r.c, r.orig, r.drawn, r.entrySelf, r.exitSelf);
    DrawnSubgraph(r.c, r.orig, r.drawn, r.entrySelf, r.exitSelf);
    var q := RunGetsTo(r.c, r.drawn[e].src);
    if e !in r.c.g {
      var p := PatchFrom(r, e);
      StuckOrElsewhere(r.c, r.orig, p, q);
      ItIsStuck(r.c.prog, p);
      PatchIntoShadow(r.c, r.orig, p, p);
      ItIsInShadow(r.c.prog, r.orig, r.drawn[e].dst, p, p + 1);
    } else {
      SubgraphAt(r.c.g, r.drawn, e);
    }
  }

  lemma SubgraphAt(g: Arcs, h: Arcs, e: Edge)
    requires Subgraph(g, h) && e in g
    ensures e in h && h[e] == g[e]
  {
  }

  lemma ItIsStuck(prog: Program, p: nat)
    requires p <= |prog| && IsFlow(prog, p) && !Resolves(prog, p) && Reaches(Machine(prog), 0, p)
    ensures Stuck(prog, p) && AllFlow(prog, p, p + 1)
  {
  }

  lemma ItIsInShadow(prog: Program, orig: seq<Vertex>, v: Vertex, p: nat, m: nat)
    requires ShadowAt(prog, orig, v, p, m)
    ensures InShadow(prog, orig, v)
  {
  }

  /** No unmarked edge leads out of a shadow. */
  lemma ShadowStays(r: Record, e: Edge)
    requires Created(r) && NothingHidden(r.c.prog) && e in r.drawn && e !in r.marked
    requires InShadow(r.c.prog, r.orig, r.drawn[e].src)
    ensures InShadow(r.c.prog, r.orig, r.drawn[e].dst)
  {
    hide *;
    CreatedDrawn(r);
    DrawnLinked(r.c, r.orig, r.drawn, r.entrySelf, r.exitSelf);
    DrawnStatements(r.c, r.orig, r.drawn, r.entrySelf, r.exitSelf);
    DrawnSubgraph(r.c, r.orig, r.drawn, r.entrySelf, r.exitSelf);
    var p, m := ShadowOf(r.c.prog, r.orig, r.drawn[e].src);
    if e in r.c.g {
      SubgraphAt(r.c.g, r.drawn, e);
      NoWayFromShadow(r.c, r.orig, p, m, e);
    } else {
      var n := PatchFrom(r, e);
      OrigDiffer(r.c.prog, r.orig, m, n);
      PatchIntoShadow(r.c, r.orig, p, m);
      ItIsInShadow(r.c.prog, r.orig, r.drawn[e].dst, p, m + 1);
    }
  }

  lemma ShadowOf(prog: Program, orig: seq<Vertex>, v: Vertex) returns (p: nat, m: nat)
    requires InShadow(prog, orig, v)
    ensures ShadowAt(prog, orig, v, p, m) && m < |orig| && v == orig[m] && p < m <= |prog|
    ensures Stuck(prog, p) && AllFlow(prog, p, m + 1) && IsFlow(prog, m) && IsFlow(prog, m - 1)
  {
    p, m :| ShadowAt(prog, orig, v, p, m);
    assert IsFlow(prog, m - 1);
  }

  lemma OrigDiffer(prog: Program, orig: seq<Vertex>, p: nat, q: nat)
    requires Placed(prog, orig) && p < |orig| && q < |orig| && orig[p] == orig[q]
    ensures p == q
  {
  }

  /** A shadow is an unresolved jump, which has no way on, or no vertex of the list any more. */
  lemma NoWayFromShadow(c: Building, orig: seq<Vertex>, p: nat, m: nat, e: Edge)
    requires Linked(c, orig) && Placed(c.prog, orig) && |c.at| == |orig| == |c.prog| + 2 && m <= |c.prog|
    requires IsFlow(c.prog, m)
    requires e in c.g
    ensures c.g[e].src != orig[m]
  {
    hide Built, Complete, Ways;
    WaysHaveKinds(c, e);
    if c.g[e].src == orig[m] {
      StuckOrElsewhere(c, orig, m, c.slots[e].pos);
    }
  }

  /** Runs do not get into a shadow: a jump is entered only from the statement before it, and that is a jump. */
  lemma ShadowUnreached(r: Record, v: Vertex)
    requires Created(r) && r.c.at != [] && InShadow(r.c.prog, r.orig, v)
    ensures !Reaches(r.c.g, r.c.at[0], v)
  {
    hide *;
    CreatedDrawn(r);
    DrawnLinked(r.c, r.orig, r.drawn, r.entrySelf, r.exitSelf);
    DrawnStatements(r.c, r.orig, r.drawn, r.entrySelf, r.exitSelf);
    if Reaches(r.c.g, r.c.at[0], v) {
      var q := RunGetsTo(r.c, v);
      var p, m := ShadowOf(r.c.prog, r.orig, v);
      StuckOrElsewhere(r.c, r.orig, m, q);
      EnteredFromFlow(r.c.prog, q);
    }
  }

  lemma EnteredFromFlow(prog: Program, q: nat)
    requires 0 < q <= |prog| && IsFlow(prog, q) && Reaches(Machine(prog), 0, q)
    ensures !IsFlow(prog, q - 1)
  {
    hide Ways, IsFlow;
    var w: seq<Slot> :| IsWalk(Machine(prog), 0, w, q);
    var u := WalkSplitLast(Machine(prog), 0, w, q);
    var s := w[|w| - 1];
    WaysInRange(prog, s.pos, s.way);
  }

  /** A jump that was not replaced is one that runs could get stuck at. */
  lemma StuckOrElsewhere(c: Building, orig: seq<Vertex>, p: nat, q: nat)
    requires Linked(c, orig) && Placed(c.prog, orig) && p <= |c.prog| && q < |c.at| == |orig| == |c.prog| + 2
    requires c.at[q] == orig[p] && IsFlow(c.prog, p)
    ensures p == q && !Resolves(c.prog, p)
  {
    hide Ways, Built, Complete;
    if Resolves(c.prog, p) {
      OrigElsewhere(c, orig, p);
    }
  }

  lemma {:induction false} ShadowWalk(r: Record, s: Vertex, w: seq<Edge>, v: Vertex)
    requires Created(r) && NothingHidden(r.c.prog)
    requires InShadow(r.c.prog, r.orig, s) && IsWalk(r.drawn - r.marked, s, w, v)
    ensures InShadow(r.c.prog, r.orig, v)
  {
    hide Created, NothingHidden, InShadow;
    if w != [] {
      ShadowStays(r, w[0]);
      ShadowWalk(r, r.drawn[w[0]].dst, w[1..], v);
    }
  }

  /** An unmarked walk between vertices that runs get to takes ways of the list only. */
  lemma {:induction false} UnmarkedWalk(r: Record, s: Vertex, w: seq<Edge>, v: Vertex)
    requires Created(r) && NothingHidden(r.c.prog) && r.c.at != []
    requires Reaches(r.c.g, r.c.at[0], s) && Reaches(r.c.g, r.c.at[0], v)
    requires IsWalk(r.drawn - r.marked, s, w, v)
    ensures IsWalk(r.c.g - r.marked, s, w, v)
  {
    hide Created, NothingHidden, InShadow, Reaches;
    if w != [] {
      UnmarkedFromHere(r, w[0]);
      if InShadow(r.c.prog, r.orig, r.drawn[w[0]].dst) {
        ShadowWalk(r, r.drawn[w[0]].dst, w[1..], v);
        ShadowUnreached(r, v);
      }
      ReachesStep(r.c.g, r.c.at[0], w[0]);
      UnmarkedWalk(r, r.drawn[w[0]].dst, w[1..], v);
    }
  }

  /** The solid edges that are not marked, or are dropped in any case. */
  ghost function Kept(r: Record): set<Edge>
  {
    Solid(r.proxied) - (r.marked - Dropped(r.proxied, r.final))
  }

  lemma UnmarkedKept(r: Record)
    requires Created(r)
    ensures Subgraph(r.c.g - r.marked, Only(r.proxied, Kept(r)))
  {
    hide Created, Dropped;
    ProxiedSolid(r);
  }

  /** What ENTRY reaches over the ways of the list, it still reaches in the finished graph without the marked edges. */
  lemma ReachedUnmarked(r: Record, v: Vertex)
    requires Created(r) && NothingHidden(r.c.prog) && r.c.at != [] && v !in r.gone
    requires Reaches(SolidArcs(r.final), r.c.at[0], v)
    ensures Reaches(Only(r.final, Kept(r)), r.c.at[0], v)
  {
    hide *;
    var entry := r.c.at[0];
    EntryOnlySelfEdge(r);
    CreatedDrawn(r);
    SolidContracted(r);
    ReachabilityKept(r.c.g, SolidArcs(r.final), r.gone, r.chain, entry, v);
    assert Reaches(r.c.g, entry, v);
    DrawnSubgraph(r.c, r.orig, r.drawn, r.entrySelf, r.exitSelf);
    ReachesMonotone(r.c.g, r.drawn, entry, v);
    FirstReached(r, v);
    var w := WalkOf(r.drawn - r.marked, entry, v);
    ReachesRefl(r.c.g, entry);
    UnmarkedWalk(r, entry, w, v);
    WalkReaches(r.c.g - r.marked, entry, w, v);
    UnmarkedKept(r);
    ReachesMonotone(r.c.g - r.marked, Only(r.proxied, Kept(r)), entry, v);
    DroppedSolid(r);
    DroppedKept(r);
    ContractedWithin(r.proxied, r.final, r.gone, r.chain, Kept(r));
    ReachabilityKept(Only(r.proxied, Kept(r)), Only(r.final, Kept(r)), r.gone, r.chain, entry, v);
  }

  lemma DroppedKept(r: Record)
    requires Dropped(r.proxied, r.final) <= Solid(r.proxied)
    ensures Dropped(r.proxied, r.final) <= Kept(r)
  {
  }

  lemma WalkReaches(g: Arcs, s: Vertex, w: seq<Edge>, t: Vertex)
    requires IsWalk(g, s, w, t)
    ensures Reaches(g, s, t)
  {
  }

  lemma DrawnSubgraph(c: Building, orig: seq<Vertex>, g: Arcs, entrySelf: Edge, exitSelf: Edge)
    requires Drawn(c, orig, g, entrySelf, exitSelf)
    ensures Subgraph(c.g, g)
  {
  }

  lemma FirstReached(r: Record, v: Vertex)
    requires Created(r) && r.c.at != [] && Reaches(r.drawn, r.c.at[0], v)
    ensures Reaches(r.drawn - r.marked, r.c.at[0], v)
  {
    hide Drawn, Contracted, OneWayIn, DegreesKept, RedundantIn, Acyclic, Reaches, Closed, ProxiesOk;
    ClosedReaches(r.drawn, r.first, r.c.at[0], v);
  }

  /** Edges of a new graph are neither calls nor returns. */
  lemma NewEdgeKinds(r: Record, e: Edge)
    requires Created(r) && e in r.final
    ensures e.kind in {Fallthrough, IfTrue, IfFalse, Impossible}
  {
    hide Created, Contracted;
    CreatedDrawn(r);
    SurvivingEdges(r.proxied, r.final, r.gone, r.chain);
    ProxiedSolid(r);
    if !e.kind.Impossible? {
      assert e in SolidArcs(r.proxied);
      WaysHaveKinds(r.c, e);
    }
  }

  lemma KeptIsFollowed(r: Record, e: Edge)
    requires Created(r) && e in r.final
    ensures e in Kept(r) <==> Followed(e, r.marked) && !e.kind.FunctionCall?
    ensures e in Kept(r) ==> e in Solid(r.final)
  {
    hide *;
    CreatedDrawn(r);
    SurvivingEdges(r.proxied, r.final, r.gone, r.chain);
    NewEdgeKinds(r, e);
    KeptMeans(r, e);
    FollowedMeans(e, r.marked);
  }

  lemma KeptMeans(r: Record, e: Edge)
    requires e in r.final && e in r.proxied
    ensures e in Kept(r) <==> !e.kind.Impossible? && e !in r.marked
    ensures e in Solid(r.final) <==> !e.kind.Impossible?
  {
  }

  lemma FollowedMeans(e: Edge, back: set<Edge>)
    requires e.kind in {Fallthrough, IfTrue, IfFalse, Impossible}
    ensures Followed(e, back) <==> !e.kind.Impossible? && e !in back
  {
  }

  lemma KeptAreFollowed(r: Record)
    requires Created(r)
    ensures Only(r.final, Kept(r)) == WithoutCalls(FollowedArcs(r.final, r.marked))
    ensures Subgraph(WithoutCalls(FollowedArcs(r.final, r.marked)), SolidArcs(r.final))
  {
    hide Created, Kept, Solid;
    forall e | e in r.final
      ensures e in Kept(r) <==> Followed(e, r.marked) && !e.kind.FunctionCall?
      ensures e in Kept(r) ==> e in Solid(r.final)
    {
      KeptIsFollowed(r, e);
    }
  }

  lemma FinalOffGone(r: Record, e: Edge)
    requires Created(r) && e in r.final
    ensures r.final[e].dst !in r.gone
  {
    hide Created, Contracted;
    CreatedDrawn(r);
    SurvivingEdges(r.proxied, r.final, r.gone, r.chain);
  }

  /** Where nothing is hidden behind a jump without its label, leaving out the marked edges makes nothing unreachable
      from ENTRY, although the mark of a dropped edge is lost and new Impossible edges have appeared. */
  lemma MarksLoseNothingHere(r: Record)
    requires Created(r) && NothingHidden(r.c.prog)
    ensures r.c.at != [] && MarksLoseNothing(r.final, r.marked, r.c.at[0])
  {
    hide *;
    CreatedDrawn(r);
    KeptAreFollowed(r);
    var h := WithoutCalls(FollowedArcs(r.final, r.marked));
    forall e | e in r.final && Possible(e) && !e.kind.FunctionCall? && Reaches(h, r.c.at[0], r.final[e].src)
      ensures Reaches(h, r.c.at[0], r.final[e].dst)
    {
      ReachesMonotone(h, SolidArcs(r.final), r.c.at[0], r.final[e].src);
      PossibleIsSolid(r.final, e);
      ReachesStep(SolidArcs(r.final), r.c.at[0], e);
      FinalOffGone(r, e);
      ReachedUnmarked(r, r.final[e].dst);
    }
    LoseNothing(r.final, r.marked, r.c.at[0]);
  }

  lemma PossibleIsSolid(g: Arcs, e: Edge)
    requires e in g && Possible(e)
    ensures e in SolidArcs(g) && SolidArcs(g)[e] == g[e]
  {
  }

  lemma LoseNothing(g: Arcs, back: set<Edge>, entry: Vertex)
    requires forall e | e in g && Possible(e) && !e.kind.FunctionCall?
                         && Reaches(WithoutCalls(FollowedArcs(g, back)), entry, g[e].src) ::
               Reaches(WithoutCalls(FollowedArcs(g, back)), entry, g[e].dst)
    ensures MarksLoseNothing(g, back, entry)
  {
  }
}
