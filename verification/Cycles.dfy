/** Which cycles a created graph has without its marked edges. */
module Cycles {
  import opened Basics
  import opened Walks
  import opened Graphs
  import opened Programs
  import opened Construction
  import opened Creation
  import opened BackEdges
  import opened Contraction
  import opened CfgAlgs
  import opened ControlFlowGraphs
  import opened Meaning
  import opened Entries

  // ----- Before contraction -----

  /** Only patches leave a vertex that is no longer in the list, and they go down the list. */
  lemma OnlyPatchesLeave(r: Record, e: Edge, p: nat)
    requires Created(r) && e in r.drawn && p < |r.orig| && r.drawn[e].src == r.orig[p]
    requires r.orig[p] !in Elements(r.c.at)
    ensures p + 1 < |r.orig| && r.drawn[e].dst == r.orig[p + 1]
  {
    hide *;
    CreatedDrawn(r);
    DrawnLinked(r.c, r.orig, r.drawn, r.entrySelf, r.exitSelf);
    DrawnStatements(r.c, r.orig, r.drawn, r.entrySelf, r.exitSelf);
    if e in r.c.g {
      DrawnSubgraph(r.c, r.orig, r.drawn, r.entrySelf, r.exitSelf);
      SubgraphAt(r.c.g, r.drawn, e);
      SourceListed(r.c, e);
    } else {
      var n := PatchOrListed(r.c, r.orig, r.drawn, r.entrySelf, r.exitSelf, e);
      OrigDiffer(r.c.prog, r.orig, p, n);
    }
  }

  lemma SourceListed(c: Building, e: Edge)
    requires c.Ok() && e in c.g
    ensures c.g[e].src in Elements(c.at)
  {
    hide Building.Ok;
    WaysHaveKinds(c, e);
    assert c.at[c.slots[e].pos] in c.at;
  }

  lemma PatchOrListed(c: Building, orig: seq<Vertex>, g: Arcs, entrySelf: Edge, exitSelf: Edge,
                      e: Edge) returns (p: nat)
    requires Drawn(c, orig, g, entrySelf, exitSelf) && e in g && e !in c.g && g[e].src !in Elements(c.at)
    ensures p + 1 < |orig| && g[e] == Arc(orig[p], orig[p + 1])
  {
    hide Linked, Placed, StatementsAt, LeftWithoutWayIn, IsFlow;
    assert |c.at| == |c.prog| + 2;
    assert c.at[0] in c.at && c.at[|c.prog| + 1] in c.at;
    assert IsPatchIn(c, orig, g, e);
    var q :| 0 < q <= |c.prog| && q < |orig| && IsFlow(c.prog, q - 1) && g[e] == Arc(orig[q - 1], orig[q]);
    p := q - 1;
  }

  lemma CreatedFound(r: Record)
    requires Created(r)
    ensures Elements(r.c.at) <= r.t.path.Keys && Closed(r.drawn, r.t.path.Keys) && r.marked <= r.drawn.Keys
    ensures Acyclic(FromWithin(r.drawn - r.marked, r.t.path.Keys))
  {
    hide Drawn, ProxiesOk, Contracted, OneWayIn, DegreesKept, RedundantIn, Acyclic, Reaches, Closed;
  }

  lemma CreatedCloses(r: Record, b: Edge)
    requires Created(r) && b in r.marked
    ensures b in r.drawn && Reaches(r.drawn - r.marked, r.drawn[b].dst, r.drawn[b].src)
  {
    hide Drawn, ProxiesOk, Contracted, OneWayIn, DegreesKept, RedundantIn, Acyclic, Reaches, Closed;
  }

  /** A walk between vertices that the search did not find goes down the list. */
  lemma {:induction false} OutsideWalk(r: Record, p: nat, w: seq<Edge>, q: nat)
    requires Created(r) && p < |r.orig| && q < |r.orig|
    requires r.orig[q] !in r.t.path.Keys && IsWalk(r.drawn, r.orig[p], w, r.orig[q])
    ensures p <= q
    decreases |w|
  {
    hide Created, Closed;
    CreatedFound(r);
    if w == [] {
      PlacesOf(r, p, q);
    } else {
      if r.orig[p] in r.t.path.Keys {
        ClosedWalk(r.drawn, r.t.path.Keys, r.orig[p], w, r.orig[q]);
      }
      OnlyPatchesLeave(r, w[0], p);
      OutsideWalk(r, p + 1, w[1..], q);
    }
  }

  lemma PlacesOf(r: Record, p: nat, q: nat)
    requires Created(r) && p < |r.orig| && q < |r.orig| && r.orig[p] == r.orig[q]
    ensures p == q
  {
    hide *;
    CreatedDrawn(r);
    DrawnStatements(r.c, r.orig, r.drawn, r.entrySelf, r.exitSelf);
    OrigDiffer(r.c.prog, r.orig, p, q);
  }

  lemma EdgeLeavesSome(r: Record, e: Edge) returns (p: nat)
    requires Created(r) && e in r.drawn && r.drawn[e].src !in r.t.path.Keys
    ensures p + 1 < |r.orig| && r.drawn[e] == Arc(r.orig[p], r.orig[p + 1])
  {
    hide *;
    CreatedDrawn(r);
    CreatedFound(r);
    DrawnLinked(r.c, r.orig, r.drawn, r.entrySelf, r.exitSelf);
    if e in r.c.g {
      DrawnSubgraph(r.c, r.orig, r.drawn, r.entrySelf, r.exitSelf);
      SubgraphAt(r.c.g, r.drawn, e);
      SourceListed(r.c, e);
    }
    p := PatchOrListed(r.c, r.orig, r.drawn, r.entrySelf, r.exitSelf, e);
  }

  lemma {:induction false} WithinFound(g: Arcs, found: set<Vertex>, s: Vertex, w: seq<Edge>, t: Vertex)
    requires Closed(g, found) && s in found && IsWalk(g, s, w, t)
    ensures IsWalk(FromWithin(g, found), s, w, t)
  {
    if w != [] {
      WithinFound(g, found, g[w[0]].dst, w[1..], t);
    }
  }

  /** Without the marked edges there is no cycle at all, also not through jumps that were replaced. */
  lemma DrawnAcyclic(r: Record)
    requires Created(r)
    ensures Acyclic(r.drawn - r.marked)
  {
    hide Created, Closed, IsWalk;
    var g: Arcs, found := r.drawn - r.marked, r.t.path.Keys;
    CreatedFound(r);
    assert Closed(g, found) by {
      FewerClosed(r.drawn, r.marked, found);
    }
    forall e | e in g ensures !Reaches(g, g[e].dst, g[e].src) {
      if Reaches(g, g[e].dst, g[e].src) {
        var w: seq<Edge> :| IsWalk(g, g[e].dst, w, g[e].src);
        NoCycleThrough(r, e, w);
      }
    }
  }

  lemma FewerClosed(g: Arcs, marked: set<Edge>, found: set<Vertex>)
    requires Closed(g, found)
    ensures Closed(g - marked, found)
  {
  }

  lemma NoCycleThrough(r: Record, e: Edge, w: seq<Edge>)
    requires Created(r) && e in r.drawn - r.marked
    ensures !IsWalk(r.drawn - r.marked, r.drawn[e].dst, w, r.drawn[e].src)
  {
    hide Created, Closed, IsWalk;
    var g: Arcs, found := r.drawn - r.marked, r.t.path.Keys;
    CreatedFound(r);
    FewerClosed(r.drawn, r.marked, found);
    if IsWalk(g, g[e].dst, w, g[e].src) {
      if g[e].src in found {
        NoCycleWithin(g, found, e, w);
      } else {
        var p := EdgeLeavesSome(r, e);
        WalkMonotone(g, r.drawn, g[e].dst, w, g[e].src);
        OutsideWalk(r, p + 1, w, p);
      }
    }
  }

  lemma NoCycleWithin(g: Arcs, found: set<Vertex>, e: Edge, w: seq<Edge>)
    requires Closed(g, found) && Acyclic(FromWithin(g, found)) && e in g && g[e].src in found
    ensures !IsWalk(g, g[e].dst, w, g[e].src)
  {
    hide IsWalk;
    if IsWalk(g, g[e].dst, w, g[e].src) {
      var h: Arcs := FromWithin(g, found);
      assert g[e].dst in found && e in h && h[e] == g[e];
      WithinFound(g, found, g[e].dst, w, g[e].src);
      Reached(h, g[e].dst, w, g[e].src);
    }
  }

  // ----- After contraction -----

  /** The edge `b` was marked, and its mark went with it when its source was contracted. */
  ghost predicate LostMark(r: Record, b: Edge)
  {
    b in r.marked && b in Dropped(r.proxied, r.final)
  }

  /** The source of `d` is a vertex that is still there, and it reaches the source of `b`. */
  ghost predicate LeadsTo(r: Record, d: Edge, b: Edge)
  {
    d in r.drawn && r.drawn[d].src !in r.gone && b in r.drawn && Reaches(r.drawn, r.drawn[d].src, r.drawn[b].src)
  }

  /** The finished graph without its proxies. */
  ghost function FinalDrawn(r: Record): Arcs
  {
    Only(r.final, r.drawn.Keys)
  }

  lemma DrawnContracted(r: Record)
    requires Created(r)
    ensures Contracted(r.drawn, FinalDrawn(r), r.gone, r.chain)
    ensures Dropped(r.drawn, FinalDrawn(r)) == Dropped(r.proxied, r.final)
    ensures Subgraph(r.drawn, r.proxied)
  {
    hide *;
    CreatedDrawn(r);
    DroppedSolid(r);
    SolidDrawn(r.drawn, r.proxied);
    ContractedWithin(r.proxied, r.final, r.gone, r.chain, r.drawn.Keys);
    OnlyDrawn(r.drawn, r.proxied);
    FinalDrawnIs(r);
  }

  lemma FinalDrawnIs(r: Record)
    ensures FinalDrawn(r) == Only(r.final, r.drawn.Keys)
  {
  }

  lemma SolidDrawn(g: Arcs, h: Arcs)
    requires Subgraph(g, h) && forall e | e in h.Keys - g.Keys :: e.kind.Impossible?
    ensures Solid(h) <= g.Keys
  {
  }

  lemma OnlyDrawn(g: Arcs, h: Arcs)
    requires Subgraph(g, h)
    ensures Only(h, g.Keys) == g
  {
  }

  /** The edges that are not marked, or were marked in vain. */
  ghost function UnmarkedInTheEnd(r: Record): Arcs
  {
    r.drawn - (r.marked - Dropped(r.proxied, r.final))
  }

  /** A cycle that is left without its marked edges passes a dropped edge that was marked. */
  lemma CycleLostMark(r: Record, d: Edge) returns (b: Edge)
    requires Created(r)
    requires var h := UnmarkedInTheEnd(r);
             d in h && h[d].src !in r.gone && Reaches(h, h[d].dst, h[d].src)
    ensures LostMark(r, b) && LeadsTo(r, d, b)
  {
    hide Created, Dropped, IsWalk, Reaches;
    DrawnAcyclic(r);
    var h: Arcs, u := UnmarkedInTheEnd(r), r.drawn[d].src;
    var w: seq<Edge> := WalkOf(h, h[d].dst, u);
    var c := [d] + w;
    ConsWalk(h, u, d, h[d].dst, w, u);
    if forall x | x in c :: x !in r.marked {
      WalkMonotone(h, r.drawn - r.marked, h[d].dst, w, u);
      Reached(r.drawn - r.marked, h[d].dst, w, u);
      b := d;
    } else {
      b :| b in c && b in r.marked;
      var i :| 0 <= i < |c| && c[i] == b;
      WalkInGraph(h, u, c, u);
      var c' := Rotate(h, u, c, i);
      ReachesMonotone(h, r.drawn, u, h[b].src);
    }
  }

  lemma Reached(g: Arcs, s: Vertex, w: seq<Edge>, t: Vertex)
    requires IsWalk(g, s, w, t)
    ensures Reaches(g, s, t)
  {
  }

  /** A lost mark that a vertex still there leads to leaves a cycle unmarked. */
  lemma LostMarkLeavesCycle(r: Record, b: Edge, d: Edge) returns (e: Edge)
    requires Created(r) && LostMark(r, b) && LeadsTo(r, d, b)
    ensures var h := UnmarkedInTheEnd(r);
            e in h && h[e].src !in r.gone && Reaches(h, h[e].dst, h[e].src)
  {
    hide Created, Dropped, IsWalk, Reaches, OneWayIn;
    CreatedCloses(r, b);
    var h: Arcs, v := UnmarkedInTheEnd(r), r.drawn[b].src;
    ReachesMonotone(r.drawn - r.marked, h, h[b].dst, v);
    var w: seq<Edge> := WalkOf(h, h[b].dst, v);
    var c := [b] + w;
    ConsWalk(h, v, b, h[b].dst, w, v);
    WalkInGraph(h, v, c, v);
    if forall x | x in c :: h[x].src in r.gone {
      NotAllGone(r, d, v, c, h);
      e := b;
    } else {
      e :| e in c && h[e].src !in r.gone;
      var i :| 0 <= i < |c| && c[i] == e;
      var c' := Rotate(h, v, c, i);
      BackToStart(h, e, c');
    }
  }

  lemma BackToStart(g: Arcs, e: Edge, c: seq<Edge>)
    requires e in g && c != [] && c[0] == e && IsWalk(g, g[e].src, c, g[e].src)
    ensures Reaches(g, g[e].dst, g[e].src)
  {
    assert IsWalk(g, g[e].dst, c[1..], g[e].src);
  }

  lemma NotAllGone(r: Record, d: Edge, v: Vertex, c: seq<Edge>, h: Arcs)
    requires Created(r) && Subgraph(h, r.drawn) && c != [] && IsWalk(h, v, c, v)
    requires forall x | x in c :: x in h && h[x].src in r.gone
    requires d in r.drawn && Reaches(r.drawn, r.drawn[d].src, v)
    ensures r.drawn[d].src in r.gone
  {
    hide *;
    CreatedDrawn(r);
    CreatedOneWayIn(r);
    ReachesMonotone(r.drawn, r.proxied, r.drawn[d].src, v);
    SubgraphTwice(h, r.drawn, r.proxied);
    GoneCycleIn(h, r.proxied, r.gone, r.drawn[d].src, v, c);
  }

  lemma SubgraphTwice(g: Arcs, h: Arcs, k: Arcs)
    requires Subgraph(g, h) && Subgraph(h, k)
    ensures Subgraph(g, k)
  {
  }

  lemma GoneCycleIn(h: Arcs, g: Arcs, gone: set<Vertex>, s: Vertex, v: Vertex, c: seq<Edge>)
    requires Subgraph(h, g) && OneWayIn(g, gone) && Reaches(g, s, v) && c != [] && IsWalk(h, v, c, v)
    requires forall x | x in c :: x in h && h[x].src in gone
    ensures s in gone
  {
    hide IsWalk, OneWayIn, Reaches;
    WalkMonotone(h, g, v, c, v);
    var p: seq<Edge> := WalkOf(g, s, v);
    NoWayIn(g, gone, s, p, v, c);
  }

  lemma CreatedOneWayIn(r: Record)
    requires Created(r)
    ensures OneWayIn(r.proxied, r.gone)
  {
    hide Drawn, ProxiesOk, Contracted, WellMarked, OneWayIn, DegreesKept, RedundantIn;
  }

  /** The finished graph has a cycle without its marked edges if and only if a marked edge was dropped whose source a
      vertex that is still there could reach. */
  lemma FinalAcyclicExactly(r: Record)
    requires Created(r)
    ensures Acyclic(FinalDrawn(r) - r.marked) <==>
            forall b, d | b in r.marked && d in r.drawn :: !(LostMark(r, b) && LeadsTo(r, d, b))
  {
    hide Created, Dropped, IsWalk, Reaches, LostMark, LeadsTo, Acyclic, FinalDrawn, Contracted;
    DrawnContracted(r);
    var h: Arcs := UnmarkedInTheEnd(r);
    AcyclicExactly(r.drawn, FinalDrawn(r), r.gone, r.chain, r.marked);
    assert h == r.drawn - (r.marked - Dropped(r.drawn, FinalDrawn(r)));
    forall d | d in h && h[d].src !in r.gone && Reaches(h, h[d].dst, h[d].src)
      ensures exists b :: b in r.marked && LostMark(r, b) && LeadsTo(r, d, b)
    {
      var b := CycleLostMark(r, d);
      LostMeans(r, b);
    }
    forall b, d | b in r.marked && d in r.drawn && LostMark(r, b) && LeadsTo(r, d, b)
      ensures exists e :: e in h && h[e].src !in r.gone && Reaches(h, h[e].dst, h[e].src)
    {
      var e := LostMarkLeavesCycle(r, b, d);
    }
  }

  lemma LostMeans(r: Record, b: Edge)
    requires LostMark(r, b)
    ensures b in r.marked && b in r.proxied && b !in r.final
  {
  }

  /** A mark is only lost where there was no proxy to add: going up the tree path from the source of the edge to its
      target, the search saw no decision vertex, or one with a single way out. */
  lemma LostMarkNoDecision(r: Record, b: Edge)
    requires Created(r) && LostMark(r, b)
    ensures b in r.drawn && r.drawn[b].src in r.t.path && r.drawn[b].dst in r.t.path
    ensures InGraph(r.drawn, r.t.path[r.drawn[b].src])
    ensures r.drawn[b].src != r.drawn[b].dst ==>
              IsForwardTarget(r.drawn, r.t.path[r.drawn[b].src], |r.t.path[r.drawn[b].dst]|, None)
  {
    hide *;
    LostMeans(r, b);
    ProxyOrNone(r, b);
    LostIsGone(r, b);
    NoWayOutLeft(r.drawn, r.proxied, r.t.path, b);
  }

  lemma NoWayOutLeft(g: Arcs, h: Arcs, path: map<Vertex, seq<Edge>>, b: Edge)
    requires ProxyOrNoWayOut(g, h, path, b) && (b in g ==> Out(h, g[b].src) == {b})
    ensures b in g && g[b].src in path && g[b].dst in path && InGraph(g, path[g[b].src])
    ensures g[b].src != g[b].dst ==> IsForwardTarget(g, path[g[b].src], |path[g[b].dst]|, None)
  {
  }

  lemma ProxyOrNone(r: Record, b: Edge)
    requires Created(r) && b in r.marked
    ensures ProxyOrNoWayOut(r.drawn, r.proxied, r.t.path, b)
  {
    hide Drawn, WellMarked, Contracted, OneWayIn, DegreesKept, RedundantIn, ProxyOrNoWayOut, IsProxy;
  }

  lemma LostIsGone(r: Record, b: Edge)
    requires Created(r) && LostMark(r, b)
    ensures b in r.drawn ==> Out(r.proxied, r.drawn[b].src) == {b}
  {
    hide *;
    CreatedDrawn(r);
    LostMeans(r, b);
    SurvivingEdges(r.proxied, r.final, r.gone, r.chain);
    if b in r.drawn {
      SubgraphAt(r.drawn, r.proxied, b);
      var p := RedundantHasOne(r.proxied, r.c.at, r.proxied[b].src);
      OutMeans(r.proxied, r.proxied[b].src, b);
      SingletonIs(Out(r.proxied, r.proxied[b].src), b);
    }
  }

  lemma RedundantHasOne(g: Arcs, at: seq<Vertex>, v: Vertex) returns (p: nat)
    requires v in RedundantIn(g, Elements(at))
    ensures |Out(g, v)| == 1
  {
    p := RedundantAt(g, at, v);
  }
}
