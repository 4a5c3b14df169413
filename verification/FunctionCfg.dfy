/** Printing a function's control flow graph: which edges the topological visit takes, and whether the number of
    in-edges it waits for is the number of those. */
module FunctionCfg {
  import opened Basics
  import opened Walks
  import opened Graphs
  import opened CallStacks
  import opened DepthFirst
  import opened PropertyMaps
  import opened Kahn
  import opened ControlFlowGraphs
  import opened Entries
  import opened TightLoops
  import opened InDegrees

  /** The visitor's filter. The frames are those of its call stack; the flag says whether the call that was discovered
      last would have been recursive. */
  predicate ExamineEdge(g: Arcs, back: set<Edge>, frames: seq<Frame>, lastDiscoveredVertexIsRecursive: bool, e: Edge)
    requires e in g
  {
    if g[e].src == g[e].dst then false
    else if e in back then false
    else if e.kind.Return? && frames != [] && Top(frames).call.None? then false
    else if e.kind.Return? && frames != [] && e.kind.call != Top(frames).call.value then false
    else if g[e].src.statement.CallResolved? && lastDiscoveredVertexIsRecursive && e.kind.FunctionCall? then false
    else if g[e].src.statement.CallResolved? && !lastDiscoveredVertexIsRecursive && e.kind.Fallthrough? then false
    else true
  }

  /** Within one function without resolved calls the filter has no memory. */
  function Examined(g: Arcs, back: set<Edge>): Edge -> bool
  {
    (e: Edge) => e in g && g[e].src != g[e].dst && e !in back
  }

  ghost predicate NoCallsAtAll(g: Arcs)
  {
    forall e | e in g :: !e.kind.FunctionCall? && !e.kind.Return? && !g[e].src.statement.CallResolved?
  }

  lemma FilterWithoutMemory(g: Arcs, back: set<Edge>, frames: seq<Frame>, lastDiscoveredVertexIsRecursive: bool,
                            e: Edge)
    requires NoCallsAtAll(g) && e in g
    ensures ExamineEdge(g, back, frames, lastDiscoveredVertexIsRecursive, e) <==> Examined(g, back)(e)
  {
  }

  /** Printing takes one way on from a resolved call: into the function, unless that would be recursion, or past it. */
  lemma CallTakesOneWay(g: Arcs, back: set<Edge>, frames: seq<Frame>, recursive: bool, call: Edge, past: Edge)
    requires call in g && call.kind.FunctionCall? && g[call].src != g[call].dst && call !in back
    requires past in g && past.kind.Fallthrough? && g[past].src != g[past].dst && past !in back
    requires g[call].src.statement.CallResolved? && g[past].src == g[call].src
    ensures ExamineEdge(g, back, frames, recursive, call) <==> !recursive
    ensures ExamineEdge(g, back, frames, recursive, past) <==> recursive
  {
  }

  /** A return is taken by the frame that its call pushed, and by no other. */
  lemma ReturnTakenByItsFrame(g: Arcs, back: set<Edge>, frames: seq<Frame>, recursive: bool, e: Edge)
    requires e in g && e.kind.Return? && g[e].src != g[e].dst && e !in back && frames != []
    ensures ExamineEdge(g, back, frames, recursive, e) <==> frames[|frames| - 1].call == Some(e.kind.call)
  {
  }

  /** What the original's in-degree functor returns where there are no calls: see `FilteredInDegree`. */
  ghost function WaitsFor(g: Arcs, v: Vertex): int
    reads g.Keys`isBackEdge
  {
    |NotReturns(Counted(g, v, false))|
  }

  ghost predicate UnmarkedSelfEdge(g: Arcs, back: set<Edge>, v: Vertex)
  {
    exists e :: e in g && g[e] == Arc(v, v) && e !in back
  }

  /** The functor counts a self edge that is not marked, but the filter skips it: exactly then a vertex waits for more
      in-edges than will ever be taken. */
  lemma WaitsForWhatIsTaken(g: Arcs, back: set<Edge>, v: Vertex)
    requires NoCallsAtAll(g) && MarkedAre(g.Keys, back)
    ensures WaitsFor(g, v) == |In(Permitted(g, Examined(g, back)), v)| <==> !UnmarkedSelfEdge(g, back, v)
    ensures WaitsFor(g, v) >= |In(Permitted(g, Examined(g, back)), v)|
  {
    var waits, taken := NotReturns(Counted(g, v, false)), In(Permitted(g, Examined(g, back)), v);
    assert taken <= waits;
    SubsetSize(taken, waits);
    if UnmarkedSelfEdge(g, back, v) {
      var e :| e in g && g[e] == Arc(v, v) && e !in back;
      assert e in waits && e !in taken;
    } else {
      forall e | e in waits ensures e in taken {
        assert g[e] != Arc(v, v);
      }
      assert waits == taken;
    }
  }

  /** The visit of a newly created graph, from the self edge of ENTRY, waits for the edges that the functor counts. */
  ghost predicate Printing(r: Record, need: Vertex -> int)
    reads r.final.Keys`isBackEdge
  {
    && NoCallsAtAll(r.final) && MarkedAre(r.final.Keys, r.marked)
    && forall e | e in r.final :: need(r.final[e].dst) == WaitsFor(r.final, r.final[e].dst)
  }

  ghost function Taking(r: Record): Arcs
  {
    Permitted(r.final, Examined(r.final, r.marked))
  }

  lemma WaitsExactly(r: Record, need: Vertex -> int, e: Edge)
    requires Printing(r, need) && e in r.final
    ensures need(r.final[e].dst) >= |In(Taking(r), r.final[e].dst)|
    ensures AsksExactly(Taking(r), need, r.final[e].dst) <==> !UnmarkedSelfEdge(r.final, r.marked, r.final[e].dst)
  {
    hide NoCallsAtAll, MarkedAre, UnmarkedSelfEdge, WaitsFor;
    WaitsForWhatIsTaken(r.final, r.marked, r.final[e].dst);
  }

  /** The topological visit of a newly created graph can start with the self edge of ENTRY. */
  lemma VisitCanStart(r: Record, need: Vertex -> int)
    requires Created(r) && Printing(r, need)
    ensures r.entrySelf in r.final && r.c.at != [] && r.final[r.entrySelf].dst == r.c.at[0]
    ensures In(Taking(r), r.final[r.entrySelf].dst) == {} && DefaultsOk(Taking(r), need)
  {
    hide Created, Printing;
    EntryOnlySelfEdge(r);
    assert In(Taking(r), r.c.at[0]) <= In(r.final, r.c.at[0]) && r.entrySelf !in Taking(r);
    forall e | e in Taking(r) ensures need(Taking(r)[e].dst) >= |In(Taking(r), Taking(r)[e].dst)| {
      WaitsExactly(r, need, e);
    }
  }

  /** Self edges aside, the edges taken are those without a mark. */
  lemma TakingIs(r: Record, reach: set<Vertex>)
    ensures Subgraph(FromWithin(Taking(r), reach), FromWithin(r.final - r.marked, reach))
    ensures (forall e | e in r.final - r.marked && r.final[e].src in reach :: r.final[e].src != r.final[e].dst) ==>
              FromWithin(Taking(r), reach) == FromWithin(r.final - r.marked, reach)
  {
  }

  lemma SelfEdgesWaitedFor(r: Record, need: Vertex -> int, reach: set<Vertex>, e: Edge)
    requires Created(r) && Printing(r, need) && AllAskExactly(Taking(r), need, reach)
    requires r.c.at != [] && ReachableFrom(Taking(r), r.c.at[0], reach)
    requires e in r.final - r.marked && r.final[e].src in reach
    ensures r.final[e].src != r.final[e].dst
  {
    hide Created, Printing, IsWalk, Closed;
    var v := r.final[e].src;
    if r.final[e].dst == v {
      assert r.final[e] == Arc(v, v) && e !in r.marked;
      assert UnmarkedSelfEdge(r.final, r.marked, v);
      EntryOnlySelfEdge(r);
      assert e in In(r.final, v);
      assert Reaches(Taking(r), r.c.at[0], v);
      var w: seq<Edge> :| IsWalk(Taking(r), r.c.at[0], w, v);
      var x := LastStep(Taking(r), r.c.at[0], w, v);
      assert AsksExactly(Taking(r), need, Taking(r)[x].dst);
      WaitsExactly(r, need, e);
    }
  }

  lemma NoSelfEdges(g: Arcs, e: Edge)
    requires Acyclic(g) && e in g
    ensures g[e].src != g[e].dst
  {
    ReachesRefl(g, g[e].src);
  }

  lemma AcyclicPart(g: Arcs, h: Arcs)
    requires Subgraph(g, h) && Acyclic(h)
    ensures Acyclic(g)
  {
    hide Reaches;
    forall e | e in g ensures !Reaches(g, g[e].dst, g[e].src) {
      if Reaches(g, g[e].dst, g[e].src) {
        ReachesMonotone(g, h, g[e].dst, g[e].src);
      }
    }
  }

  /** No unmarked cycle, self edges included, is what it takes for all edges to come that are waited for. */
  lemma UnmarkedCycles(r: Record, need: Vertex -> int, reach: set<Vertex>)
    requires Created(r) && Printing(r, need) && r.c.at != [] && ReachableFrom(Taking(r), r.c.at[0], reach)
    ensures Acyclic(FromWithin(Taking(r), reach)) && AllAskExactly(Taking(r), need, reach) <==>
            Acyclic(FromWithin(r.final - r.marked, reach))
  {
    hide Created, Printing, Acyclic, ReachableFrom, AllAskExactly;
    TakingIs(r, reach);
    if Acyclic(FromWithin(Taking(r), reach)) && AllAskExactly(Taking(r), need, reach) {
      forall e | e in r.final - r.marked && r.final[e].src in reach ensures r.final[e].src != r.final[e].dst {
        SelfEdgesWaitedFor(r, need, reach, e);
      }
    }
    if Acyclic(FromWithin(r.final - r.marked, reach)) {
      AcyclicPart(FromWithin(Taking(r), reach), FromWithin(r.final - r.marked, reach));
      UnmarkedAreExact(r, need, reach);
    }
  }

  lemma UnmarkedAreExact(r: Record, need: Vertex -> int, reach: set<Vertex>)
    requires Printing(r, need) && Acyclic(FromWithin(r.final - r.marked, reach))
    ensures AllAskExactly(Taking(r), need, reach)
  {
    hide Printing, Acyclic, AsksExactly;
    var g: Arcs := FromWithin(r.final - r.marked, reach);
    forall e | e in Taking(r) && Taking(r)[e].dst in reach ensures AsksExactly(Taking(r), need, Taking(r)[e].dst) {
      WaitsExactly(r, need, e);
      if UnmarkedSelfEdge(r.final, r.marked, r.final[e].dst) {
        var x :| x in r.final && r.final[x] == Arc(r.final[e].dst, r.final[e].dst) && x !in r.marked;
        NoSelfEdges(g, x);
      }
    }
  }

  /** Printing a newly created graph visits nothing that cannot be reached; and all that can, if and only if the edges
      without a mark have no cycle there, self edges included, and none enters it from elsewhere. */
  lemma PrintsAllExactly(r: Record, need: Vertex -> int, order: seq<Edge>, reach: set<Vertex>)
    requires Created(r) && Printing(r, need) && VisitedWell(r.final, Taking(r), need, r.entrySelf, order)
    requires r.c.at != [] && ReachableFrom(Taking(r), r.c.at[0], reach)
    ensures VisitedSet(r.final, order) <= reach
    ensures VisitedSet(r.final, order) == reach <==>
            Acyclic(FromWithin(r.final - r.marked, reach)) && NoWayInto(Taking(r), reach)
  {
    hide *;
    VisitCanStart(r, need);
    TakingSubgraph(r);
    VisitsAllExactly(r.final, Taking(r), need, r.entrySelf, order, reach);
    UnmarkedCycles(r, need, reach);
  }

  lemma TakingSubgraph(r: Record)
    ensures Subgraph(Taking(r), r.final)
  {
  }

  /** Prints the graph of a new function: the visit from its entry self edge, with a map whose default is the
      functor. */
  method PrintControlFlowGraph(g: Arcs, entrySelf: Edge, back: set<Edge>, need: Vertex -> int, ghost r: Record,
                               ghost reach: set<Vertex>)
    returns (order: seq<Edge>)
    requires g == r.final && entrySelf == r.entrySelf && back == r.marked && Printing(r, need)
    requires r.c.at != [] && ReachableFrom(Taking(r), r.c.at[0], reach) && Created(r)
    ensures VisitedWell(g, Taking(r), need, entrySelf, order) && VisitedSet(g, order) <= reach
    ensures VisitedSet(g, order) == reach <==>
            Acyclic(FromWithin(g - back, reach)) && NoWayInto(Taking(r), reach)
  {
    hide Created, Printing, VisitedWell, LeftOver, DefaultsOk, ReachableFrom, Acyclic, NoWayInto, FromWithin;
    VisitCanStart(r, need);
    var remainingInDegreeMap := new SparsePropertyMap(0, need);
    assert Taking(r) == Permitted(g, Examined(g, back));
    order := TopologicalVisitKahn(g, entrySelf, Examined(g, back), remainingInDegreeMap);
    PrintsAllExactly(r, need, order, reach);
  }

  /** The list `L: goto L`: its label can be reached, but the visit waits for it in vain, whatever the order of all
      searches and sets. */
  lemma LoopNeverPrinted(r: Record, need: Vertex -> int, order: seq<Edge>, reach: set<Vertex>)
    requires MarkedAre(r.final.Keys, r.marked)
    requires forall e | e in r.final :: need(r.final[e].dst) == WaitsFor(r.final, r.final[e].dst)
    requires VisitedWell(r.final, Taking(r), need, r.entrySelf, order)
    requires r.c.at != [] && ReachableFrom(Taking(r), r.c.at[0], reach)
    requires IsLoop(r.c.prog) && Created(r)
    ensures |r.c.at| == 4 && r.c.at[1] in reach && r.c.at[1] !in VisitedSet(r.final, order)
  {
    hide *;
    LoopLosesItsMark(r);
    LoopHasNoCalls(r);
    forall e | e in r.final
      ensures !e.kind.FunctionCall? && !e.kind.Return? && !r.final[e].src.statement.CallResolved?
    {
      NewEdgeKinds(r, e);
    }
    ItIsPrinting(r, need);
    VisitCanStart(r, need);
    LoopStarves(r, need, order, reach);
  }

  lemma ItIsPrinting(r: Record, need: Vertex -> int)
    requires MarkedAre(r.final.Keys, r.marked)
    requires forall e | e in r.final :: need(r.final[e].dst) == WaitsFor(r.final, r.final[e].dst)
    requires forall e | e in r.final ::
               !e.kind.FunctionCall? && !e.kind.Return? && !r.final[e].src.statement.CallResolved?
    ensures Printing(r, need)
  {
  }

  lemma LoopStarves(r: Record, need: Vertex -> int, order: seq<Edge>, reach: set<Vertex>)
    requires LoopLost(r) && Printing(r, need) && VisitedWell(r.final, Taking(r), need, r.entrySelf, order)
    requires r.c.at != [] && ReachableFrom(Taking(r), r.c.at[0], reach)
    requires r.entrySelf in r.final && r.final[r.entrySelf].dst == r.c.at[0]
    ensures |r.c.at| == 4 && r.c.at[1] in reach && r.c.at[1] !in VisitedSet(r.final, order)
  {
    hide Printing, InOrder, Ready, Reaches;
    var e0 :| e0 in r.final && e0 !in r.marked && r.final[e0] == Arc(r.c.at[0], r.c.at[1]);
    var e1 :| e1 in r.final && e1 !in r.marked && r.final[e1] == Arc(r.c.at[1], r.c.at[1]);
    assert e0 in Taking(r) && Taking(r)[e0] == r.final[e0];
    WaitsExactly(r, need, e1);
    assert UnmarkedSelfEdge(r.final, r.marked, r.c.at[1]);
    WaitsForEver(r.final, Taking(r), need, r.entrySelf, order, r.c.at[1]);
  }
}
