/** The interprocedural depth-first traversal and the reachability visitor it drives.
    Iteration over out-edges is in no particular order: an entry of the search stack holds the set of
    out-edges not looked at yet, and the next one is any of them. */
module Traversals {
  import opened Basics
  import opened Walks
  import opened Graphs
  import opened CallStacks
  import opened Looks

  datatype VertexReturn = Continue | TerminateSearch

  /** Edges the reachability visitor lets through. */
  predicate Usable(e: Edge, back: set<Edge>)
  {
    !e.kind.Impossible? && e !in back
  }

  /** The usable edges that are taken whatever the call stack holds. */
  predicate Followed(e: Edge, back: set<Edge>)
  {
    Usable(e, back) && !e.kind.Return? && !e.kind.FunctionCallBypass?
  }

  function UsableArcs(g: Arcs, back: set<Edge>): Arcs
  {
    map e | e in g && Usable(e, back) :: g[e]
  }

  function FollowedArcs(g: Arcs, back: set<Edge>): Arcs
  {
    map e | e in g && Followed(e, back) :: g[e]
  }

  /** A call edge leaves the resolved call it was made for. */
  ghost predicate CallsLeaveTheirVertex(g: Arcs)
  {
    forall e | e in g && e.kind.FunctionCall? :: e.kind.call == g[e].src && g[e].src.statement.CallResolved?
  }

  ghost predicate CallFree(g: Arcs)
  {
    forall e | e in g :: !e.kind.FunctionCall?
  }

  /** Where a reachable call returns to is reachable without taking the return edge. */
  ghost predicate ReturnsCovered(g: Arcs, back: set<Edge>, source: Vertex)
  {
    forall e | e in g && e.kind.Return? && e !in back && Reaches(FollowedArcs(g, back), source, e.kind.call) ::
      Reaches(FollowedArcs(g, back), source, g[e].dst)
  }

  class ReachabilityVisitor {
    const sink: Vertex
    const back: set<Edge>
    var predecessors: seq<Edge>

    constructor (sink: Vertex, back: set<Edge>, predecessors: seq<Edge>)
      ensures this.sink == sink && this.back == back && this.predecessors == predecessors
    {
      this.sink, this.back, this.predecessors := sink, back, predecessors;
    }

    predicate ExamineEdge(e: Edge)
    {
      Usable(e, back)
    }

    method DiscoverVertex(v: Vertex) returns (r: VertexReturn)
      ensures r.TerminateSearch? <==> v == sink
    {
      r := if v == sink then TerminateSearch else Continue;
    }

    method TreeEdge(e: Edge)
      modifies this`predecessors
      ensures predecessors == old(predecessors) + [e]
    {
      predecessors := predecessors + [e];
    }

    method FinishVertex(v: Vertex)
      requires predecessors != []
      modifies this`predecessors
      ensures predecessors == old(predecessors)[..|old(predecessors)| - 1]
    {
      predecessors := predecessors[..|predecessors| - 1];
    }
  }

  /** Colours never get ahead of discovery, whichever frame they were written to. */
  ghost predicate ColoursDiscovered(frames: seq<Frame>, discovered: set<Vertex>)
  {
    forall f, v | f in frames && v in f.colors && f.colors[v] != White :: v in discovered
  }

  ghost predicate EntriesDiscovered(g: Arcs, stack: seq<VertexInfo>, discovered: set<Vertex>)
  {
    forall i | 0 <= i < |stack| :: stack[i].v in discovered && stack[i].rest <= Out(g, stack[i].v)
  }

  /** The predecessors are the seed edge and then a chain of usable edges through the stacked vertices. */
  ghost predicate Chained(g: Arcs, back: set<Edge>, source: Vertex, seed: Edge, stack: seq<VertexInfo>,
                          predecessors: seq<Edge>)
  {
    && |predecessors| == |stack|
    && (stack != [] ==> predecessors[0] == seed && stack[0].v == source)
    && (forall i | 0 < i < |stack| ::
          && predecessors[i] in g && Usable(predecessors[i], back)
          && g[predecessors[i]].src == stack[i - 1].v && g[predecessors[i]].dst == stack[i].v)
  }

  ghost predicate Pending(stack: seq<VertexInfo>, e: Edge)
  {
    exists i :: 0 <= i < |stack| && e in stack[i].rest
  }

  /** Every followed edge out of a discovered vertex has been taken or is still to be looked at. */
  ghost predicate Covered(g: Arcs, back: set<Edge>, stack: seq<VertexInfo>, discovered: set<Vertex>)
  {
    forall e | e in g && Followed(e, back) && g[e].src in discovered ::
      g[e].dst in discovered || Pending(stack, e)
  }

  /** What holds whenever the traversal looks at an edge or leaves a vertex. */
  ghost predicate Searching(g: Arcs, back: set<Edge>, source: Vertex, seed: Edge, s: Search)
  {
    && RootedCalls(s.frames)
    && ColoursDiscovered(s.frames, s.discovered)
    && EntriesDiscovered(g, s.stack, s.discovered)
    && Chained(g, back, source, seed, s.stack, s.predecessors)
    && source in s.discovered
  }

  lemma Start(g: Arcs, back: set<Edge>, source: Vertex, seed: Edge, rest: set<Edge>, c: Color)
    requires rest <= Out(g, source)
    ensures var s := Search([VertexInfo(source, rest)], [Frame(None, map[source := c])], [seed], {source});
            && Searching(g, back, source, seed, s)
            && (rest == Out(g, source) ==> Covered(g, back, s.stack, s.discovered))
  {
    if rest == Out(g, source) {
      var stack := [VertexInfo(source, rest)];
      forall e | e in g && Followed(e, back) && g[e].src in {source} ensures Pending(stack, e) {
        assert e in stack[0].rest;
      }
    }
  }

  lemma EdgeAtHand(g: Arcs, back: set<Edge>, source: Vertex, seed: Edge, s: Search, stack: seq<VertexInfo>, u: Vertex,
                   rest: set<Edge>, e: Edge)
    requires Searching(g, back, source, seed, s) && s.stack == stack + [VertexInfo(u, rest)] && e in rest
    ensures e in g && g[e].src == u && u in s.discovered && s.frames != []
  {
    assert s.stack[|stack|] == VertexInfo(u, rest);
  }

  /** An edge that was taken, or need not be, leaves the iterator. */
  lemma AdvancePast(g: Arcs, back: set<Edge>, source: Vertex, seed: Edge, s: Search, stack: seq<VertexInfo>, u: Vertex,
                    rest: set<Edge>, e: Edge)
    requires Searching(g, back, source, seed, s) && s.stack == stack + [VertexInfo(u, rest)] && e in rest && e in g
    ensures Searching(g, back, source, seed, s.(stack := stack + [VertexInfo(u, rest - {e})]))
    ensures Covered(g, back, s.stack, s.discovered) && (Followed(e, back) ==> g[e].dst in s.discovered) ==>
              Covered(g, back, stack + [VertexInfo(u, rest - {e})], s.discovered)
  {
    var now := stack + [VertexInfo(u, rest - {e})];
    assert s.stack[|stack|] == VertexInfo(u, rest);
    forall i | 0 <= i < |stack| ensures now[i] == s.stack[i] {
    }
    forall f | Pending(s.stack, f) && f != e ensures Pending(now, f) {
      var i :| 0 <= i < |s.stack| && f in s.stack[i].rest;
      assert f in now[i].rest;
    }
  }

  lemma ChangeFrames(g: Arcs, back: set<Edge>, source: Vertex, seed: Edge, s: Search, frames: seq<Frame>)
    requires Searching(g, back, source, seed, s)
    requires || (|frames| > 0 && frames == s.frames[..|s.frames| - 1])
             || (exists f: Frame :: f.IsCall() && f.colors == map[] && frames == s.frames + [f])
    ensures Searching(g, back, source, seed, s.(frames := frames))
  {
  }

  lemma ChangeColor(g: Arcs, back: set<Edge>, source: Vertex, seed: Edge, s: Search, v: Vertex, c: Color)
    requires Searching(g, back, source, seed, s) && v in s.discovered
    ensures var top := Top(s.frames);
            Searching(g, back, source, seed,
              s.(frames := s.frames[|s.frames| - 1 := top.(colors := top.colors[v := c])]))
  {
  }

  /** A vertex that looks white in the current frame is entered, whether or not another frame has seen it. */
  lemma Descend(g: Arcs, back: set<Edge>, source: Vertex, seed: Edge, s: Search, stack: seq<VertexInfo>, u: Vertex,
                rest: set<Edge>, e: Edge)
    requires Searching(g, back, source, seed, s) && s.stack == stack + [VertexInfo(u, rest)]
    requires e in g && e in rest && g[e].src == u && Usable(e, back)
    ensures var v := g[e].dst;
            var now := stack + [VertexInfo(u, rest - {e})] + [VertexInfo(v, Out(g, v))];
            && Searching(g, back, source, seed,
                 Search(now, s.frames, s.predecessors + [e], s.discovered + {v}))
            && (Covered(g, back, s.stack, s.discovered) ==> Covered(g, back, now, s.discovered + {v}))
  {
    var v := g[e].dst;
    var below := stack + [VertexInfo(u, rest - {e})];
    var now := below + [VertexInfo(v, Out(g, v))];
    assert s.stack[|stack|] == VertexInfo(u, rest);
    forall i | 0 <= i < |stack| ensures now[i] == s.stack[i] {
    }
    assert now[|stack|] == VertexInfo(u, rest - {e}) && now[|stack| + 1] == VertexInfo(v, Out(g, v));
    if Covered(g, back, s.stack, s.discovered) {
      forall f | f in g && Followed(f, back) && g[f].src in s.discovered + {v} && g[f].dst !in s.discovered + {v}
        ensures Pending(now, f)
      {
        if g[f].src == v {
          assert f in now[|stack| + 1].rest;
        } else {
          var i :| 0 <= i < |s.stack| && f in s.stack[i].rest;
          assert f in now[i].rest;
        }
      }
    }
  }

  /** A vertex with no out-edge left is finished. */
  lemma Ascend(g: Arcs, back: set<Edge>, source: Vertex, seed: Edge, s: Search, stack: seq<VertexInfo>, u: Vertex)
    requires Searching(g, back, source, seed, s) && s.stack == stack + [VertexInfo(u, {})]
    ensures s.predecessors != [] && u in s.discovered
    ensures Searching(g, back, source, seed,
              s.(stack := stack, predecessors := s.predecessors[..|s.predecessors| - 1]))
    ensures Covered(g, back, s.stack, s.discovered) ==> Covered(g, back, stack, s.discovered)
  {
    assert s.stack[|stack|] == VertexInfo(u, {});
    forall i | 0 <= i < |stack| ensures stack[i] == s.stack[i] {
    }
    forall f | Pending(s.stack, f) ensures Pending(stack, f) {
      var i :| 0 <= i < |s.stack| && f in s.stack[i].rest;
      assert f in stack[i].rest;
    }
  }

  // ----- Everything discovered is reachable -----

  ghost predicate Justified(g: Arcs, back: set<Edge>, source: Vertex, frames: seq<Frame>, discovered: set<Vertex>)
  {
    && (forall v | v in discovered :: Reaches(FollowedArcs(g, back), source, v))
    && (forall f | f in frames && f.call.Some? :: Reaches(FollowedArcs(g, back), source, f.call.value))
  }

  lemma JustifiedStart(g: Arcs, back: set<Edge>, source: Vertex, c: Color)
    ensures Justified(g, back, source, [Frame(None, map[source := c])], {source})
  {
    ReachesRefl(FollowedArcs(g, back), source);
  }

  lemma JustifiedCall(g: Arcs, back: set<Edge>, source: Vertex, frames: seq<Frame>, discovered: set<Vertex>, e: Edge)
    requires CallsLeaveTheirVertex(g) && e in g && e.kind.FunctionCall? && g[e].src in discovered
    ensures Justified(g, back, source, frames, discovered) ==>
              Justified(g, back, source, frames + [Frame(Some(e.kind.call), map[])], discovered)
  {
  }

  lemma JustifiedFrames(g: Arcs, back: set<Edge>, source: Vertex, frames: seq<Frame>, now: seq<Frame>,
                        discovered: set<Vertex>)
    requires frames != []
    requires || now == frames[..|frames| - 1]
             || (|now| == |frames| && now[..|frames| - 1] == frames[..|frames| - 1]
                 && Top(now).call == Top(frames).call)
    ensures Justified(g, back, source, frames, discovered) ==> Justified(g, back, source, now, discovered)
  {
    if Justified(g, back, source, frames, discovered) {
      forall f | f in now && f.call.Some? ensures Reaches(FollowedArcs(g, back), source, f.call.value) {
        var i :| 0 <= i < |now| && now[i] == f;
        assert i < |frames| - 1 ==> frames[..|frames| - 1][i] == now[..|frames| - 1][i];
        assert frames[i].call == f.call && frames[i] in frames;
      }
    }
  }

  /** Both a followed edge and the return of the call on top of the stack lead somewhere reachable. */
  lemma JustifiedTarget(g: Arcs, back: set<Edge>, source: Vertex, frames: seq<Frame>, discovered: set<Vertex>, e: Edge)
    requires e in g && g[e].src in discovered && frames != []
    requires Followed(e, back) || (Usable(e, back) && e.kind.Return? && Top(frames).call == Some(e.kind.call))
    requires ReturnsCovered(g, back, source)
    ensures Justified(g, back, source, frames, discovered) ==>
              Justified(g, back, source, frames, discovered + {g[e].dst})
  {
    if Justified(g, back, source, frames, discovered) {
      if Followed(e, back) {
        ReachesStep(FollowedArcs(g, back), source, e);
      } else {
        assert Top(frames) in frames;
      }
    }
  }

  // ----- Without calls, every edge is looked at no more than once -----

  ghost predicate LookedAtOnce(g: Arcs, s: Search, examined: set<Edge>)
  {
    && |s.frames| == 1
    && (forall v | v in s.discovered :: ColorOf(s.frames[0], v) != White)
    && (forall i, j | 0 <= i < j < |s.stack| :: s.stack[i].v != s.stack[j].v)
    && (forall e | e in examined :: e in g && g[e].src in s.discovered)
    && (forall i | 0 <= i < |s.stack| :: s.stack[i].rest !! examined)
  }

  lemma OnceStart(g: Arcs, source: Vertex, rest: set<Edge>, seed: Edge, c: Color)
    requires c != White
    ensures LookedAtOnce(g, Search([VertexInfo(source, rest)], [Frame(None, map[source := c])], [seed], {source}), {})
  {
  }

  lemma OnceAdvance(g: Arcs, s: Search, examined: set<Edge>, stack: seq<VertexInfo>, u: Vertex, rest: set<Edge>,
                    e: Edge)
    requires s.stack == stack + [VertexInfo(u, rest)] && EntriesDiscovered(g, s.stack, s.discovered) && e in rest
    ensures LookedAtOnce(g, s, examined) ==> e !in examined
    ensures LookedAtOnce(g, s, examined) ==>
              LookedAtOnce(g, s.(stack := stack + [VertexInfo(u, rest - {e})]), examined + {e})
  {
    var now := stack + [VertexInfo(u, rest - {e})];
    assert s.stack[|stack|] == VertexInfo(u, rest);
    forall i | 0 <= i < |stack| ensures now[i] == s.stack[i] {
    }
  }

  lemma OnceDescend(g: Arcs, s: Search, examined: set<Edge>, v: Vertex, predecessors: seq<Edge>)
    requires EntriesDiscovered(g, s.stack, s.discovered)
    requires s.frames != [] && ColorOf(Top(s.frames), v) == White
    ensures var top := Top(s.frames);
            var now := Search(s.stack + [VertexInfo(v, Out(g, v))],
                              s.frames[|s.frames| - 1 := top.(colors := top.colors[v := Gray])],
                              predecessors, s.discovered + {v});
            LookedAtOnce(g, s, examined) ==> LookedAtOnce(g, now, examined)
  {
  }

  lemma OnceAscend(g: Arcs, s: Search, examined: set<Edge>, stack: seq<VertexInfo>, u: Vertex, predecessors: seq<Edge>)
    requires s.stack == stack + [VertexInfo(u, {})] && s.frames != []
    ensures var top := Top(s.frames);
            var now := Search(stack, s.frames[|s.frames| - 1 := top.(colors := top.colors[u := Black])],
                              predecessors, s.discovered);
            LookedAtOnce(g, s, examined) ==> LookedAtOnce(g, now, examined)
  {
    forall i | 0 <= i < |stack| ensures stack[i] == s.stack[i] {
    }
  }

  lemma OnceBudget(g: Arcs, examined: set<Edge>, e: Edge)
    requires examined <= g.Keys && e in g && e !in examined
    ensures |examined| < |g|
  {
    CardinalityMonotone(examined + {e}, g.Keys);
  }

  // ----- The steps of the traversal -----

  /** What holds after `looked` looks, which were at the edges `examined`. */
  ghost predicate Going(p: Problem, s: Search, examined: set<Edge>, looked: nat)
  {
    && CallsLeaveTheirVertex(p.g)
    && Searching(p.g, p.back, p.source, p.seed, s)
    && (p.source != p.sink ==> p.sink !in s.discovered && Covered(p.g, p.back, s.stack, s.discovered))
    && (p.source == p.sink ==> s.discovered == {p.source} && forall i | 0 <= i < |s.stack| :: s.stack[i].rest == {})
    && (ReturnsCovered(p.g, p.back, p.source) ==> Justified(p.g, p.back, p.source, s.frames, s.discovered))
    && (CallFree(p.g) ==> LookedAtOnce(p.g, s, examined) && |examined| == looked)
  }

  lemma GoStart(p: Problem, rest: set<Edge>)
    requires CallsLeaveTheirVertex(p.g)
    requires rest == if p.source == p.sink then {} else Out(p.g, p.source)
    ensures Going(p, Search([VertexInfo(p.source, rest)], [Frame(None, map[p.source := Gray])], [p.seed], {p.source}),
                  {}, 0)
  {
    Start(p.g, p.back, p.source, p.seed, rest, Gray);
    JustifiedStart(p.g, p.back, p.source, Gray);
    OnceStart(p.g, p.source, rest, p.seed, Gray);
  }

  lemma GoLook(p: Problem, s: Search, examined: set<Edge>, looked: nat, stack: seq<VertexInfo>, u: Vertex,
               rest: set<Edge>, e: Edge)
    requires Going(p, s, examined, looked) && s.stack == stack + [VertexInfo(u, rest)] && e in rest
    ensures e in p.g && p.g[e].src == u && u in s.discovered && p.source != p.sink && s.frames != []
    ensures CallFree(p.g) ==> looked < |p.g|
  {
    EdgeAtHand(p.g, p.back, p.source, p.seed, s, stack, u, rest, e);
    assert s.stack[|stack|] == VertexInfo(u, rest);
    if CallFree(p.g) {
      OnceAdvance(p.g, s, examined, stack, u, rest, e);
      OnceBudget(p.g, examined, e);
    }
  }

  lemma GoPast(p: Problem, s: Search, examined: set<Edge>, looked: nat, stack: seq<VertexInfo>, u: Vertex,
               rest: set<Edge>, e: Edge)
    requires Going(p, s, examined, looked) && s.stack == stack + [VertexInfo(u, rest)] && e in rest
    requires Followed(e, p.back) && e in p.g ==> p.g[e].dst in s.discovered
    ensures Going(p, s.(stack := stack + [VertexInfo(u, rest - {e})]), examined + {e}, looked + 1)
  {
    GoLook(p, s, examined, looked, stack, u, rest, e);
    AdvancePast(p.g, p.back, p.source, p.seed, s, stack, u, rest, e);
    OnceAdvance(p.g, s, examined, stack, u, rest, e);
  }

  lemma GoPush(p: Problem, s: Search, examined: set<Edge>, looked: nat, e: Edge)
    requires Going(p, s, examined, looked) && e in p.g && e.kind.FunctionCall? && p.g[e].src in s.discovered
    ensures Going(p, s.(frames := s.frames + [Frame(Some(e.kind.call), map[])]), examined, looked)
  {
    var f := Frame(Some(e.kind.call), map[]);
    assert f.IsCall();
    ChangeFrames(p.g, p.back, p.source, p.seed, s, s.frames + [f]);
    JustifiedCall(p.g, p.back, p.source, s.frames, s.discovered, e);
  }

  /** The root frame stays: only a frame pushed by a call matches a return. */
  lemma GoPop(p: Problem, s: Search, examined: set<Edge>, looked: nat, e: Edge)
    requires Going(p, s, examined, looked) && e.kind.Return? && Top(s.frames).call == Some(e.kind.call)
    ensures |s.frames| > 1 && Top(s.frames).IsCall()
    ensures Going(p, s.(frames := s.frames[..|s.frames| - 1]), examined, looked)
  {
    var frames := s.frames[..|s.frames| - 1];
    ChangeFrames(p.g, p.back, p.source, p.seed, s, frames);
    JustifiedFrames(p.g, p.back, p.source, s.frames, frames, s.discovered);
  }

  /** `before` are the frames from before the edge was examined: for a return edge, the top one is its call's. */
  lemma GoDescend(p: Problem, s: Search, examined: set<Edge>, looked: nat, stack: seq<VertexInfo>, u: Vertex,
                  rest: set<Edge>, e: Edge, before: seq<Frame>)
    requires Going(p, s, examined, looked) && s.stack == stack + [VertexInfo(u, rest)] && e in rest
    requires e in p.g && Usable(e, p.back) && !e.kind.FunctionCallBypass?
    requires e.kind.Return? ==> before != [] && Top(before).call == Some(e.kind.call)
    requires before == s.frames || Going(p, s.(frames := before), examined, looked)
    requires ColorOf(Top(s.frames), p.g[e].dst) == White && p.g[e].dst != p.sink
    ensures var v := p.g[e].dst;
            var top := Top(s.frames);
            Going(p, Search(stack + [VertexInfo(u, rest - {e})] + [VertexInfo(v, Out(p.g, v))],
                            s.frames[|s.frames| - 1 := top.(colors := top.colors[v := Gray])],
                            s.predecessors + [e], s.discovered + {v}),
                  examined + {e}, looked + 1)
  {
    var v := p.g[e].dst;
    GoLook(p, s, examined, looked, stack, u, rest, e);
    var below := stack + [VertexInfo(u, rest - {e})];
    var mid := Search(below + [VertexInfo(v, Out(p.g, v))], s.frames, s.predecessors + [e], s.discovered + {v});
    assert s.stack[|stack|] == VertexInfo(u, rest);
    Descend(p.g, p.back, p.source, p.seed, s, stack, u, rest, e);
    ChangeColor(p.g, p.back, p.source, p.seed, mid, v, Gray);
    OnceAdvance(p.g, s, examined, stack, u, rest, e);
    AdvancePast(p.g, p.back, p.source, p.seed, s, stack, u, rest, e);
    OnceDescend(p.g, s.(stack := below), examined + {e}, v, s.predecessors + [e]);
    var top := Top(s.frames);
    var now := s.frames[|s.frames| - 1 := top.(colors := top.colors[v := Gray])];
    if ReturnsCovered(p.g, p.back, p.source) {
      JustifiedTarget(p.g, p.back, p.source, before, s.discovered, e);
      JustifiedFrames(p.g, p.back, p.source, s.frames, now, s.discovered + {v});
    }
  }

  lemma GoAscend(p: Problem, s: Search, examined: set<Edge>, looked: nat, stack: seq<VertexInfo>, u: Vertex)
    requires Going(p, s, examined, looked) && s.stack == stack + [VertexInfo(u, {})]
    ensures s.predecessors != [] && s.frames != []
    ensures var top := Top(s.frames);
            Going(p, Search(stack, s.frames[|s.frames| - 1 := top.(colors := top.colors[u := Black])],
                            s.predecessors[..|s.predecessors| - 1], s.discovered),
                  examined, looked)
  {
    Ascend(p.g, p.back, p.source, p.seed, s, stack, u);
    var popped := s.predecessors[..|s.predecessors| - 1];
    ChangeColor(p.g, p.back, p.source, p.seed, s.(stack := stack, predecessors := popped), u, Black);
    OnceAscend(p.g, s, examined, stack, u, popped);
    var top := Top(s.frames);
    JustifiedFrames(p.g, p.back, p.source, s.frames,
                    s.frames[|s.frames| - 1 := top.(colors := top.colors[u := Black])], s.discovered);
    forall i | 0 <= i < |stack| ensures stack[i] == s.stack[i] {
    }
  }

  // ----- Outcomes -----

  /** The seed edge and then a walk of usable edges from the source to `t`. */
  ghost predicate Witness(g: Arcs, back: set<Edge>, source: Vertex, seed: Edge, predecessors: seq<Edge>, t: Vertex)
  {
    && predecessors != [] && predecessors[0] == seed
    && IsWalk(UsableArcs(g, back), source, predecessors[1..], t)
  }

  lemma {:induction false} ChainIsWalk(g: Arcs, back: set<Edge>, source: Vertex, seed: Edge, stack: seq<VertexInfo>,
                                       predecessors: seq<Edge>)
    requires stack != [] && Chained(g, back, source, seed, stack, predecessors)
    ensures Witness(g, back, source, seed, predecessors, stack[|stack| - 1].v)
  {
    var n := |stack| - 1;
    if n == 0 {
      assert predecessors[1..] == [];
    } else {
      ChainIsWalk(g, back, source, seed, stack[..n], predecessors[..n]);
      WalkSnoc(UsableArcs(g, back), source, predecessors[..n][1..], predecessors[n]);
      assert predecessors[..n][1..] + [predecessors[n]] == predecessors[1..];
    }
  }

  /** Reaching the sink: the predecessors spell out how. */
  lemma GoFound(p: Problem, s: Search, examined: set<Edge>, looked: nat, stack: seq<VertexInfo>, u: Vertex,
                rest: set<Edge>, e: Edge, before: seq<Frame>)
    requires Going(p, s, examined, looked) && s.stack == stack + [VertexInfo(u, rest)] && e in rest
    requires e in p.g && Usable(e, p.back) && !e.kind.FunctionCallBypass? && p.g[e].dst == p.sink
    requires e.kind.Return? ==> before != [] && Top(before).call == Some(e.kind.call)
    requires before == s.frames || Going(p, s.(frames := before), examined, looked)
    ensures p.source != p.sink
    ensures Witness(p.g, p.back, p.source, p.seed, s.predecessors + [e], p.sink)
    ensures ReturnsCovered(p.g, p.back, p.source) ==> Reaches(FollowedArcs(p.g, p.back), p.source, p.sink)
  {
    GoLook(p, s, examined, looked, stack, u, rest, e);
    assert s.stack[|s.stack| - 1] == VertexInfo(u, rest);
    ChainIsWalk(p.g, p.back, p.source, p.seed, s.stack, s.predecessors);
    WalkSnoc(UsableArcs(p.g, p.back), p.source, s.predecessors[1..], e);
    assert (s.predecessors + [e])[1..] == s.predecessors[1..] + [e];
    if ReturnsCovered(p.g, p.back, p.source) {
      JustifiedTarget(p.g, p.back, p.source, before, s.discovered, e);
    }
  }

  /** With nothing left to explore, the discovered vertices are closed and do not include the sink. */
  lemma GoExhausted(p: Problem, s: Search, examined: set<Edge>, looked: nat)
    requires Going(p, s, examined, looked) && s.stack == []
    ensures s.predecessors == []
    ensures p.source != p.sink ==> !Reaches(FollowedArcs(p.g, p.back), p.source, p.sink)
  {
    if p.source != p.sink && Reaches(FollowedArcs(p.g, p.back), p.source, p.sink) {
      forall e | e in FollowedArcs(p.g, p.back) && p.g[e].src in s.discovered ensures p.g[e].dst in s.discovered {
        assert !Pending(s.stack, e);
      }
      ClosedReaches(FollowedArcs(p.g, p.back), s.discovered, p.source, p.sink);
    }
  }

  lemma GoColor(p: Problem, s: Search, examined: set<Edge>, looked: nat, v: Vertex)
    requires Going(p, s, examined, looked)
    ensures RootedCalls(s.frames) && (ColorOf(Top(s.frames), v) != White ==> v in s.discovered)
  {
  }

  // ----- The same, look by look -----

  /** The invariant of `Traverse`: the edges `looks` have been looked at, one after another. */
  ghost predicate Travelling(p: Problem, s: Search, examined: set<Edge>, looks: seq<Edge>)
  {
    Going(p, s, examined, |looks|) && Gets(p, StartOf(p), looks, s)
  }

  lemma TravelMeans(p: Problem, s: Search, examined: set<Edge>, looks: seq<Edge>)
    ensures Travelling(p, s, examined, looks) <==> Going(p, s, examined, |looks|) && Gets(p, StartOf(p), looks, s)
  {
    hide Going, Gets;
  }

  lemma StartIs(p: Problem, rest: set<Edge>)
    requires rest == if p.source == p.sink then {} else Out(p.g, p.source)
    requires Going(p, Search([VertexInfo(p.source, rest)], [Frame(None, map[p.source := Gray])], [p.seed], {p.source}),
                   {}, 0)
    ensures Travelling(p, Search([VertexInfo(p.source, rest)], [Frame(None, map[p.source := Gray])], [p.seed],
                                 {p.source}),
                       {}, [])
  {
    hide Going;
    GetsNowhere(p, StartOf(p));
  }

  lemma StackTop(s: Search, stack: seq<VertexInfo>, u: Vertex, rest: set<Edge>, e: Edge)
    requires s.stack == stack + [VertexInfo(u, rest)] && e in rest
    ensures AtHand(s, e) && s.stack[|s.stack| - 1] == VertexInfo(u, rest) && s.stack[..|s.stack| - 1] == stack
  {
  }

  /** An edge that is skipped, or leads to a vertex that is not white. `frames` are those after the look. */
  lemma TravelPast(p: Problem, s: Search, examined: set<Edge>, looks: seq<Edge>, stack: seq<VertexInfo>, u: Vertex,
                   rest: set<Edge>, e: Edge, frames: seq<Frame>)
    requires Travelling(p, s, examined, looks) && s.stack == stack + [VertexInfo(u, rest)] && e in rest
    requires frames == if Skips(p.back, s.frames, e) then s.frames else FramesFor(s.frames, e)
    requires Going(p, s.(frames := frames), examined, |looks|) && !Enters(p, s, e)
    requires Followed(e, p.back) && e in p.g ==> p.g[e].dst in s.discovered
    ensures Travelling(p, s.(stack := stack + [VertexInfo(u, rest - {e})], frames := frames), examined + {e},
                       looks + [e])
  {
    hide *;
    TravelMeans(p, s, examined, looks);
    StackTop(s, stack, u, rest, e);
    GoPast(p, s.(frames := frames), examined, |looks|, stack, u, rest, e);
    FindsEnters(p, s, e);
    GetsOn(p, StartOf(p), looks, s, e);
    LookedIs(p, s, e);
    TravelMeans(p, s.(stack := stack + [VertexInfo(u, rest - {e})], frames := frames), examined + {e}, looks + [e]);
  }

  lemma FindsEnters(p: Problem, s: Search, e: Edge)
    ensures Finds(p, s, e) <==> Enters(p, s, e) && p.g[e].dst == p.sink
    ensures Enters(p, s, e) ==> e in p.g && !Skips(p.back, s.frames, e)
  {
  }

  lemma LookedIs(p: Problem, s: Search, e: Edge)
    requires s.stack != []
    ensures var n := |s.stack| - 1;
            var below := s.stack[..n] + [VertexInfo(s.stack[n].v, s.stack[n].rest - {e})];
            && (Skips(p.back, s.frames, e) ==> Looked(p, s, e) == s.(stack := below, frames := s.frames))
            && (!Skips(p.back, s.frames, e) && !Enters(p, s, e) ==>
                  Looked(p, s, e) == s.(stack := below, frames := FramesFor(s.frames, e)))
            && (Enters(p, s, e) ==>
                  && e in p.g && FramesFor(s.frames, e) != []
                  && var v, frames := p.g[e].dst, FramesFor(s.frames, e);
                  Looked(p, s, e) == Search(below + [VertexInfo(v, Out(p.g, v))], Colored(frames, v, Gray),
                                            s.predecessors + [e], s.discovered + {v}))
  {
  }

  lemma ColoredIs(frames: seq<Frame>, v: Vertex, c: Color)
    requires frames != []
    ensures var top := Top(frames); Colored(frames, v, c) == frames[|frames| - 1 := top.(colors := top.colors[v := c])]
  {
  }

  /** A white vertex other than the sink is entered. */
  lemma TravelInto(p: Problem, s: Search, examined: set<Edge>, looks: seq<Edge>, stack: seq<VertexInfo>, u: Vertex,
                   rest: set<Edge>, e: Edge, frames: seq<Frame>)
    requires Travelling(p, s, examined, looks) && s.stack == stack + [VertexInfo(u, rest)] && e in rest
    requires e in p.g && Usable(e, p.back) && !e.kind.FunctionCallBypass?
    requires e.kind.Return? ==> s.frames != [] && Top(s.frames).call == Some(e.kind.call)
    requires frames != [] && frames == FramesFor(s.frames, e)
    requires Going(p, s.(frames := frames), examined, |looks|) && Enters(p, s, e) && p.g[e].dst != p.sink
    requires ColorOf(Top(frames), p.g[e].dst) == White
    ensures var v := p.g[e].dst;
            var top := Top(frames);
            Travelling(p, Search(stack + [VertexInfo(u, rest - {e})] + [VertexInfo(v, Out(p.g, v))],
                                 frames[|frames| - 1 := top.(colors := top.colors[v := Gray])],
                                 s.predecessors + [e], s.discovered + {v}),
                       examined + {e}, looks + [e])
  {
    hide *;
    TravelMeans(p, s, examined, looks);
    StackTop(s, stack, u, rest, e);
    assert s.(frames := frames).(frames := s.frames) == s;
    GoDescend(p, s.(frames := frames), examined, |looks|, stack, u, rest, e, s.frames);
    FindsEnters(p, s, e);
    GetsOn(p, StartOf(p), looks, s, e);
    LookedIs(p, s, e);
    ColoredIs(frames, p.g[e].dst, Gray);
    TravelMeans(p, Looked(p, s, e), examined + {e}, looks + [e]);
  }

  lemma TravelFinished(p: Problem, s: Search, examined: set<Edge>, looks: seq<Edge>, stack: seq<VertexInfo>, u: Vertex)
    requires Travelling(p, s, examined, looks) && s.stack == stack + [VertexInfo(u, {})]
    ensures s.predecessors != [] && s.frames != []
    ensures var top := Top(s.frames);
            Travelling(p, Search(stack, s.frames[|s.frames| - 1 := top.(colors := top.colors[u := Black])],
                                 s.predecessors[..|s.predecessors| - 1], s.discovered),
                       examined, looks)
  {
    hide *;
    TravelMeans(p, s, examined, looks);
    GoAscend(p, s, examined, |looks|, stack, u);
    assert s.stack[|s.stack| - 1] == VertexInfo(u, {}) && s.stack[..|s.stack| - 1] == stack;
    GetsFinished(p, StartOf(p), looks, s);
    ColoredIs(s.frames, u, Black);
    FinishedIs(s);
    TravelMeans(p, Finished(s), examined, looks);
  }

  lemma FinishedIs(s: Search)
    requires s.stack != [] && s.predecessors != []
    ensures var n := |s.stack| - 1;
            Finished(s) == Search(s.stack[..n], Colored(s.frames, s.stack[n].v, Black),
                                  s.predecessors[..|s.predecessors| - 1], s.discovered)
  {
  }

  /** There is an edge to look at: before the budget is used up, or when it is. */
  lemma TravelLook(p: Problem, s: Search, examined: set<Edge>, looks: seq<Edge>, stack: seq<VertexInfo>, u: Vertex,
                   rest: set<Edge>, e: Edge)
    requires Travelling(p, s, examined, looks) && s.stack == stack + [VertexInfo(u, rest)] && e in rest
    ensures Going(p, s, examined, |looks|) && Plays(p, StartOf(p), looks, Open)
    ensures e in p.g && p.g[e].src == u && u in s.discovered && p.source != p.sink && s.frames != []
    ensures CallFree(p.g) ==> |looks| < |p.g|
  {
    hide *;
    TravelMeans(p, s, examined, looks);
    StackTop(s, stack, u, rest, e);
    GoLook(p, s, examined, |looks|, stack, u, rest, e);
    GetsOpen(p, StartOf(p), looks, s, e);
  }

  lemma TravelFound(p: Problem, s: Search, examined: set<Edge>, looks: seq<Edge>, stack: seq<VertexInfo>, u: Vertex,
                    rest: set<Edge>, e: Edge, frames: seq<Frame>)
    requires Travelling(p, s, examined, looks) && s.stack == stack + [VertexInfo(u, rest)] && e in rest
    requires e in p.g && Usable(e, p.back) && !e.kind.FunctionCallBypass? && p.g[e].dst == p.sink
    requires e.kind.Return? ==> s.frames != [] && Top(s.frames).call == Some(e.kind.call)
    requires Going(p, s.(frames := frames), examined, |looks|) && Enters(p, s, e)
    ensures p.source != p.sink && Plays(p, StartOf(p), looks + [e], Found(s.predecessors + [e]))
    ensures Witness(p.g, p.back, p.source, p.seed, s.predecessors + [e], p.sink)
    ensures ReturnsCovered(p.g, p.back, p.source) ==> Reaches(FollowedArcs(p.g, p.back), p.source, p.sink)
  {
    hide *;
    TravelMeans(p, s, examined, looks);
    StackTop(s, stack, u, rest, e);
    assert s.(frames := frames).(frames := s.frames) == s;
    GoFound(p, s.(frames := frames), examined, |looks|, stack, u, rest, e, s.frames);
    FindsEnters(p, s, e);
    GetsSink(p, StartOf(p), looks, s, e);
  }

  lemma TravelEnd(p: Problem, s: Search, examined: set<Edge>, looks: seq<Edge>)
    requires Travelling(p, s, examined, looks) && s.stack == []
    ensures s.predecessors == [] && Plays(p, StartOf(p), looks, Exhausted([]))
    ensures p.source != p.sink ==> !Reaches(FollowedArcs(p.g, p.back), p.source, p.sink)
  {
    hide *;
    TravelMeans(p, s, examined, looks);
    GoExhausted(p, s, examined, |looks|);
    GetsNothingLeft(p, StartOf(p), looks, s);
  }

  lemma EntersIs(p: Problem, s: Search, e: Edge, frames: seq<Frame>)
    requires e in p.g && frames == FramesFor(s.frames, e) && frames != []
    ensures Enters(p, s, e) <==> !Skips(p.back, s.frames, e) && ColorOf(Top(frames), p.g[e].dst) == White
  {
  }

  class ControlFlowGraphTraversalDFS {
    const g: Arcs
    const back: set<Edge>
    const callStack: DFSCallStack

    constructor (g: Arcs, back: set<Edge>)
      ensures this.g == g && this.back == back
      ensures fresh(callStack) && callStack.frames == []
    {
      this.g, this.back := g, back;
      callStack := new DFSCallStack();
    }

    /** Back edges, bypasses, and returns of another call are skipped; taking the matching return pops its frame. */
    method SkipEdge(e: Edge) returns (skip: bool)
      requires RootedCalls(callStack.frames)
      modifies callStack
      ensures skip <==> || e in back || e.kind.FunctionCallBypass?
                        || (e.kind.Return? && Top(old(callStack.frames)).call != Some(e.kind.call))
      ensures callStack.frames ==
                if !skip && e.kind.Return? then old(callStack.frames)[..|old(callStack.frames)| - 1]
                else old(callStack.frames)
    {
      if e in back {
        return true;
      }
      if e.kind.Return? {
        if Top(callStack.frames).call != Some(e.kind.call) {
          return true;
        }
        callStack.PopCallStack();
        return false;
      }
      return e.kind.FunctionCallBypass?;
    }

    /** Decides whether to take edge `e`; a call that is taken gets a frame of its own. */
    method TakeEdge(e: Edge, visitor: ReachabilityVisitor, ghost p: Problem, ghost s: Search,
                    ghost examined: set<Edge>, ghost looked: nat)
      returns (taken: bool)
      requires p.g == g && p.back == back == visitor.back
      requires Going(p, s, examined, looked) && s.frames == callStack.frames
      requires e in g && g[e].src in s.discovered
      modifies callStack
      ensures Going(p, s.(frames := callStack.frames), examined, looked)
      ensures taken ==>
                && Usable(e, back) && !e.kind.FunctionCallBypass?
                && (e.kind.Return? ==> s.frames != [] && Top(s.frames).call == Some(e.kind.call))
      ensures !taken ==> !Followed(e, back)
      ensures taken <==> !Skips(back, s.frames, e)
      ensures callStack.frames == if taken then FramesFor(s.frames, e) else s.frames
    {
      hide Going;
      GoColor(p, s, examined, looked, g[e].dst);
      var skip := SkipEdge(e);
      if skip || !visitor.ExamineEdge(e) {
        assert callStack.frames == s.frames && s.(frames := s.frames) == s;
        return false;
      }
      if e.kind.Return? {
        GoPop(p, s, examined, looked, e);
      } else if e.kind.FunctionCall? {
        GoPush(p, s, examined, looked, e);
        callStack.PushCallStack(Frame(Some(e.kind.call), map[]));
      } else {
        assert s.(frames := s.frames) == s;
      }
      return true;
    }

    /** Pushes the root frame and discovers the source; a terminating source keeps no out-edge to explore. */
    method Begin(source: Vertex, visitor: ReachabilityVisitor, ghost p: Problem) returns (u: Vertex, ei: set<Edge>)
      requires callStack.frames == [] && visitor.predecessors == [p.seed]
      requires p.g == g && p.back == back && p.source == source && p.sink == visitor.sink
      requires CallsLeaveTheirVertex(g)
      modifies callStack
      ensures Travelling(p, Search([VertexInfo(u, ei)], callStack.frames, visitor.predecessors, {source}), {}, [])
    {
      callStack.PushCallStack(Frame(None, map[]));
      u := source;
      callStack.SetColor(u, Gray);
      ei := Out(g, u);
      var discovery := visitor.DiscoverVertex(u);
      if discovery.TerminateSearch? {
        ei := {};
      }
      GoStart(p, ei);
      StartIs(p, ei);
      hide Going, Travelling;
      assert callStack.frames == [Frame(None, map[source := Gray])];
    }

    /** The original has no budget and need not terminate on recursive programs; `finished` is false when the budget ran
        out first. `looks` are the edges that were looked at, one after another. */
    method Traverse(source: Vertex, visitor: ReachabilityVisitor, budget: nat)
      returns (finished: bool, ghost looks: seq<Edge>)
      requires callStack.frames == [] && visitor.back == back && |visitor.predecessors| == 1
      requires CallsLeaveTheirVertex(g)
      modifies callStack, visitor`predecessors
      ensures |looks| <= budget && (!finished ==> |looks| == budget)
      ensures Plays(Problem(g, back, source, visitor.sink, old(visitor.predecessors[0])),
                    StartOf(Problem(g, back, source, visitor.sink, old(visitor.predecessors[0]))), looks,
                    if !finished then Open
                    else if visitor.predecessors == [] then Exhausted([]) else Found(visitor.predecessors))
      ensures CallFree(g) && budget >= |g| ==> finished
      ensures finished && visitor.predecessors == [] && source != visitor.sink ==>
                !Reaches(FollowedArcs(g, back), source, visitor.sink)
      ensures finished && visitor.predecessors != [] ==>
                && source != visitor.sink
                && Witness(g, back, source, old(visitor.predecessors[0]), visitor.predecessors, visitor.sink)
                && (ReturnsCovered(g, back, source) ==> Reaches(FollowedArcs(g, back), source, visitor.sink))
    {
      hide *;
      ghost var p := Problem(g, back, source, visitor.sink, visitor.predecessors[0]);
      ghost var discovered, examined: set<Edge> := {source}, {};
      looks := [];
      var left := budget;
      var u, ei := Begin(source, visitor, p);
      var stack := [VertexInfo(u, ei)];
      while stack != []
        invariant Travelling(p, Search(stack, callStack.frames, visitor.predecessors, discovered), examined, looks)
        invariant |looks| + left == budget
        decreases left, |stack|
      {
        ghost var above, before := stack, left;
        u, ei := stack[|stack| - 1].v, stack[|stack| - 1].rest;
        stack := stack[..|stack| - 1];
        assert above == stack + [VertexInfo(u, ei)];
        while ei != {}
          invariant Travelling(p, Search(stack + [VertexInfo(u, ei)], callStack.frames, visitor.predecessors,
                                         discovered),
                               examined, looks)
          invariant |looks| + left == budget
          invariant left < before || (left == before && |stack| < |above|)
          decreases left
        {
          var e :| e in ei;
          ghost var s := Search(stack + [VertexInfo(u, ei)], callStack.frames, visitor.predecessors, discovered);
          TravelLook(p, s, examined, looks, stack, u, ei, e);
          if left == 0 {
            return false, looks;
          }
          var taken := TakeEdge(e, visitor, p, s, examined, |looks|);
          ghost var frames := callStack.frames;
          var v := g[e].dst;
          GoColor(p, s.(frames := frames), examined, |looks|, v);
          if !taken {
            // The edge is skipped, as if it were not part of the graph.
            FindsEnters(p, s, e);
            TravelPast(p, s, examined, looks, stack, u, ei, e, frames);
            ei := ei - {e};
          } else if ColorOf(Top(callStack.frames), v) == White {
            EntersIs(p, s, e, frames);
            visitor.TreeEdge(e);
            if v == visitor.sink {
              TravelFound(p, s, examined, looks, stack, u, ei, e, frames);
            } else {
              TravelInto(p, s, examined, looks, stack, u, ei, e, frames);
            }
            stack := stack + [VertexInfo(u, ei - {e})];
            u := v;
            callStack.SetColor(u, Gray);
            var discovery := visitor.DiscoverVertex(u);
            if discovery.TerminateSearch? {
              return true, looks + [e];
            }
            ei := Out(g, u);
            discovered := discovered + {u};
          } else {
            EntersIs(p, s, e, frames);
            TravelPast(p, s, examined, looks, stack, u, ei, e, frames);
            ei := ei - {e};
          }
          examined, looks, left := examined + {e}, looks + [e], left - 1;
        }
        ghost var s := Search(stack + [VertexInfo(u, {})], callStack.frames, visitor.predecessors, discovered);
        TravelFinished(p, s, examined, looks, stack, u);
        callStack.SetColor(u, Black);
        visitor.FinishVertex(u);
      }
      TravelEnd(p, Search(stack, callStack.frames, visitor.predecessors, discovered), examined, looks);
      finished := true;
    }
  }
}
