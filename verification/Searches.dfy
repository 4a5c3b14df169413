/** What a depth-first search can come to: its stages, and the steps it may take from each in some order. */
module Searches {
  import opened Basics
  import opened Walks
  import opened Graphs
  import opened DepthFirst
  import opened BackEdges
  import opened CfgAlgs

  type Stack = seq<VertexInfo<Vertex, Edge>>

  /** A search through a graph from one vertex, with its colours. */
  datatype Exploration = Exploration(g: Arcs, source: Vertex, t: Trace<Vertex, Edge>, colors: map<Vertex, Color>)

  /** The search has this stack, has found the vertices `seen` and marked the edges `marked`. */
  ghost predicate IsAt(s: Exploration, stack: Stack, seen: set<Vertex>, marked: set<Edge>)
  {
    && Searching(s.g, ALL, s.t, stack, s.colors) && GrownFrom(EmptyTrace(), s.t, s.source)
    && s.t.path.Keys == seen && BackOf(s.t.log) == marked
  }

  lemma AtMeans(s: Exploration, stack: Stack, seen: set<Vertex>, marked: set<Edge>)
    ensures IsAt(s, stack, seen, marked) <==>
            && Searching(s.g, ALL, s.t, stack, s.colors) && GrownFrom(EmptyTrace(), s.t, s.source)
            && s.t.path.Keys == seen && BackOf(s.t.log) == marked
  {
    hide Searching, GrownFrom, BackOf;
  }

  lemma BackOfMore(log: Events, ev: Event<Vertex, Edge>)
    ensures BackOf(log + [ev]) == BackOf(log) + if ev.BackEdge? then {ev.e} else {}
  {
    forall e | e in BackOf(log) + if ev.BackEdge? then {ev.e} else {} ensures e in BackOf(log + [ev]) {
      assert BackEdge(e) in log + [ev];
    }
  }

  lemma CanStart(g: Arcs, source: Vertex) returns (s: Exploration)
    ensures s.g == g && s.source == source && IsAt(s, [VertexInfo(source, Out(g, source))], {source}, {})
  {
    hide *;
    EmptySearch(g, ALL);
    var t: Trace<Vertex, Edge> := EmptyTrace();
    StartsEmpty(source);
    Root(g, ALL, t, map[], source);
    GrownRoot(t, source);
    BackOfMore([], DiscoverVertex(source));
    DiscoverKeys(t, source, []);
    s := Exploration(g, source, t.Discover(source, []), map[][source := Gray]);
    AtMeans(s, [VertexInfo(source, Out(g, source))], {source}, {});
  }

  lemma StartsEmpty(source: Vertex)
    ensures var t: Trace<Vertex, Edge> := EmptyTrace(); source !in t.path && t.log == [] && t.path.Keys == {}
    ensures ColorOf(map[], source) == White && BackOf([]) == {}
  {
  }

  lemma DiscoverKeys(t: Trace<Vertex, Edge>, v: Vertex, p: seq<Edge>)
    ensures t.Discover(v, p).path.Keys == t.path.Keys + {v}
  {
  }

  /** The next edge may lead to a vertex that has not been seen. */
  lemma CanDescend(s: Exploration, below: Stack, u: Vertex, rest: set<Edge>, seen: set<Vertex>, marked: set<Edge>,
                   e: Edge)
    returns (s': Exploration)
    requires IsAt(s, below + [VertexInfo(u, rest)], seen, marked) && e in rest && e in s.g && s.g[e].dst !in seen
    ensures s'.g == s.g && s'.source == s.source
    ensures IsAt(s', below + [VertexInfo(u, rest - {e})] + [VertexInfo(s.g[e].dst, Out(s.g, s.g[e].dst))],
                 seen + {s.g[e].dst}, marked)
  {
    hide *;
    var g, t, v := s.g, s.t, s.g[e].dst;
    AtMeans(s, below + [VertexInfo(u, rest)], seen, marked);
    WhiteIsNew(g, ALL, t, below + [VertexInfo(u, rest)], s.colors, v);
    AllExamined(e);
    Descend(g, ALL, t, s.colors, below, u, rest, e);
    GrownAppend(EmptyTrace(), t, s.source, TreeEdge(e));
    NotEmpty(t.path[u], e);
    GrownDiscover(EmptyTrace(), t.Append(TreeEdge(e)), s.source, v, t.path[u] + [e]);
    BackOfMore(t.log, TreeEdge(e));
    BackOfMore(t.log + [TreeEdge(e)], DiscoverVertex(v));
    s' := s.(t := t.Append(TreeEdge(e)).Discover(v, t.path[u] + [e]), colors := s.colors[v := Gray]);
    AtMeans(s', below + [VertexInfo(u, rest - {e})] + [VertexInfo(v, Out(g, v))], seen + {v}, marked);
  }

  lemma AllExamined(e: Edge)
    ensures ALL(e)
  {
  }

  lemma NotEmpty(p: seq<Edge>, e: Edge)
    ensures p + [e] != []
  {
  }

  /** The next edge may lead to a vertex on the stack, and is marked then. */
  lemma CanMark(s: Exploration, below: Stack, u: Vertex, rest: set<Edge>, seen: set<Vertex>, marked: set<Edge>, e: Edge)
    returns (s': Exploration)
    requires IsAt(s, below + [VertexInfo(u, rest)], seen, marked) && e in rest && e in s.g
    requires OnStack(below + [VertexInfo(u, rest)], s.g[e].dst)
    ensures s'.g == s.g && s'.source == s.source && IsAt(s', below + [VertexInfo(u, rest - {e})], seen, marked + {e})
  {
    hide *;
    AtMeans(s, below + [VertexInfo(u, rest)], seen, marked);
    StackIsGray(s.g, s.t, below + [VertexInfo(u, rest)], s.colors, s.g[e].dst);
    s' := CanClassify(s, below, u, rest, seen, marked, e, BackEdge(e));
  }

  /** The next edge may lead to a vertex that was finished. */
  lemma CanPass(s: Exploration, below: Stack, u: Vertex, rest: set<Edge>, seen: set<Vertex>, marked: set<Edge>, e: Edge)
    returns (s': Exploration)
    requires IsAt(s, below + [VertexInfo(u, rest)], seen, marked) && e in rest && e in s.g && s.g[e].dst in seen
    requires !OnStack(below + [VertexInfo(u, rest)], s.g[e].dst)
    ensures s'.g == s.g && s'.source == s.source && IsAt(s', below + [VertexInfo(u, rest - {e})], seen, marked)
  {
    hide *;
    AtMeans(s, below + [VertexInfo(u, rest)], seen, marked);
    StackIsGray(s.g, s.t, below + [VertexInfo(u, rest)], s.colors, s.g[e].dst);
    s' := CanClassify(s, below, u, rest, seen, marked, e, ForwardOrCrossEdge(e));
    assert marked + {} == marked;
  }

  lemma StackIsGray(g: Arcs, t: Trace<Vertex, Edge>, stack: Stack, colors: map<Vertex, Color>, v: Vertex)
    requires Searching(g, ALL, t, stack, colors)
    ensures OnStack(stack, v) <==> ColorOf(colors, v) == Gray
    ensures v in t.path <==> ColorOf(colors, v) != White
  {
    hide Logged, Forest, AllMeant, Covered, Permitted, ProperAncestor;
  }

  lemma CanClassify(s: Exploration, below: Stack, u: Vertex, rest: set<Edge>, seen: set<Vertex>, marked: set<Edge>,
                    e: Edge,
                    ev: Event<Vertex, Edge>)
    returns (s': Exploration)
    requires IsAt(s, below + [VertexInfo(u, rest)], seen, marked)
    requires e in rest && e in s.g && ColorOf(s.colors, s.g[e].dst) != White
    requires ev == if ColorOf(s.colors, s.g[e].dst) == Gray then BackEdge(e) else ForwardOrCrossEdge(e)
    ensures s'.g == s.g && s'.source == s.source
    ensures IsAt(s', below + [VertexInfo(u, rest - {e})], seen, marked + if ev.BackEdge? then {e} else {})
  {
    hide *;
    AllExamined(e);
    AtMeans(s, below + [VertexInfo(u, rest)], seen, marked);
    Classify(s.g, ALL, s.t, s.colors, below, u, rest, e, ev);
    GrownAppend(EmptyTrace(), s.t, s.source, ev);
    BackOfMore(s.t.log, ev);
    s' := s.(t := s.t.Append(ev));
    AtMeans(s', below + [VertexInfo(u, rest - {e})], seen, marked + if ev.BackEdge? then {e} else {});
  }

  /** A vertex without further edges is finished. */
  lemma CanFinish(s: Exploration, below: Stack, u: Vertex, seen: set<Vertex>,
                  marked: set<Edge>) returns (s': Exploration)
    requires IsAt(s, below + [VertexInfo(u, {})], seen, marked)
    ensures s'.g == s.g && s'.source == s.source && IsAt(s', below, seen, marked)
  {
    hide *;
    AtMeans(s, below + [VertexInfo(u, {})], seen, marked);
    Ascend(s.g, ALL, s.t, s.colors, below, u);
    GrownAppend(EmptyTrace(), s.t, s.source, FinishVertex(u));
    BackOfMore(s.t.log, FinishVertex(u));
    s' := s.(t := s.t.Append(FinishVertex(u)), colors := s.colors[u := Black]);
    AtMeans(s', below, seen, marked);
  }

  /** With nothing left on the stack, these are marks that `FixupBackEdges` may make, if all vertices have been
      found. */
  lemma CanEnd(s: Exploration, seen: set<Vertex>, marked: set<Edge>, vertices: set<Vertex>)
    requires IsAt(s, [], seen, marked) && vertices <= seen
    ensures MarkedBySearch(s.g, vertices, s.source, s.t, s.colors, seen, marked)
  {
    hide *;
    AtMeans(s, [], seen, marked);
    FirstTreeFound(s.g, s.source, s.t, s.colors);
    SearchMarksWell(s.g, vertices, s.source, s.t, s.colors, seen);
  }
}
