/** Where a jump does not find its label, leaving out the marked back edges can lose code: a list, the marks that the
    search can make in its graph, and what they lose. */
module LostCode {
  import opened Walks
  import opened Graphs
  import opened Programs
  import opened Construction
  import opened Resolution
  import opened Creation
  import DepthFirst
  import opened Contraction
  import opened CfgAlgs
  import opened ControlFlowGraphs
  import opened Meaning
  import opened Entries
  import opened Traversals
  import opened Reachability
  import opened Searches

  // ----- The list -----

  /** The jump at position 3 has no label to go to, and nothing leads to position 4 but an Impossible edge. */
  ghost predicate IsExample(prog: Program)
  {
    prog == [IfUnlinked("A", "B"), Label("A"), GotoUnlinked("X"), Plain, Label("E"), Label("B"),
             IfUnlinked("E", "EXIT")]
  }

  lemma ExampleLabels(prog: Program)
    requires IsExample(prog)
    ensures LabelMap(prog) == map["EXIT" := 8, "A" := 2, "E" := 5, "B" := 6]
  {
    assert Labels(prog, 0) == map["EXIT" := 8];
    assert Labels(prog, 1) == Labels(prog, 0);
    assert Labels(prog, 2) == map["EXIT" := 8, "A" := 2];
    assert Labels(prog, 3) == Labels(prog, 2);
    assert Labels(prog, 4) == Labels(prog, 3);
    assert Labels(prog, 5) == map["EXIT" := 8, "A" := 2, "E" := 5];
    assert Labels(prog, 6) == map["EXIT" := 8, "A" := 2, "E" := 5, "B" := 6];
    assert Labels(prog, 7) == Labels(prog, 6);
  }

  lemma ExampleWays(prog: Program)
    requires IsExample(prog)
    ensures |prog| == 7 && Ways(prog, 0) == [Way(Fallthrough, 1)] && Ways(prog, 1) == [Way(IfTrue, 2), Way(IfFalse, 6)]
    ensures Ways(prog, 2) == [Way(Fallthrough, 3)] && Ways(prog, 3) == [] && Ways(prog, 4) == [Way(Fallthrough, 5)]
    ensures Ways(prog, 5) == [Way(Fallthrough, 6)] && Ways(prog, 6) == [Way(Fallthrough, 7)]
    ensures Ways(prog, 7) == [Way(IfTrue, 5), Way(IfFalse, 8)]
    ensures forall p | 0 <= p <= 8 :: IsFlow(prog, p) <==> p in {1, 3, 7}
  {
    ExampleLabels(prog);
    hide Labels, LabelMap;
    assert "X" != "EXIT" && "X" != "A" && "X" != "E" && "X" != "B" by {
      assert |"X"| != |"EXIT"|;
      assert "X"[0] != "A"[0] && "X"[0] != "E"[0] && "X"[0] != "B"[0];
    }
  }

  // ----- Its graph -----

  datatype ExampleEdges = ExampleEdges(e01: Edge, e12: Edge, e16: Edge, e23: Edge, e34: Edge, e45: Edge, e56: Edge,
                                       e67: Edge, e75: Edge, e78: Edge, entrySelf: Edge, exitSelf: Edge)
  {
    ghost predicate SolidIn(g: Arcs, at: seq<Vertex>)
      requires |at| == 9
    {
      && e01 in g && g[e01] == Arc(at[0], at[1]) && e12 in g && g[e12] == Arc(at[1], at[2])
      && e16 in g && g[e16] == Arc(at[1], at[6]) && e23 in g && g[e23] == Arc(at[2], at[3])
      && e45 in g && g[e45] == Arc(at[4], at[5]) && e56 in g && g[e56] == Arc(at[5], at[6])
      && e67 in g && g[e67] == Arc(at[6], at[7]) && e75 in g && g[e75] == Arc(at[7], at[5])
      && e78 in g && g[e78] == Arc(at[7], at[8])
    }

    ghost predicate ImpossibleIn(g: Arcs, at: seq<Vertex>)
      requires |at| == 9
    {
      && e34 in g && g[e34] == Arc(at[3], at[4])
      && entrySelf in g && g[entrySelf] == Arc(at[0], at[0]) && exitSelf in g && g[exitSelf] == Arc(at[8], at[8])
    }

    ghost function Solids(): set<Edge> {
      {e01, e12, e16, e23, e45, e56, e67, e75, e78}
    }

    ghost function Impossibles(): set<Edge> {
      {e34, entrySelf, exitSelf}
    }
  }

  /** The graph has these edges and no others. */
  ghost predicate Drawing(g: Arcs, at: seq<Vertex>, x: ExampleEdges)
  {
    && |at| == 9 && (forall p, q | 0 <= p < q < |at| :: at[p] != at[q])
    && x.SolidIn(g, at) && x.ImpossibleIn(g, at) && g.Keys == x.Solids() + x.Impossibles()
  }

  /** The edge is the way `j` on from position `p`, which leads to `q`. */
  ghost predicate WayEdge(c: Building, e: Edge, p: nat, j: nat, q: nat)
  {
    p < |c.at| && q < |c.at| && e in c.g && e in c.slots && c.slots[e] == Slot(p, j) && c.g[e] == Arc(c.at[p], c.at[q])
  }

  lemma WayEdgeOf(c: Building, p: nat, j: nat, q: nat) returns (e: Edge)
    requires c.Ok() && Complete(c.prog, c.ways) && p <= |c.prog| && j < |Ways(c.prog, p)| && q == Ways(c.prog, p)[j].to
    ensures WayEdge(c, e, p, j, q)
  {
    hide Ways, Complete;
    e := WayOut(c, p, j) by {
      hide Built, Placed;
    }
    assert IsBuilt(c.prog, c.at, c.g[e], e.kind, c.slots[e], c.ways);
  }

  /** The solid edges are the ways of the list. */
  ghost predicate WaysOf(c: Building, x: ExampleEdges)
  {
    && WayEdge(c, x.e01, 0, 0, 1) && WayEdge(c, x.e12, 1, 0, 2) && WayEdge(c, x.e16, 1, 1, 6)
    && WayEdge(c, x.e23, 2, 0, 3)
    && WayEdge(c, x.e45, 4, 0, 5) && WayEdge(c, x.e56, 5, 0, 6) && WayEdge(c, x.e67, 6, 0, 7)
    && WayEdge(c, x.e75, 7, 0, 5) && WayEdge(c, x.e78, 7, 1, 8)
  }

  lemma WayEdgesOf(c: Building, e34: Edge, entrySelf: Edge, exitSelf: Edge) returns (x: ExampleEdges)
    requires c.Ok() && Complete(c.prog, c.ways) && IsExample(c.prog)
    ensures WaysOf(c, x) && x.e34 == e34 && x.entrySelf == entrySelf && x.exitSelf == exitSelf
  {
    hide *;
    ExampleWays(c.prog);
    var e01 := WayEdgeOf(c, 0, 0, 1);
    var e12 := WayEdgeOf(c, 1, 0, 2);
    var e16 := WayEdgeOf(c, 1, 1, 6);
    var e23 := WayEdgeOf(c, 2, 0, 3);
    var e45 := WayEdgeOf(c, 4, 0, 5);
    var e56 := WayEdgeOf(c, 5, 0, 6);
    var e67 := WayEdgeOf(c, 6, 0, 7);
    var e75 := WayEdgeOf(c, 7, 0, 5);
    var e78 := WayEdgeOf(c, 7, 1, 8);
    x := ExampleEdges(e01, e12, e16, e23, e34, e45, e56, e67, e75, e78, entrySelf, exitSelf);
    TheyAreWays(c, x);
  }

  lemma TheyAreWays(c: Building, x: ExampleEdges)
    requires WayEdge(c, x.e01, 0, 0, 1) && WayEdge(c, x.e12, 1, 0, 2) && WayEdge(c, x.e16, 1, 1, 6)
    requires WayEdge(c, x.e23, 2, 0, 3) && WayEdge(c, x.e45, 4, 0, 5) && WayEdge(c, x.e56, 5, 0, 6)
    requires WayEdge(c, x.e67, 6, 0, 7) && WayEdge(c, x.e75, 7, 0, 5) && WayEdge(c, x.e78, 7, 1, 8)
    ensures WaysOf(c, x)
  {
    hide WayEdge;
  }

  lemma SameWay(c: Building, e: Edge, f: Edge)
    requires c.Ok() && e in c.g && f in c.g && c.slots[e] == c.slots[f]
    ensures e == f
  {
    hide Ways;
  }

  lemma SlotOf(c: Building, e: Edge)
    requires c.Ok() && e in c.g
    ensures e in c.slots && c.slots[e].pos <= |c.prog| && c.slots[e].way < |Ways(c.prog, c.slots[e].pos)|
  {
    hide Ways;
    assert IsBuilt(c.prog, c.at, c.g[e], e.kind, c.slots[e], c.ways);
  }

  lemma OnlyWayEdges(c: Building, x: ExampleEdges)
    requires c.Ok() && Complete(c.prog, c.ways) && IsExample(c.prog) && WaysOf(c, x)
    ensures c.g.Keys == x.Solids()
  {
    hide Ways, Built, Placed, Complete, IsExample, Building.Ok;
    ExampleWays(c.prog);
    forall e | e in c.g ensures e in x.Solids() {
      SlotOf(c, e);
      OneOfThem(c.prog, c.slots[e]);
      forall f | f in x.Solids() && c.slots[e] == c.slots[f] ensures e == f {
        SameWay(c, e, f);
      }
    }
  }

  lemma OneOfThem(prog: Program, s: Slot)
    requires IsExample(prog) && s.pos <= |prog| && s.way < |Ways(prog, s.pos)|
    ensures s in {Slot(0, 0), Slot(1, 0), Slot(1, 1), Slot(2, 0), Slot(4, 0), Slot(5, 0), Slot(6, 0), Slot(7, 0),
                  Slot(7, 1)}
  {
    ExampleWays(prog);
    hide Ways, IsExample;
  }

  // The one patch.

  lemma WhereNotReplaced(c: Building, orig: seq<Vertex>, p: nat)
    requires Linked(c, orig) && p < |orig| && !Resolves(c.prog, p)
    ensures |c.at| == |orig| && c.at[p] == orig[p]
  {
    hide Ways, Built, Complete;
  }

  lemma PatchIs(c: Building, orig: seq<Vertex>, g: Arcs, entrySelf: Edge, exitSelf: Edge, x: ExampleEdges, e: Edge)
    requires Drawn(c, orig, g, entrySelf, exitSelf) && IsExample(c.prog) && WaysOf(c, x) && |c.at| == 9
    requires e in g && e !in c.g && e !in {entrySelf, exitSelf}
    ensures g[e] == Arc(c.at[3], c.at[4]) && In(g, c.at[4]) == {e}
  {
    hide Ways, IsExample, LeftWithoutWayIn, StatementsAt, Linked;
    ExampleWays(c.prog);
    assert e in g.Keys - c.g.Keys && IsPatchIn(c, orig, g, e);
    var p :| 0 < p <= |c.prog| && p < |orig| && IsFlow(c.prog, p - 1) && g[e] == Arc(orig[p - 1], orig[p]);
    WhereNotReplaced(c, orig, p);
    EntersAt(c.g, x.e12, c.at[2]);
    WhereNotReplaced(c, orig, 3);
  }

  /** Position 4 has a way in, which is no way of the list. */
  lemma PatchThere(c: Building, orig: seq<Vertex>, g: Arcs, entrySelf: Edge, exitSelf: Edge) returns (e: Edge)
    requires Drawn(c, orig, g, entrySelf, exitSelf) && IsExample(c.prog) && |c.at| == 9
    ensures e in g && e !in c.g && e !in {entrySelf, exitSelf} && g[e].dst == c.at[4]
  {
    hide Ways, IsExample, StatementsAt, Linked, IsPatchIn;
    ExampleWays(c.prog);
    DrawnLinked(c, orig, g, entrySelf, exitSelf);
    assert LeftWithoutWayIn(c, g, 4);
    e :| e in In(g, c.at[4]);
    PlacesDiffer4(c);
    if e in c.g {
      NoWayTo4(c, e);
    }
  }

  lemma PlacesDiffer4(c: Building)
    requires c.Ok() && |c.at| == 9
    ensures forall p, q | 0 <= p < q < |c.at| :: c.at[p] != c.at[q]
  {
    hide Built;
  }

  lemma NoWayTo4(c: Building, e: Edge)
    requires c.Ok() && IsExample(c.prog) && e in c.g && |c.at| == 9
    ensures c.g[e].dst != c.at[4]
  {
    hide Ways, IsExample;
    SlotOf(c, e);
    OneOfThem(c.prog, c.slots[e]);
    ExampleWays(c.prog);
    assert IsBuilt(c.prog, c.at, c.g[e], e.kind, c.slots[e], c.ways);
  }

  lemma ExampleDrawn(r: Record) returns (x: ExampleEdges)
    requires IsExample(r.c.prog) && Created(r)
    ensures Drawing(r.drawn, r.c.at, x) && x.Solids() == r.c.g.Keys
    ensures x.entrySelf == r.entrySelf && x.exitSelf == r.exitSelf
  {
    hide *;
    CreatedDrawn(r);
    DrawnLinked(r.c, r.orig, r.drawn, r.entrySelf, r.exitSelf);
    ExampleWays(r.c.prog);
    PlacesDiffer4(r.c);
    var patch := PatchThere(r.c, r.orig, r.drawn, r.entrySelf, r.exitSelf);
    x := WayEdgesOf(r.c, patch, r.entrySelf, r.exitSelf);
    OnlyWayEdges(r.c, x);
    PatchIs(r.c, r.orig, r.drawn, r.entrySelf, r.exitSelf, x, patch);
    forall e | e in r.drawn && e !in r.c.g && e !in {r.entrySelf, r.exitSelf} ensures e == patch {
      PatchIs(r.c, r.orig, r.drawn, r.entrySelf, r.exitSelf, x, e);
    }
    DrawingSo(r.c, r.orig, r.drawn, x);
  }

  lemma DrawingSo(c: Building, orig: seq<Vertex>, g: Arcs, x: ExampleEdges)
    requires Drawn(c, orig, g, x.entrySelf, x.exitSelf) && |c.prog| == 7 && |c.at| == 9 && WaysOf(c, x)
    requires forall p, q | 0 <= p < q < |c.at| :: c.at[p] != c.at[q]
    requires c.g.Keys == x.Solids() && x.e34 in g && g[x.e34] == Arc(c.at[3], c.at[4])
    requires forall e | e in g && e !in c.g && e !in {x.entrySelf, x.exitSelf} :: e == x.e34
    ensures Drawing(g, c.at, x)
  {
    hide Linked, Placed, StatementsAt, LeftWithoutWayIn, IsPatchIn;
  }

  // ----- A search through it -----

  /** The rest of the stack when the search has gone straight down to the vertex `k`. */
  function Path(at: seq<Vertex>, x: ExampleEdges): Stack
    requires |at| == 9
  {
    [DepthFirst.VertexInfo(at[0], {}), DepthFirst.VertexInfo(at[1], {x.e16}), DepthFirst.VertexInfo(at[2], {}),
     DepthFirst.VertexInfo(at[3], {}), DepthFirst.VertexInfo(at[4], {}), DepthFirst.VertexInfo(at[5], {}),
     DepthFirst.VertexInfo(at[6], {}), DepthFirst.VertexInfo(at[7], {}), DepthFirst.VertexInfo(at[8], {})]
  }

  /** The way down from each vertex. */
  function Downs(x: ExampleEdges): seq<Edge>
  {
    [x.e01, x.e12, x.e23, x.e34, x.e45, x.e56, x.e67, x.e78]
  }

  lemma OutOf(g: Arcs, at: seq<Vertex>, x: ExampleEdges)
    requires Drawing(g, at, x)
    ensures Out(g, at[0]) == {x.entrySelf, x.e01} && Out(g, at[1]) == {x.e12, x.e16} && Out(g, at[2]) == {x.e23}
    ensures Out(g, at[3]) == {x.e34} && Out(g, at[4]) == {x.e45} && Out(g, at[5]) == {x.e56} && Out(g, at[6]) == {x.e67}
    ensures Out(g, at[7]) == {x.e75, x.e78} && Out(g, at[8]) == {x.exitSelf}
  {
  }

  lemma EdgesDown(g: Arcs, at: seq<Vertex>, x: ExampleEdges, k: nat)
    requires Drawing(g, at, x) && k < 8
    ensures |at| == 9 && Downs(x)[k] in g && g[Downs(x)[k]] == Arc(at[k], at[k + 1])
  {
  }

  lemma NewOnes(at: seq<Vertex>, k: nat)
    requires k + 1 < |at| && forall p, q | 0 <= p < q < |at| :: at[p] != at[q]
    ensures at[k + 1] !in Elements(at[..k + 1]) && Elements(at[..k + 2]) == Elements(at[..k + 1]) + {at[k + 1]}
  {
    assert at[..k + 2] == at[..k + 1] + [at[k + 1]];
  }

  /** One step straight down. */
  lemma GoDown(s: Exploration, at: seq<Vertex>, x: ExampleEdges, k: nat, rest: set<Edge>, marked: set<Edge>)
    returns (s': Exploration)
    requires Drawing(s.g, at, x) && k < 8 && |at| == 9 && Downs(x)[k] in rest
    requires rest - {Downs(x)[k]} == Path(at, x)[k].rest
    requires IsAt(s, Path(at, x)[..k] + [DepthFirst.VertexInfo(at[k], rest)], Elements(at[..k + 1]), marked)
    ensures s'.g == s.g && s'.source == s.source
    ensures IsAt(s', Path(at, x)[..k + 1] + [DepthFirst.VertexInfo(at[k + 1], Out(s.g, at[k + 1]))],
                 Elements(at[..k + 2]), marked)
  {
    hide *;
    DrawingDistinct(s.g, at, x);
    EdgesDown(s.g, at, x, k);
    NewOnes(at, k);
    PathNext(at, x, k);
    s' := CanDescend(s, Path(at, x)[..k], at[k], rest, Elements(at[..k + 1]), marked, Downs(x)[k]);
  }

  lemma DrawingDistinct(g: Arcs, at: seq<Vertex>, x: ExampleEdges)
    requires Drawing(g, at, x)
    ensures |at| == 9 && forall p, q | 0 <= p < q < |at| :: at[p] != at[q]
  {
  }

  lemma PathNext(at: seq<Vertex>, x: ExampleEdges, k: nat)
    requires |at| == 9 && k < 9
    ensures |Path(at, x)| == 9 && |Downs(x)| == 8
    ensures Path(at, x)[..k + 1] == Path(at, x)[..k] + [DepthFirst.VertexInfo(at[k], Path(at, x)[k].rest)]
  {
  }

  /** One step back up. */
  lemma GoUp(s: Exploration, at: seq<Vertex>, x: ExampleEdges, k: nat, seen: set<Vertex>, marked: set<Edge>)
    returns (s': Exploration)
    requires |at| == 9 && k < 9 && IsAt(s, Path(at, x)[..k] + [DepthFirst.VertexInfo(at[k], {})], seen, marked)
    ensures s'.g == s.g && s'.source == s.source && IsAt(s', Path(at, x)[..k], seen, marked)
  {
    hide *;
    PathRests(at, x);
    s' := CanFinish(s, Path(at, x)[..k], at[k], seen, marked);
  }

  lemma PathRests(at: seq<Vertex>, x: ExampleEdges)
    requires |at| == 9
    ensures |Path(at, x)| == 9 && Downs(x) == [x.e01, x.e12, x.e23, x.e34, x.e45, x.e56, x.e67, x.e78]
    ensures Path(at, x)[1].rest == {x.e16} && forall k | 0 <= k < 9 && k != 1 :: Path(at, x)[k].rest == {}
    ensures forall k | 0 <= k < 9 :: Path(at, x)[k].v == at[k]
  {
  }

  /** On the straight way down, all vertices so far are on the stack. */
  lemma StacksAbove(at: seq<Vertex>, x: ExampleEdges, k: nat, rest: set<Edge>, j: nat)
    requires |at| == 9 && j <= k < 9
    ensures DepthFirst.OnStack(Path(at, x)[..k] + [DepthFirst.VertexInfo(at[k], rest)], at[j])
  {
    var stack := Path(at, x)[..k] + [DepthFirst.VertexInfo(at[k], rest)];
    PathRests(at, x);
    assert stack[j].v == at[j];
  }

  /** An edge back up is looked at, and marked. */
  lemma GoBack(s: Exploration, at: seq<Vertex>, x: ExampleEdges, k: nat, rest: set<Edge>, marked: set<Edge>, j: nat,
               e: Edge)
    returns (s': Exploration)
    requires |at| == 9 && j <= k < 9 && e in rest && e in s.g && s.g[e].dst == at[j]
    requires IsAt(s, Path(at, x)[..k] + [DepthFirst.VertexInfo(at[k], rest)], Elements(at[..k + 1]), marked)
    ensures s'.g == s.g && s'.source == s.source
    ensures IsAt(s', Path(at, x)[..k] + [DepthFirst.VertexInfo(at[k], rest - {e})], Elements(at[..k + 1]), marked + {e})
  {
    hide *;
    StacksAbove(at, x, k, rest, j);
    PathRests(at, x);
    s' := CanMark(s, Path(at, x)[..k], at[k], rest, Elements(at[..k + 1]), marked, e);
  }

  lemma BackEnds(g: Arcs, at: seq<Vertex>, x: ExampleEdges)
    requires Drawing(g, at, x)
    ensures |at| == 9 && x.entrySelf in g && g[x.entrySelf].dst == at[0] && x.e75 in g && g[x.e75].dst == at[5]
    ensures x.exitSelf in g && g[x.exitSelf].dst == at[8] && x.e16 in g && g[x.e16].dst == at[6]
    ensures x.entrySelf != x.e01 && x.e12 != x.e16 && x.e75 != x.e78
  {
  }

  lemma StartOf(at: seq<Vertex>, x: ExampleEdges, rest: set<Edge>)
    requires |at| == 9
    ensures [DepthFirst.VertexInfo(at[0], rest)] == Path(at, x)[..0] + [DepthFirst.VertexInfo(at[0], rest)]
    ensures {at[0]} == Elements(at[..1])
  {
  }

  /** All the way down: the search marks the two self edges and the edge back to position 5. */
  lemma AllDown(g: Arcs, at: seq<Vertex>, x: ExampleEdges) returns (s: Exploration)
    requires Drawing(g, at, x) && |at| == 9
    ensures s.g == g && s.source == at[0]
    ensures IsAt(s, Path(at, x)[..8] + [DepthFirst.VertexInfo(at[8], {})], Elements(at[..9]),
                 {x.entrySelf, x.e75, x.exitSelf})
  {
    hide *;
    OutOf(g, at, x);
    PathRests(at, x);
    BackEnds(g, at, x);
    var m1, m2 := {} + {x.entrySelf}, {} + {x.entrySelf} + {x.e75};
    StartOf(at, x, Out(g, at[0]));
    s := CanStart(g, at[0]);
    s := GoBack(s, at, x, 0, Out(g, at[0]), {}, 0, x.entrySelf);
    s := GoDown(s, at, x, 0, Out(g, at[0]) - {x.entrySelf}, m1);
    s := GoDown(s, at, x, 1, Out(g, at[1]), m1);
    s := GoDown(s, at, x, 2, Out(g, at[2]), m1);
    s := GoDown(s, at, x, 3, Out(g, at[3]), m1);
    s := GoDown(s, at, x, 4, Out(g, at[4]), m1);
    s := GoDown(s, at, x, 5, Out(g, at[5]), m1);
    s := GoDown(s, at, x, 6, Out(g, at[6]), m1);
    s := GoBack(s, at, x, 7, Out(g, at[7]), m1, 5, x.e75);
    s := GoDown(s, at, x, 7, Out(g, at[7]) - {x.e75}, m2);
    s := GoBack(s, at, x, 8, Out(g, at[8]), m2, 8, x.exitSelf);
    assert Out(g, at[8]) - {x.exitSelf} == {};
    assert m2 + {x.exitSelf} == {x.entrySelf, x.e75, x.exitSelf};
  }

  /** And back up, where the other edge out of position 1 leads to a vertex that is finished. */
  lemma AllUp(s: Exploration, at: seq<Vertex>, x: ExampleEdges, seen: set<Vertex>,
              marked: set<Edge>) returns (s': Exploration)
    requires Drawing(s.g, at, x) && |at| == 9 && at[6] in seen
    requires IsAt(s, Path(at, x)[..8] + [DepthFirst.VertexInfo(at[8], {})], seen, marked)
    ensures s'.g == s.g && s'.source == s.source && IsAt(s', [], seen, marked)
  {
    hide *;
    PathRests(at, x);
    BackEnds(s.g, at, x);
    s' := s;
    var k := 8;
    while k > 1
      invariant 1 <= k <= 8 && s'.g == s.g && s'.source == s.source
      invariant IsAt(s', Path(at, x)[..k] + [DepthFirst.VertexInfo(at[k], if k == 1 then {x.e16} else {})],
                     seen, marked)
    {
      s' := GoUp(s', at, x, k, seen, marked);
      k := k - 1;
      PathNext(at, x, k);
    }
    OffStack(s.g, at, x);
    s' := CanPass(s', Path(at, x)[..1], at[1], {x.e16}, seen, marked, x.e16);
    assert {x.e16} - {x.e16} == {};
    s' := GoUp(s', at, x, 1, seen, marked);
    PathNext(at, x, 0);
    s' := GoUp(s', at, x, 0, seen, marked);
    assert Path(at, x)[..0] == [];
  }

  lemma OffStack(g: Arcs, at: seq<Vertex>, x: ExampleEdges)
    requires Drawing(g, at, x) && |at| == 9
    ensures !DepthFirst.OnStack(Path(at, x)[..1] + [DepthFirst.VertexInfo(at[1], {x.e16})], at[6])
  {
  }

  /** Whatever graph is drawn for the list, `FixupBackEdges` may mark the edge from position 7 back to position 5, and
      no others but the self edges. */
  lemma SearchMayMark(r: Record) returns (x: ExampleEdges, s: Exploration)
    requires IsExample(r.c.prog) && Created(r)
    ensures Drawing(r.drawn, r.c.at, x) && x.Solids() == r.c.g.Keys && s.g == r.drawn && s.source == r.c.at[0]
    ensures MarkedBySearch(r.drawn, Elements(r.c.at), s.source, s.t, s.colors, Elements(r.c.at),
                           {r.entrySelf, x.e75, r.exitSelf})
  {
    hide *;
    x := ExampleDrawn(r);
    DrawingDistinct(r.drawn, r.c.at, x);
    s := AllDown(r.drawn, r.c.at, x);
    assert r.c.at[..9] == r.c.at;
    ElementsAre(r.c.at);
    s := AllUp(s, r.c.at, x, Elements(r.c.at), {x.entrySelf, x.e75, x.exitSelf});
    CanEnd(s, Elements(r.c.at), {x.entrySelf, x.e75, x.exitSelf}, Elements(r.c.at));
  }

  // ----- What these marks lose -----

  /** No vertex of the list is a candidate for removal. */
  lemma NothingRemoved(r: Record)
    requires IsExample(r.c.prog) && Created(r)
    ensures r.gone == {}
  {
    hide *;
    CreatedDrawn(r);
    DrawnLinked(r.c, r.orig, r.drawn, r.entrySelf, r.exitSelf);
    DrawnStatements(r.c, r.orig, r.drawn, r.entrySelf, r.exitSelf);
    NoCandidates();
    ExampleWays(r.c.prog);
    forall p | 0 <= p < |r.c.at| ensures !r.c.at[p].statement.IsRedundancyCandidate() {
      if 0 < p <= |r.c.prog| {
        NoCandidateAt(r.c, r.orig, p);
      }
    }
    forall v | v in r.gone ensures false {
      var p := RedundantAt(r.proxied, r.c.at, v);
    }
  }

  lemma NoCandidateAt(c: Building, orig: seq<Vertex>, p: nat)
    requires Linked(c, orig) && StatementsAt(c.prog, orig) && IsExample(c.prog) && |c.at| == |orig| == 9 && 0 < p <= 7
    ensures !c.at[p].statement.IsRedundancyCandidate()
  {
    hide Ways, Built, Complete;
    ExampleWays(c.prog);
    assert orig[p].statement == c.prog[p - 1];
  }

  lemma FinalHas(r: Record, e: Edge)
    requires IsExample(r.c.prog) && e in r.drawn && Created(r)
    ensures e in r.final && r.final[e] == r.drawn[e]
  {
    hide *;
    CreatedDrawn(r);
    NothingRemoved(r);
    SubgraphAt(r.drawn, r.proxied, e);
    ChainOfStayer(r.proxied, r.final, r.gone, r.chain, e);
  }

  lemma SolidFinal(r: Record)
    requires IsExample(r.c.prog) && Created(r)
    ensures SolidArcs(r.final) == r.c.g
  {
    hide *;
    CreatedDrawn(r);
    ProxiedSolid(r);
    NothingRemoved(r);
    SurvivingEdges(r.proxied, r.final, r.gone, r.chain);
    forall e | e in r.proxied ensures e in r.final && r.final[e] == r.proxied[e] {
      ChainOfStayer(r.proxied, r.final, r.gone, r.chain, e);
    }
    assert r.final == r.proxied;
  }

  /** The edges that are followed in the finished graph, once the edge back to position 5 is marked. */
  lemma FollowedFinal(r: Record, x: ExampleEdges)
    requires Drawing(r.drawn, r.c.at, x) && x.Solids() == r.c.g.Keys && IsExample(r.c.prog) && Created(r)
    requires r.marked == {r.entrySelf, x.e75, r.exitSelf} && x.entrySelf == r.entrySelf && x.exitSelf == r.exitSelf
    ensures WithoutCalls(FollowedArcs(r.final, r.marked)) == r.c.g - {x.e75}
  {
    hide *;
    SolidFinal(r);
    KeptAreFollowed(r);
    CreatedDrawn(r);
    SurvivingEdges(r.proxied, r.final, r.gone, r.chain);
    SelfEdgesApart(r.drawn, r.c.at, x);
    forall e | e in r.final ensures e in Kept(r) <==> e in r.c.g && e != x.e75 {
      KeptMeans(r, e);
      SolidMeans(r.final, e);
    }
    KeptIs(r.final, Kept(r), r.c.g, x.e75);
  }

  lemma SelfEdgesApart(g: Arcs, at: seq<Vertex>, x: ExampleEdges)
    requires Drawing(g, at, x)
    ensures x.e75 in x.Solids() && x.entrySelf !in x.Solids() && x.exitSelf !in x.Solids()
  {
  }

  lemma SolidMeans(g: Arcs, e: Edge)
    ensures e in SolidArcs(g) <==> e in g && !e.kind.Impossible?
    ensures e in SolidArcs(g) ==> SolidArcs(g)[e] == g[e]
  {
  }

  lemma KeptIs(g: Arcs, kept: set<Edge>, c: Arcs, lost: Edge)
    requires SolidArcs(g) == c && forall e | e in g :: e in kept <==> e in c && e != lost
    ensures Only(g, kept) == c - {lost}
  {
  }

  /** With the edge back to position 5 marked, the code there is reached by runs but no longer over unmarked edges. */
  lemma MarksCanLoseCode(r: Record, x: ExampleEdges)
    requires Drawing(r.drawn, r.c.at, x) && x.Solids() == r.c.g.Keys && IsExample(r.c.prog) && Created(r)
    requires r.marked == {r.entrySelf, x.e75, r.exitSelf} && x.entrySelf == r.entrySelf && x.exitSelf == r.exitSelf
    ensures r.c.at != [] && !MarksLoseNothing(r.final, r.marked, r.c.at[0])
  {
    hide *;
    CreatedDrawn(r);
    FollowedFinal(r, x);
    SolidFinal(r);
    BackIsSolid(r, x);
    DrawnSubgraph(r.c, r.orig, r.drawn, r.entrySelf, r.exitSelf);
    SolidsAre(r.c.g, r.drawn, r.c.at, x);
    CutOff(r.c.g, r.c.at, x);
    LosesCode(r.final, r.marked, r.c.at, x.e75);
  }

  lemma SolidsAre(g: Arcs, h: Arcs, at: seq<Vertex>, x: ExampleEdges)
    requires Drawing(h, at, x) && Subgraph(g, h) && g.Keys == x.Solids()
    ensures |at| == 9 && x.SolidIn(g, at) && forall p, q | 0 <= p < q < |at| :: at[p] != at[q]
  {
  }

  lemma CutOff(g: Arcs, at: seq<Vertex>, x: ExampleEdges)
    requires |at| == 9 && x.SolidIn(g, at) && g.Keys == x.Solids()
    requires forall p, q | 0 <= p < q < |at| :: at[p] != at[q]
    ensures Reaches(g - {x.e75}, at[0], at[7]) && !Reaches(g - {x.e75}, at[0], at[5])
  {
    var h: Arcs := g - {x.e75};
    var c := {at[0], at[1], at[2], at[3], at[6], at[7], at[8]};
    ApartFromBack(g, at, x);
    StaysAway(h, at, x);
    hide Reaches, IsWalk, Closed;
    ReachesRefl(h, at[0]);
    ReachesStep(h, at[0], x.e01);
    ReachesStep(h, at[0], x.e16);
    ReachesStep(h, at[0], x.e67);
    if Reaches(h, at[0], at[5]) {
      ClosedReaches(h, c, at[0], at[5]);
    }
  }

  lemma ApartFromBack(g: Arcs, at: seq<Vertex>, x: ExampleEdges)
    requires |at| == 9 && x.SolidIn(g, at) && forall p, q | 0 <= p < q < |at| :: at[p] != at[q]
    ensures x.e75 !in {x.e01, x.e12, x.e16, x.e23, x.e45, x.e56, x.e67, x.e78}
  {
  }

  lemma StaysAway(h: Arcs, at: seq<Vertex>, x: ExampleEdges)
    requires |at| == 9 && h.Keys == x.Solids() - {x.e75} && forall p, q | 0 <= p < q < |at| :: at[p] != at[q]
    requires x.SolidIn(h[x.e75 := Arc(at[7], at[5])], at)
    ensures Closed(h, {at[0], at[1], at[2], at[3], at[6], at[7], at[8]})
  {
  }

  lemma BackIsSolid(r: Record, x: ExampleEdges)
    requires Drawing(r.drawn, r.c.at, x) && x.Solids() == r.c.g.Keys && IsExample(r.c.prog) && Created(r)
    ensures |r.c.at| == 9 && x.e75 in r.final && r.final[x.e75] == Arc(r.c.at[7], r.c.at[5])
    ensures Possible(x.e75) && !x.e75.kind.FunctionCall?
  {
    hide *;
    BackArc(r.drawn, r.c.at, x);
    FinalHas(r, x.e75);
    SolidFinal(r);
    SolidMeans(r.final, x.e75);
    NewEdgeKinds(r, x.e75);
    PossibleMeans(x.e75);
    assert x.e75 in x.Solids() by {
      SelfEdgesApart(r.drawn, r.c.at, x);
    }
  }

  lemma BackArc(g: Arcs, at: seq<Vertex>, x: ExampleEdges)
    requires Drawing(g, at, x)
    ensures |at| == 9 && x.e75 in g && g[x.e75] == Arc(at[7], at[5])
  {
  }

  lemma PossibleMeans(e: Edge)
    ensures Possible(e) <==> !e.kind.Impossible? && !e.kind.Return? && !e.kind.FunctionCallBypass?
  {
  }

  lemma LosesCode(g: Arcs, back: set<Edge>, at: seq<Vertex>, e: Edge)
    requires |at| == 9 && e in g && g[e] == Arc(at[7], at[5]) && Possible(e) && !e.kind.FunctionCall?
    requires var h := WithoutCalls(FollowedArcs(g, back)); Reaches(h, at[0], at[7]) && !Reaches(h, at[0], at[5])
    ensures !MarksLoseNothing(g, back, at[0])
  {
  }
}
