/** The control flow graph of a function, from its statement list to the finished graph. */
module ControlFlowGraphs {
  import opened Basics
  import opened Walks
  import opened Graphs
  import opened Programs
  import opened Construction
  import opened Resolution
  import opened Creation
  import opened DepthFirst
  import opened BackEdges
  import opened Contraction
  import opened CfgAlgs

  ghost function StatementsOf(statements: seq<Vertex>): Program
  {
    seq(|statements|, i requires 0 <= i < |statements| => statements[i].statement)
  }

  /** From a leader's predecessor to the leader, both as they were before any replacement. */
  ghost predicate IsPatchAt(prog: Program, orig: seq<Vertex>, arc: Arc<Vertex>)
  {
    exists p :: 0 < p <= |prog| && p < |orig| && IsFlow(prog, p - 1) && arc == Arc(orig[p - 1], orig[p])
  }

  ghost predicate LeftWithoutWayIn(c: Building, g: Arcs, p: nat)
    requires 0 < p <= |c.prog|
  {
    p < |c.at| && (In(g, c.at[p]) == {} <==> IsFlow(c.prog, p - 1) && Resolves(c.prog, p))
  }

  /** A patch is the one way into a leader that had none. */
  ghost predicate IsPatchIn(c: Building, orig: seq<Vertex>, g: Arcs, e: Edge)
    requires e in g
  {
    IsPatchAt(c.prog, orig, g[e]) && In(c.g, g[e].dst) == {} && In(g, g[e].dst) == {e}
  }

  /** `g` is the complete graph of the list with Impossible edges: the self edges of ENTRY and EXIT, and those into
      leaders that would have had no way in. */
  ghost predicate Drawn(c: Building, orig: seq<Vertex>, g: Arcs, entrySelf: Edge, exitSelf: Edge)
  {
    && Linked(c, orig) && |c.at| == |c.prog| + 2 && Placed(c.prog, orig) && StatementsAt(c.prog, orig)
    && Subgraph(c.g, g)
    && entrySelf in g && g[entrySelf] == Arc(c.at[0], c.at[0])
    && exitSelf in g && g[exitSelf] == Arc(c.at[|c.prog| + 1], c.at[|c.prog| + 1])
    && (forall e | e in g.Keys - c.g.Keys ::
          e.kind.Impossible? && (e == entrySelf || e == exitSelf || IsPatchIn(c, orig, g, e)))
    && entrySelf !in c.g && exitSelf !in c.g
    && (forall p | 0 < p <= |c.prog| :: LeftWithoutWayIn(c, g, p))
  }

  lemma SelfEdgesDrawn(c: Building, orig: seq<Vertex>, h: Arcs, leaders: seq<BasicBlockLeaderInfo>, a: Edge, b: Edge)
    requires Linked(c, orig) && Placed(c.prog, orig) && StatementsAt(c.prog, orig)
    requires Patched(c.g, h, leaders, |leaders|)
    requires LeadersAt(orig, LeaderPositions(c.prog, |c.prog|), leaders)
    requires a !in h && b !in h && a != b && a.kind.Impossible? && b.kind.Impossible?
    ensures |c.at| == |c.prog| + 2
    ensures Drawn(c, orig, h[a := Arc(c.at[0], c.at[0])][b := Arc(c.at[|c.prog| + 1], c.at[|c.prog| + 1])], a, b)
  {
    hide Ways, Built, Complete, LeadersAt, LeaderPositions, Patched, IsPatchIn;
    PlacedLength(c.prog, c.at);
    var g := h[a := Arc(c.at[0], c.at[0])][b := Arc(c.at[|c.prog| + 1], c.at[|c.prog| + 1])];
    PatchedMeans(c, orig, h, leaders);
    forall p | 0 < p <= |c.prog| ensures LeftWithoutWayIn(c, g, p) {
      WithoutWayIn(c, orig, h, leaders, p);
      assert In(g, c.at[p]) == In(h, c.at[p]);
    }
    forall e | e in h.Keys - c.g.Keys ensures IsPatchIn(c, orig, g, e) {
      PatchStays(c, orig, h, e, a, b);
    }
  }

  lemma PatchStays(c: Building, orig: seq<Vertex>, h: Arcs, e: Edge, a: Edge, b: Edge)
    requires Linked(c, orig) && Placed(c.prog, orig) && |c.at| == |orig| == |c.prog| + 2 && e in h && a !in h && b !in h
    requires IsPatchIn(c, orig, h, e)
    ensures IsPatchIn(c, orig, h[a := Arc(c.at[0], c.at[0])][b := Arc(c.at[|c.prog| + 1], c.at[|c.prog| + 1])], e)
  {
    hide Ways, Built, Complete;
    var p :| 0 < p <= |c.prog| && p < |orig| && IsFlow(c.prog, p - 1) && h[e] == Arc(orig[p - 1], orig[p]);
    assert c.at[0] == orig[0] && c.at[|c.prog| + 1] == orig[|c.prog| + 1];
    var g := h[a := Arc(c.at[0], c.at[0])][b := Arc(c.at[|c.prog| + 1], c.at[|c.prog| + 1])];
    assert In(g, h[e].dst) == In(h, h[e].dst);
  }

  lemma PatchedMeans(c: Building, orig: seq<Vertex>, h: Arcs, leaders: seq<BasicBlockLeaderInfo>)
    requires Patched(c.g, h, leaders, |leaders|)
    requires LeadersAt(orig, LeaderPositions(c.prog, |c.prog|), leaders)
    ensures Subgraph(c.g, h)
    ensures forall e | e in h.Keys - c.g.Keys :: e.kind.Impossible? && IsPatchIn(c, orig, h, e)
  {
    hide LeadersAt, LeaderPositions, IsFlow, IsPatch;
    forall e | e in h.Keys - c.g.Keys ensures IsPatchIn(c, orig, h, e) {
      var p := PatchesLeadTo(c.prog, orig, leaders, h[e]);
    }
  }

  /** The graph is empty but for ENTRY and EXIT, and no vertex has an edge. */
  ghost predicate Blank(graph: Graph, at: seq<Vertex>, vs: set<Vertex>)
    reads graph, at, vs, graph.vertices
  {
    && |at| >= 2 && Elements(at) == vs && (forall i, j | 0 <= i < j < |at| :: at[i] != at[j])
    && (forall v | v in vs :: v.inEdges == {} && v.outEdges == {})
    && graph.edges == {} && graph.vertices == {at[0], at[|at| - 1]} && graph.IndicesUnique()
  }

  lemma BlankMeans(graph: Graph, entry: Vertex, exit: Vertex, statements: seq<Vertex>, vs: set<Vertex>)
    requires Blank(graph, [entry] + statements + [exit], vs)
    ensures var prog, at := StatementsOf(statements), [entry] + statements + [exit];
            && Placed(prog, at) && StatementsAt(prog, at) && |prog| == |statements| && at[0] == entry
            && at[|prog| + 1] == exit
            && Represents(vs, map[]) && graph.edges == {} && Elements(at) == vs
            && (forall v | v in at :: v in vs) && Elements(statements) <= vs
            && graph.vertices == {entry, exit} && graph.IndicesUnique()
  {
    var at := [entry] + statements + [exit];
    forall v | v in statements ensures v in at {
    }
  }

  lemma {:induction false} AddedElements(entry: Vertex, exit: Vertex, statements: seq<Vertex>, k: nat)
    requires k <= |statements|
    ensures Added(entry, exit, statements, k) == Elements([entry] + statements[..k] + [exit])
  {
    if k == 0 {
      assert [entry] + statements[..0] + [exit] == [entry, exit];
    } else {
      AddedElements(entry, exit, statements, k - 1);
      assert statements[..k] == statements[..k - 1] + [statements[k - 1]];
    }
  }

  lemma LeadersAre(at: seq<Vertex>, ps: seq<nat>, leaders: seq<BasicBlockLeaderInfo>)
    requires LeadersAt(at, ps, leaders)
    ensures LeadersWithin(leaders, Elements(at))
  {
    forall info | info in leaders ensures info.leader in at && info.immediatePredecessor in at {
      var j :| 0 <= j < |leaders| && leaders[j] == info;
      assert info == BasicBlockLeaderInfo(at[ps[j]], at[ps[j] - 1]);
    }
  }

  lemma WithinMore(leaders: seq<BasicBlockLeaderInfo>, vs: set<Vertex>, vs': set<Vertex>)
    requires LeadersWithin(leaders, vs) && vs <= vs'
    ensures LeadersWithin(leaders, vs')
  {
  }

  /** Adds all edges of the list. */
  method Connect(graph: Graph, entry: Vertex, exit: Vertex, statements: seq<Vertex>, ghost vs: set<Vertex>)
    returns (leaders: seq<BasicBlockLeaderInfo>, ghost vs': set<Vertex>, ghost c: Building)
    requires Blank(graph, [entry] + statements + [exit], vs)
    modifies graph, vs`inEdges, vs`outEdges, statements`index
    ensures Represents(vs', c.g) && graph.edges == c.g.Keys && Unmarked(c.g.Keys) && fresh(c.g.Keys)
    ensures vs <= vs' <= vs + Elements(c.at) && fresh(vs' - vs)
    ensures Elements(c.at) <= vs' && graph.vertices == Elements(c.at) && graph.IndicesUnique()
    ensures c.prog == StatementsOf(statements) && Linked(c, [entry] + statements + [exit])
    ensures LeadersAt([entry] + statements + [exit], LeaderPositions(c.prog, |c.prog|), leaders)
    ensures LeadersWithin(leaders, vs)
  {
    hide *;
    ghost var prog, at := StatementsOf(statements), [entry] + statements + [exit];
    BlankMeans(graph, entry, exit, statements, vs);
    var labelMap, unlinked;
    labelMap, leaders, unlinked, c := AddStatements(graph, entry, exit, statements, prog, at, vs);
    AddedElements(entry, exit, statements, |statements|);
    assert statements[..|statements|] == statements;
    ScannedParts(prog, at, |prog|, labelMap, leaders, unlinked);
    LabelMapIs(prog);
    LeadersAre(at, LeaderPositions(prog, |prog|), leaders);
    vs', c := LinkJumps(graph, unlinked, labelMap, vs, c);
  }

  lemma LabelMapIs(prog: Program)
    ensures LabelMap(prog) == Labels(prog, |prog|)
  {
  }

  /** All edges before the graph is simplified. The original warns about leaders without a way in: there are none. */
  method Draw(graph: Graph, entry: Vertex, exit: Vertex, statements: seq<Vertex>, ghost vs: set<Vertex>)
    returns (entrySelf: Edge, exitSelf: Edge, warned: bool, ghost vs': set<Vertex>, ghost c: Building, ghost g: Arcs)
    requires Blank(graph, [entry] + statements + [exit], vs)
    modifies graph, vs`inEdges, vs`outEdges, statements`index
    ensures Represents(vs', g) && graph.edges == g.Keys && Unmarked(g.Keys) && fresh(g.Keys)
    ensures vs <= vs' <= vs + Elements(c.at) && fresh(vs' - vs)
    ensures Elements(c.at) <= vs' && graph.vertices == Elements(c.at) && graph.IndicesUnique()
    ensures c.prog == StatementsOf(statements) && Drawn(c, [entry] + statements + [exit], g, entrySelf, exitSelf)
    ensures |c.at| == |c.prog| + 2 && c.at[0] == entry && c.at[|c.prog| + 1] == exit
    ensures !warned
  {
    hide *;
    ghost var orig := [entry] + statements + [exit];
    BlankMeans(graph, entry, exit, statements, vs);
    var leaders;
    leaders, vs', c := Connect(graph, entry, exit, statements, vs);
    LinkedEnds(c, orig);
    ConnectedStatements(statements, c);
    WithinMore(leaders, vs, vs');
    ghost var h;
    warned, h := ConnectLeaders(graph, leaders, vs', c.g);
    EndsThere(c.at, entry);
    EndsThere(c.at, exit);
    entrySelf, exitSelf, g := AddSelfEdges(graph, entry, exit, vs', h);
    SelfEdgesDrawn(c, orig, h, leaders, entrySelf, exitSelf);
  }

  /** Adds the Impossible edges, after which there is nothing to warn about. */
  method ConnectLeaders(graph: Graph, leaders: seq<BasicBlockLeaderInfo>, ghost vs: set<Vertex>, ghost g: Arcs)
    returns (warned: bool, ghost h: Arcs)
    requires Represents(vs, g) && graph.edges == g.Keys && Unmarked(g.Keys) && LeadersWithin(leaders, vs)
    modifies graph`edges, vs`inEdges, vs`outEdges
    ensures Represents(vs, h) && graph.edges == h.Keys && Unmarked(h.Keys) && fresh(h.Keys - g.Keys)
    ensures Patched(g, h, leaders, |leaders|) && !warned
  {
    hide *;
    h := AddImpossibleEdges(graph, leaders, vs, g);
    NoneWithoutWayIn(vs, g, h, leaders);
    var noInEdges;
    warned, noInEdges := CheckForNoInEdges(seq(|leaders|, i requires 0 <= i < |leaders| => leaders[i].leader));
  }

  method AddSelfEdges(graph: Graph, entry: Vertex, exit: Vertex, ghost vs: set<Vertex>, ghost h: Arcs)
    returns (entrySelf: Edge, exitSelf: Edge, ghost g: Arcs)
    requires Represents(vs, h) && graph.edges == h.Keys && Unmarked(h.Keys) && entry in vs && exit in vs
    modifies graph`edges, vs`inEdges, vs`outEdges
    ensures entrySelf !in h && exitSelf !in h && entrySelf != exitSelf && entrySelf.kind.Impossible?
    ensures exitSelf.kind.Impossible?
    ensures g == h[entrySelf := Arc(entry, entry)][exitSelf := Arc(exit, exit)]
    ensures Represents(vs, g) && graph.edges == g.Keys && Unmarked(g.Keys) && fresh(g.Keys - h.Keys)
  {
    hide Represents;
    entrySelf := new Edge(Impossible);
    graph.AddEdge(entry, entry, entrySelf, vs, h);
    ghost var g1 := h[entrySelf := Arc(entry, entry)];
    exitSelf := new Edge(Impossible);
    graph.AddEdge(exit, exit, exitSelf, vs, g1);
    g := g1[exitSelf := Arc(exit, exit)];
  }

  lemma LinkedEnds(c: Building, orig: seq<Vertex>)
    requires Linked(c, orig)
    ensures |orig| == |c.at| == |c.prog| + 2 && c.at[0] == orig[0] && c.at[|c.prog| + 1] == orig[|c.prog| + 1]
  {
    hide Ways, Built, Complete;
    PlacedLength(c.prog, c.at);
  }

  lemma ConnectedStatements(statements: seq<Vertex>, c: Building)
    requires c.prog == StatementsOf(statements)
    ensures |c.prog| == |statements|
    ensures forall entry, exit :: StatementsAt(c.prog, [entry] + statements + [exit])
  {
  }

  lemma EndsThere(at: seq<Vertex>, v: Vertex)
    ensures v in at ==> v in Elements(at)
  {
  }

  /** What is known about the creation of a graph: all its vertices by position, the edges it was drawn with, the
      search through them with the back edges it marked and the vertices it found from ENTRY, the edges with the
      proxies, and the graph that is left after the redundant vertices `gone` have been contracted. */
  datatype Record = Record(c: Building, orig: seq<Vertex>, entrySelf: Edge, exitSelf: Edge, drawn: Arcs,
                           t: Trace<Vertex, Edge>, colors: map<Vertex, Color>, marked: set<Edge>, first: set<Vertex>,
                           proxied: Arcs, gone: set<Vertex>, chain: map<Edge, seq<Edge>>, final: Arcs)

  ghost predicate Created(r: Record)
  {
    && Drawn(r.c, r.orig, r.drawn, r.entrySelf, r.exitSelf)
    && r.c.at != [] && r.c.at[0].statement == Entry && r.c.at[|r.c.at| - 1].statement == Exit
    && Elements(r.c.at) <= r.t.path.Keys && WellMarked(r.drawn, r.c.at[0], r.t.path.Keys, r.first, r.marked)
    && ProxiesOk(r.drawn, r.proxied, r.t.path, r.marked)
    && r.gone == RedundantIn(r.proxied, Elements(r.c.at))
    && Contracted(r.proxied, r.final, r.gone, r.chain) && OneWayIn(r.proxied, r.gone)
    && DegreesKept(r.proxied, r.final, r.gone, Elements(r.c.at))
  }

  /** The marks come from the search. Most of what follows only needs what `Created` says they achieve. */
  ghost predicate Searched(r: Record)
  {
    r.c.at != [] && MarkedBySearch(r.drawn, Elements(r.c.at), r.c.at[0], r.t, r.colors, r.first, r.marked)
  }

  /** Exactly the edges `marked` are marked. */
  ghost predicate MarkedAre(es: set<Edge>, marked: set<Edge>)
    reads es`isBackEdge
  {
    forall e | e in es :: e.isBackEdge <==> e in marked
  }

  lemma MarkedNow(g: Arcs, h: Arcs, vertices: set<Vertex>, entry: Vertex, t: Trace<Vertex, Edge>,
                  colors: map<Vertex, Color>, first: set<Vertex>, marked: set<Edge>)
    requires MarkedBySearch(g, vertices, entry, t, colors, first, marked)
    requires forall e | e in g :: e.isBackEdge <==> e in marked
    requires forall e | e in h && e !in g :: !e.isBackEdge
    ensures MarkedAre(h.Keys, marked)
  {
    hide Searching, FirstTree, BackOf;
  }

  lemma FewerMarked(g: Arcs, h: Arcs, gone: set<Vertex>, chain: map<Edge, seq<Edge>>, marked: set<Edge>)
    requires Contracted(g, h, gone, chain) && MarkedAre(g.Keys, marked)
    ensures MarkedAre(h.Keys, marked) && h.Keys <= g.Keys
  {
  }

  lemma KeptWithin(g: Arcs, h: Arcs, gone: set<Vertex>, vs: set<Vertex>, vs': set<Vertex>)
    requires DegreesKept(g, h, gone, vs') && vs <= vs'
    ensures DegreesKept(g, h, gone, vs)
  {
  }

  lemma Create(r: Record)
    requires Drawn(r.c, r.orig, r.drawn, r.entrySelf, r.exitSelf)
    requires r.c.at != [] && r.c.at[0].statement == Entry && r.c.at[|r.c.at| - 1].statement == Exit
    requires MarkedBySearch(r.drawn, Elements(r.c.at), r.c.at[0], r.t, r.colors, r.first, r.marked)
    requires ProxiesOk(r.drawn, r.proxied, r.t.path, r.marked)
    requires r.gone == RedundantIn(r.proxied, Elements(r.c.at))
    requires Contracted(r.proxied, r.final, r.gone, r.chain) && OneWayIn(r.proxied, r.gone)
    requires DegreesKept(r.proxied, r.final, r.gone, Elements(r.c.at))
    ensures Created(r) && Searched(r)
  {
    hide Drawn, WellMarked, ProxiesOk, DepthFirst.Searching, FirstTree, Contracted, OneWayIn, DegreesKept, RedundantIn;
    hide BackOf;
  }

  lemma NoMarksMeans(es: set<Edge>)
    requires Unmarked(es)
    ensures forall e | e in es :: !e.isBackEdge
  {
  }

  ghost predicate Distinct(vertices: seq<Vertex>)
  {
    forall i, j | 0 <= i < j < |vertices| :: vertices[i] != vertices[j]
  }

  ghost predicate EdgeFree(vertices: set<Vertex>)
    reads vertices
  {
    forall v | v in vertices :: v.inEdges == {} && v.outEdges == {}
  }

  lemma StartsBlank(graph: Graph, entry: Vertex, exit: Vertex, statements: seq<Vertex>)
    requires Distinct(statements) && EdgeFree(Elements(statements)) && EdgeFree({entry, exit})
    requires entry != exit && entry !in statements && exit !in statements
    requires graph.edges == {} && graph.vertices == {entry, exit} && graph.IndicesUnique()
    ensures Blank(graph, [entry] + statements + [exit], Elements([entry] + statements + [exit]))
    ensures Elements([entry] + statements + [exit]) == Elements(statements) + {entry, exit}
  {
  }

  /** The graph of a statement list; `warned` says whether the original prints a warning about missing in-edges. */
  method CreateControlFlowGraph(statements: seq<Vertex>)
    returns (f: Function, warned: bool, ghost vs: set<Vertex>, ghost r: Record)
    requires Distinct(statements) && EdgeFree(Elements(statements))
    modifies statements`index, statements`inEdges, statements`outEdges
    ensures fresh(f) && fresh(f.cfg) && fresh(vs - Elements(statements)) && fresh(r.final.Keys)
    ensures Represents(vs, r.final) && f.cfg.edges == r.final.Keys && MarkedAre(r.final.Keys, r.marked)
    ensures f.cfg.vertices == Elements(r.c.at) - r.gone <= vs && f.cfg.IndicesUnique()
    ensures r.c.prog == StatementsOf(statements) && Created(r) && Searched(r)
    ensures vs <= Elements(r.orig) + Elements(r.c.at)
    ensures r.orig == [f.entry] + statements + [f.exit]
    ensures |r.c.at| == |r.c.prog| + 2 && f.entry == r.c.at[0] && f.exit == r.c.at[|r.c.prog| + 1]
    ensures f.entrySelfEdge == r.entrySelf && f.entry.index == 0 && f.exit.index == 1
    ensures !warned
  {
    hide *;
    var graph, entry, exit := Start(statements);
    ElementsAre(statements);
    ghost var orig := [entry] + statements + [exit];
    var entrySelf, exitSelf;
    ghost var c, g, h, t, colors, marked, first, final, gone, chain;
    entrySelf, exitSelf, warned, vs, c, g := Draw(graph, entry, exit, statements, Elements(orig));
    h, t, colors, marked, first, final, gone, chain := Simplify(graph, entry, vs, g, Elements(c.at));
    r := Record(c, orig, entrySelf, exitSelf, g, t, colors, marked, first, h, gone, chain, final);
    Create(r);
    vs := vs - gone;
    f := new Function(graph, entry, exit, entrySelf);
  }

  method Start(statements: seq<Vertex>) returns (graph: Graph, entry: Vertex, exit: Vertex)
    requires Distinct(statements) && EdgeFree(Elements(statements))
    ensures fresh(graph) && fresh(entry) && fresh(exit) && entry.statement == Entry && exit.statement == Exit
    ensures entry.index == 0 && exit.index == 1
    ensures Blank(graph, [entry] + statements + [exit], Elements([entry] + statements + [exit]))
    ensures Elements([entry] + statements + [exit]) == Elements(statements) + {entry, exit}
  {
    hide Blank;
    graph := new Graph();
    entry := new Vertex(Entry);
    exit := new Vertex(Exit);
    var added := graph.AddVertex(entry);
    added := graph.AddVertex(exit);
    StartsBlank(graph, entry, exit, statements);
  }

  /** Marks the back edges and removes the redundant vertices. */
  method Simplify(graph: Graph, entry: Vertex, ghost vs: set<Vertex>, ghost g: Arcs, ghost vertices: set<Vertex>)
    returns (ghost h: Arcs, ghost t: Trace<Vertex, Edge>, ghost colors: map<Vertex, Color>, ghost marked: set<Edge>,
             ghost first: set<Vertex>, ghost final: Arcs, ghost gone: set<Vertex>, ghost chain: map<Edge, seq<Edge>>)
    requires Represents(vs, g) && graph.edges == g.Keys && Unmarked(g.Keys)
    requires graph.vertices == vertices <= vs && graph.IndicesUnique()
    modifies graph`vertices, graph`edges, vs`inEdges, vs`outEdges, g.Keys`isBackEdge, g.Keys`source, g.Keys`target
    ensures Represents(vs - gone, final) && graph.edges == final.Keys && MarkedAre(final.Keys, marked)
    ensures fresh(final.Keys - g.Keys)
    ensures graph.vertices == vertices - gone && graph.IndicesUnique()
    ensures MarkedBySearch(g, vertices, entry, t, colors, first, marked) && ProxiesOk(g, h, t.path, marked)
    ensures gone == RedundantIn(h, vertices)
    ensures Contracted(h, final, gone, chain) && OneWayIn(h, gone) && DegreesKept(h, final, gone, vertices)
  {
    hide *;
    NoMarksMeans(g.Keys);
    h, marked, first, t, colors := FixupBackEdges(graph, entry, vs, g);
    MarkedNow(g, h, graph.vertices, entry, t, colors, first, marked);
    final, gone, chain := RemoveRedundantNodes(graph, vs, h);
    FewerMarked(h, final, gone, chain, marked);
    KeptWithin(h, final, gone, vertices, vs);
  }
}
