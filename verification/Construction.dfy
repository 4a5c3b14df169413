/** Building a function's control flow graph from its statement list. */
module Construction {
  import opened Walks
  import opened Graphs
  import opened Programs

  /** How far the graph of a statement list has got: see `Built`. */
  datatype Building = Building(prog: Program, at: seq<Vertex>, g: Arcs, slots: map<Edge, Slot>, ways: seq<nat>)
  {
    ghost predicate Ok() {
      Placed(prog, at) && Built(prog, at, g, slots, ways)
    }
  }

  ghost predicate Unmarked(es: set<Edge>)
    reads es`isBackEdge
  {
    forall e | e in es :: !e.isBackEdge
  }

  /** The next way on from position `p`, if it is of this kind and leads there. */
  ghost predicate IsNextWay(c: Building, p: nat, kind: EdgeKind, source: Vertex, target: Vertex)
    requires c.Ok()
  {
    && p <= |c.prog| && c.ways[p] < |Ways(c.prog, p)|
    && var w := Ways(c.prog, p)[c.ways[p]];
    kind == w.kind && w.to < |c.at| && source == c.at[p] && target == c.at[w.to]
  }

  lemma NextWay(c: Building, p: nat, source: Vertex, target: Vertex, e: Edge) returns (c': Building)
    requires c.Ok() && IsNextWay(c, p, e.kind, source, target) && e !in c.g
    ensures p < |c.ways| && c'.ways == c.ways[p := c.ways[p] + 1]
    ensures c'.Ok() && c'.prog == c.prog && c'.at == c.at && c'.g == c.g[e := Arc(source, target)]
  {
    hide Ways;
    BuiltAdd(c.prog, c.at, c.g, c.slots, c.ways, p, e, Arc(source, target));
    c' := c.(g := c.g[e := Arc(source, target)], slots := c.slots[e := Slot(p, c.ways[p])],
             ways := c.ways[p := c.ways[p] + 1]);
    hide Built, Placed;
  }

  method AddWay(graph: Graph, source: Vertex, target: Vertex, kind: EdgeKind, ghost vs: set<Vertex>, ghost c: Building,
                ghost p: nat)
    returns (ghost c': Building)
    requires Represents(vs, c.g) && graph.edges == c.g.Keys && Unmarked(c.g.Keys) && source in vs && target in vs
    requires c.Ok() && IsNextWay(c, p, kind, source, target)
    modifies graph`edges, vs`inEdges, vs`outEdges
    ensures Represents(vs, c'.g) && graph.edges == c'.g.Keys && Unmarked(c'.g.Keys)
    ensures p < |c.ways| && c'.ways == c.ways[p := c.ways[p] + 1]
    ensures c'.Ok() && c'.prog == c.prog && c'.at == c.at
    ensures fresh(c'.g.Keys - c.g.Keys)
  {
    hide Represents, Building.Ok, IsNextWay;
    var e := new Edge(kind);
    c' := NextWay(c, p, source, target, e);
    graph.AddEdge(source, target, e, vs, c.g);
  }

  // ----- Adding the statements -----

  /** Positions of the flow control statements among the first `k`. */
  ghost function FlowPositions(prog: Program, k: nat): seq<nat>
    requires k <= |prog|
  {
    if k == 0 then [] else FlowPositions(prog, k - 1) + if IsFlow(prog, k) then [k] else []
  }

  /** Positions among the first `k` that follow a flow control statement. */
  ghost function LeaderPositions(prog: Program, k: nat): seq<nat>
    requires k <= |prog|
  {
    if k == 0 then [] else LeaderPositions(prog, k - 1) + if IsFlow(prog, k - 1) then [k] else []
  }

  lemma {:induction false} FlowPositionsAre(prog: Program, k: nat)
    requires k <= |prog|
    ensures forall p: nat :: p in FlowPositions(prog, k) <==> p <= k && IsFlow(prog, p)
    ensures forall i, j | 0 <= i < j < |FlowPositions(prog, k)| :: FlowPositions(prog, k)[i] < FlowPositions(prog, k)[j]
    ensures forall p: nat :: p in LeaderPositions(prog, k) <==> 0 < p <= k && IsFlow(prog, p - 1)
  {
    if k > 0 {
      FlowPositionsAre(prog, k - 1);
      var before := FlowPositions(prog, k - 1);
      forall i | 0 <= i < |before| ensures before[i] < k {
        assert before[i] in before;
      }
    }
  }

  /** A leader and the vertex that ended the basic block before it, as they were before any replacement. */
  datatype BasicBlockLeaderInfo = BasicBlockLeaderInfo(leader: Vertex, immediatePredecessor: Vertex)

  ghost predicate VerticesAt(at: seq<Vertex>, ps: seq<nat>, vertices: seq<Vertex>)
  {
    |vertices| == |ps| && forall i | 0 <= i < |ps| :: ps[i] < |at| && vertices[i] == at[ps[i]]
  }

  ghost predicate LeadersAt(at: seq<Vertex>, ps: seq<nat>, infos: seq<BasicBlockLeaderInfo>)
  {
    |infos| == |ps|
    && forall i | 0 <= i < |ps| :: 0 < ps[i] < |at| && infos[i] == BasicBlockLeaderInfo(at[ps[i]], at[ps[i] - 1])
  }

  ghost predicate LabelsAgree(at: seq<Vertex>, labels: map<string, nat>, labelMap: map<string, Vertex>)
  {
    labelMap.Keys == labels.Keys && forall l | l in labels :: labels[l] < |at| && labelMap[l] == at[labels[l]]
  }

  /** The fallthrough edges out of the first `k` positions, and nothing else yet. */
  ghost predicate FallsThrough(c: Building, k: nat)
  {
    |c.ways| == |c.prog| + 1 && forall q | 0 <= q < |c.ways| ::
      c.ways[q] == if q < k && !IsFlow(c.prog, q) then 1 else 0
  }

  lemma NothingBuilt(prog: Program, at: seq<Vertex>) returns (c: Building)
    requires Placed(prog, at)
    ensures c.Ok() && c.prog == prog && c.at == at && c.g == map[] && FallsThrough(c, 0)
  {
    var ways := BuiltNothing(prog, at);
    c := Building(prog, at, map[], map[], ways);
  }

  lemma FallthroughIsNext(c: Building, p: nat)
    requires c.Ok() && FallsThrough(c, p) && p <= |c.prog| && !IsFlow(c.prog, p)
    ensures IsNextWay(c, p, Fallthrough, c.at[p], c.at[p + 1])
  {
  }

  lemma FellThrough(c: Building, p: nat, c': Building)
    requires FallsThrough(c, p) && p < |c.ways| && !IsFlow(c.prog, p)
    requires c'.prog == c.prog && c'.ways == c.ways[p := c.ways[p] + 1]
    ensures FallsThrough(c', p + 1)
  {
  }

  lemma NoFallthrough(c: Building, p: nat)
    requires FallsThrough(c, p) && IsFlow(c.prog, p)
    ensures FallsThrough(c, p + 1)
  {
  }

  /** Falls through from one position to the next unless the first is a flow control statement. */
  method AddFallthrough(graph: Graph, source: Vertex, target: Vertex, ended: bool, ghost vs: set<Vertex>,
                        ghost c: Building, ghost p: nat)
    returns (ghost c': Building)
    requires Represents(vs, c.g) && graph.edges == c.g.Keys && Unmarked(c.g.Keys) && c.Ok() && FallsThrough(c, p)
    requires p <= |c.prog| && source == c.at[p] && target == c.at[p + 1] && source in vs && target in vs
    requires ended == IsFlow(c.prog, p)
    modifies graph`edges, vs`inEdges, vs`outEdges
    ensures Represents(vs, c'.g) && graph.edges == c'.g.Keys && Unmarked(c'.g.Keys)
    ensures c'.Ok() && c'.prog == c.prog && c'.at == c.at && FallsThrough(c', p + 1)
    ensures fresh(c'.g.Keys - c.g.Keys)
  {
    hide *;
    if ended {
      NoFallthrough(c, p);
      c' := c;
    } else {
      FallthroughIsNext(c, p);
      c' := AddWay(graph, source, target, Fallthrough, vs, c, p);
      FellThrough(c, p, c');
    }
  }

  /** Everything that is known about the list once its first `k` statements are in the graph. */
  ghost predicate Scanned(prog: Program, at: seq<Vertex>, k: nat, labelMap: map<string, Vertex>,
                          leaders: seq<BasicBlockLeaderInfo>, unlinked: seq<Vertex>)
    requires k <= |prog|
  {
    && LabelsAgree(at, Labels(prog, k), labelMap)
    && LeadersAt(at, LeaderPositions(prog, k), leaders)
    && VerticesAt(at, FlowPositions(prog, k), unlinked)
  }

  lemma ScanStart(prog: Program, at: seq<Vertex>)
    requires |at| == |prog| + 2
    ensures Scanned(prog, at, 0, map["EXIT" := at[ExitPosition(prog)]], [], [])
  {
  }

  lemma ScanOne(prog: Program, at: seq<Vertex>, k: nat, labelMap: map<string, Vertex>,
                leaders: seq<BasicBlockLeaderInfo>, unlinked: seq<Vertex>)
    requires k < |prog| && |at| == |prog| + 2 && Scanned(prog, at, k, labelMap, leaders, unlinked)
    ensures var v := at[k + 1];
            Scanned(prog, at, k + 1, if prog[k].Label? then labelMap[prog[k].name := v] else labelMap,
                    if IsFlow(prog, k) then leaders + [BasicBlockLeaderInfo(v, at[k])] else leaders,
                    if IsFlow(prog, k + 1) then unlinked + [v] else unlinked)
  {
    hide *;
    LabelsNext(prog, k);
    PositionsNext(prog, k);
    ScannedParts(prog, at, k, labelMap, leaders, unlinked);
    AgreeNext(prog, at, k, labelMap);
    LeaderNext(at, LeaderPositions(prog, k), leaders, k + 1);
    VertexNext(at, FlowPositions(prog, k), unlinked, k + 1);
    var labels' := if prog[k].Label? then labelMap[prog[k].name := at[k + 1]] else labelMap;
    var leaders' := if IsFlow(prog, k) then leaders + [BasicBlockLeaderInfo(at[k + 1], at[k])] else leaders;
    var unlinked' := if IsFlow(prog, k + 1) then unlinked + [at[k + 1]] else unlinked;
    PartsScanned(prog, at, k + 1, labels', leaders', unlinked');
  }

  lemma ScannedParts(prog: Program, at: seq<Vertex>, k: nat, labelMap: map<string, Vertex>,
                     leaders: seq<BasicBlockLeaderInfo>, unlinked: seq<Vertex>)
    requires k <= |prog| && Scanned(prog, at, k, labelMap, leaders, unlinked)
    ensures LabelsAgree(at, Labels(prog, k), labelMap)
    ensures LeadersAt(at, LeaderPositions(prog, k), leaders)
    ensures VerticesAt(at, FlowPositions(prog, k), unlinked)
  {
  }

  lemma PartsScanned(prog: Program, at: seq<Vertex>, k: nat, labelMap: map<string, Vertex>,
                     leaders: seq<BasicBlockLeaderInfo>, unlinked: seq<Vertex>)
    requires k <= |prog|
    requires LabelsAgree(at, Labels(prog, k), labelMap)
    requires LeadersAt(at, LeaderPositions(prog, k), leaders)
    requires VerticesAt(at, FlowPositions(prog, k), unlinked)
    ensures Scanned(prog, at, k, labelMap, leaders, unlinked)
  {
  }

  lemma PositionsNext(prog: Program, k: nat)
    requires k < |prog|
    ensures FlowPositions(prog, k + 1) == FlowPositions(prog, k) + if IsFlow(prog, k + 1) then [k + 1] else []
    ensures LeaderPositions(prog, k + 1) == LeaderPositions(prog, k) + if IsFlow(prog, k) then [k + 1] else []
    ensures !IsFlow(prog, k + 1) ==> FlowPositions(prog, k + 1) == FlowPositions(prog, k)
    ensures !IsFlow(prog, k) ==> LeaderPositions(prog, k + 1) == LeaderPositions(prog, k)
  {
  }

  lemma AgreeNext(prog: Program, at: seq<Vertex>, k: nat, labelMap: map<string, Vertex>)
    requires k < |prog| && |at| == |prog| + 2 && LabelsAgree(at, Labels(prog, k), labelMap)
    ensures prog[k].Label? ==>
              LabelsAgree(at, Labels(prog, k)[prog[k].name := k + 1], labelMap[prog[k].name := at[k + 1]])
  {
  }

  lemma LeaderNext(at: seq<Vertex>, ps: seq<nat>, infos: seq<BasicBlockLeaderInfo>, p: nat)
    requires LeadersAt(at, ps, infos) && 0 < p < |at|
    ensures LeadersAt(at, ps + [p], infos + [BasicBlockLeaderInfo(at[p], at[p - 1])])
  {
  }

  lemma VertexNext(at: seq<Vertex>, ps: seq<nat>, vertices: seq<Vertex>, p: nat)
    requires VerticesAt(at, ps, vertices) && p < |at|
    ensures VerticesAt(at, ps + [p], vertices + [at[p]])
  {
  }

  lemma LabelsNext(prog: Program, k: nat)
    requires k < |prog|
    ensures Labels(prog, k + 1) == if prog[k].Label? then Labels(prog, k)[prog[k].name := k + 1] else Labels(prog, k)
  {
  }

  ghost predicate StatementsAt(prog: Program, at: seq<Vertex>)
  {
    |at| == |prog| + 2 && forall p | 0 < p <= |prog| :: at[p].statement == prog[p - 1]
  }

  ghost function Added(entry: Vertex, exit: Vertex, statements: seq<Vertex>, k: nat): set<Vertex>
    requires k <= |statements|
  {
    if k == 0 then {entry, exit} else Added(entry, exit, statements, k - 1) + {statements[k - 1]}
  }

  lemma AddedMore(entry: Vertex, exit: Vertex, statements: seq<Vertex>, k: nat)
    requires k < |statements|
    ensures Added(entry, exit, statements, 0) == {entry, exit}
    ensures Added(entry, exit, statements, k + 1) == Added(entry, exit, statements, k) + {statements[k]}
  {
  }

  method AddStatements(graph: Graph, entry: Vertex, exit: Vertex, statements: seq<Vertex>,
                       ghost prog: Program, ghost at: seq<Vertex>, ghost vs: set<Vertex>)
    returns (labelMap: map<string, Vertex>, leaders: seq<BasicBlockLeaderInfo>, unlinked: seq<Vertex>,
             ghost c: Building)
    requires at == [entry] + statements + [exit] && Placed(prog, at) && StatementsAt(prog, at)
    requires Represents(vs, map[]) && graph.edges == {} && (forall v | v in at :: v in vs)
    requires graph.vertices == {entry, exit} && graph.IndicesUnique()
    modifies graph, vs`inEdges, vs`outEdges, statements`index
    ensures Represents(vs, c.g) && graph.edges == c.g.Keys && Unmarked(c.g.Keys) && fresh(c.g.Keys)
    ensures c.prog == prog && c.at == at && c.Ok() && FallsThrough(c, |prog| + 1)
    ensures graph.vertices == Added(entry, exit, statements, |statements|) && graph.IndicesUnique()
    ensures Scanned(prog, at, |prog|, labelMap, leaders, unlinked)
  {
    hide Represents, Built, Placed, Scanned, FallsThrough, Building.Ok, Labels, LeaderPositions, FlowPositions;
    PlacedLength(prog, at);
    c := NothingBuilt(prog, at);
    labelMap, leaders, unlinked := map["EXIT" := exit], [], [];
    ScanStart(prog, at);
    var prevVertex, prevVertexEndedBasicBlock := entry, false;
    var k := 0;
    while k < |statements|
      invariant k <= |statements|
      invariant Represents(vs, c.g) && graph.edges == c.g.Keys && Unmarked(c.g.Keys) && fresh(c.g.Keys)
      invariant c.prog == prog && c.at == at && c.Ok() && FallsThrough(c, k)
      invariant graph.vertices == Added(entry, exit, statements, k) && graph.IndicesUnique()
      invariant Scanned(prog, at, k, labelMap, leaders, unlinked)
      invariant prevVertex == at[k] && prevVertexEndedBasicBlock == IsFlow(prog, k)
    {
      var sbp := statements[k];
      assert sbp == at[k + 1];
      ScanOne(prog, at, k, labelMap, leaders, unlinked);
      AddedMore(entry, exit, statements, k);
      var added := graph.AddVertex(sbp);
      if sbp.statement.Label? {
        labelMap := labelMap[sbp.statement.name := sbp];
      }
      c := AddFallthrough(graph, prevVertex, sbp, prevVertexEndedBasicBlock, vs, c, k);
      if prevVertexEndedBasicBlock {
        leaders := leaders + [BasicBlockLeaderInfo(sbp, prevVertex)];
      }
      if sbp.statement.IsFlowControlUnlinked() {
        unlinked := unlinked + [sbp];
      }
      prevVertexEndedBasicBlock := sbp.statement.IsFlowControlUnlinked();
      prevVertex := sbp;
      k := k + 1;
    }
    c := AddFallthrough(graph, prevVertex, exit, prevVertexEndedBasicBlock, vs, c, k);
  }
}
