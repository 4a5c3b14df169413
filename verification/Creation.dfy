/** Creating a function's control flow graph. */
module Creation {
  import opened Walks
  import opened Graphs
  import opened Programs
  import opened Construction
  import opened Resolution

  ghost function Elements<T>(s: seq<T>): set<T>
  {
    set x | x in s
  }

  // ----- Linking the jumps -----

  /** The vertex at a position: a resolved jump among those `done` has been replaced. */
  ghost predicate InPlace(prog: Program, v: Vertex, orig: seq<Vertex>, done: set<nat>, p: nat)
    requires p < |orig|
  {
    if Resolves(prog, p) && p in done then v !in orig && v.statement == Resolved(prog[p - 1])
    else v == orig[p]
  }

  /** The jumps at the positions `done` have all their edges, the others none. */
  ghost predicate LinkedAt(c: Building, orig: seq<Vertex>, done: set<nat>)
  {
    && c.Ok() && |orig| == |c.at|
    && (forall p | 0 <= p < |c.ways| :: c.ways[p] == if IsFlow(c.prog, p) && p !in done then 0 else |Ways(c.prog, p)|)
    && (forall p | 0 <= p < |orig| :: InPlace(c.prog, c.at[p], orig, done, p))
  }

  lemma NothingLinked(c: Building)
    requires c.Ok() && FallsThrough(c, |c.prog| + 1)
    ensures LinkedAt(c, c.at, {})
  {
    assert forall p | 0 <= p < |c.ways| :: c.ways[p] == if IsFlow(c.prog, p) && p !in {} then 0 else |Ways(c.prog, p)|;
    assert forall p | 0 <= p < |c.at| :: InPlace(c.prog, c.at[p], c.at, {}, p);
  }

  lemma JumpIsNext(c: Building, orig: seq<Vertex>, done: set<nat>, p: nat, labelMap: map<string, Vertex>)
    requires LinkedAt(c, orig, done) && IsFlow(c.prog, p) && p !in done
    requires StatementsAt(c.prog, orig) && LabelsAgree(c.at, LabelMap(c.prog), labelMap)
    ensures p < |orig| && p < |c.at| && c.at[p] == orig[p] && AtJump(c, p, orig[p], labelMap)
  {
    hide Ways, IsBuilt, HasSlot;
  }

  lemma JumpStays(c: Building, orig: seq<Vertex>, done: set<nat>, p: nat, c': Building)
    requires LinkedAt(c, orig, done) && Went(c, p, c') && !Resolves(c.prog, p)
    ensures LinkedAt(c', orig, done + {p})
  {
    hide Built, Ways, Placed;
  }

  /** Another vertex takes the place of the linked jump. */
  lemma JumpGoes(c: Building, orig: seq<Vertex>, done: set<nat>, p: nat, c1: Building, w: Vertex, c': Building)
    requires LinkedAt(c, orig, done) && Went(c, p, c1) && Resolves(c.prog, p)
    requires p < |c.at| && w !in c.at && w !in orig && w.statement == Resolved(c.prog[p - 1])
    requires c' == c1.(at := c1.at[p := w], g := Renamed(c1.g, c1.at[p], w))
    ensures LinkedAt(c', orig, done + {p})
  {
    hide Built, Ways, Placed, Renamed;
    BuiltReplace(c1.prog, c1.at, c1.g, c1.slots, c1.ways, p, w);
  }

  lemma LabelsStillAgree(prog: Program, at: seq<Vertex>, labelMap: map<string, Vertex>, p: nat, w: Vertex)
    requires LabelsAgree(at, LabelMap(prog), labelMap) && IsFlow(prog, p) && p < |at|
    ensures LabelsAgree(at[p := w], LabelMap(prog), labelMap)
  {
    LabelsInRange(prog, |prog|);
  }

  lemma ReplaceElement(at: seq<Vertex>, p: nat, w: Vertex)
    requires p < |at| && forall i, j | 0 <= i < j < |at| :: at[i] != at[j]
    ensures Elements(at[p := w]) == Elements(at) - {at[p]} + {w}
  {
    forall v | v in Elements(at) - {at[p]} ensures v in at[p := w] {
      var i :| 0 <= i < |at| && at[i] == v;
      assert at[p := w][i] == v;
    }
    assert at[p := w][p] == w;
  }

  lemma LinkedMeans(c: Building, orig: seq<Vertex>, done: set<nat>)
    requires LinkedAt(c, orig, done)
    ensures c.Ok() && |orig| == |c.at| == |c.prog| + 2
    ensures forall i, j | 0 <= i < j < |c.at| :: c.at[i] != c.at[j]
  {
    hide Built;
  }

  lemma WentMeans(c: Building, p: nat, c': Building)
    requires Went(c, p, c')
    ensures c'.prog == c.prog && c'.at == c.at
  {
  }

  lemma ResolvesIs(prog: Program, p: nat)
    requires IsFlow(prog, p)
    ensures p <= |prog| && (Resolves(prog, p) <==> Ways(prog, p) != [])
  {
  }

  lemma StatementIs(prog: Program, orig: seq<Vertex>, p: nat)
    requires StatementsAt(prog, orig) && IsFlow(prog, p)
    ensures 0 < p <= |prog| && p < |orig| && orig[p].statement == prog[p - 1]
  {
  }

  method LinkOne(graph: Graph, v: Vertex, labelMap: map<string, Vertex>,
                 ghost vs: set<Vertex>, ghost c: Building, ghost orig: seq<Vertex>, ghost done: set<nat>, ghost p: nat)
    returns (ghost vs': set<Vertex>, ghost c': Building)
    requires Represents(vs, c.g) && graph.edges == c.g.Keys && Unmarked(c.g.Keys)
    requires Elements(c.at) <= vs && graph.vertices == Elements(c.at) && graph.IndicesUnique()
    requires LinkedAt(c, orig, done) && IsFlow(c.prog, p) && p !in done
    requires StatementsAt(c.prog, orig) && LabelsAgree(c.at, LabelMap(c.prog), labelMap)
    requires p < |orig| && v == orig[p]
    modifies graph, vs`inEdges, vs`outEdges, c.g.Keys`source, c.g.Keys`target
    ensures Represents(vs', c'.g) && graph.edges == c'.g.Keys && Unmarked(c'.g.Keys) && fresh(c'.g.Keys - c.g.Keys)
    ensures vs <= vs' && fresh(vs' - vs) && vs' - vs <= Elements(c'.at) && Elements(c.at) - {v} <= Elements(c'.at)
    ensures Elements(c'.at) <= vs' && graph.vertices == Elements(c'.at) && graph.IndicesUnique()
    ensures c'.prog == c.prog && LinkedAt(c', orig, done + {p}) && LabelsAgree(c'.at, LabelMap(c.prog), labelMap)
  {
    hide *;
    LinkedMeans(c, orig, done);
    JumpIsNext(c, orig, done, p, labelMap);
    StatementIs(c.prog, orig, p);
    ResolvesIs(c.prog, p);
    ElementsAre(c.at);
    var replacement, c1 := ResolveLinks(graph, v, labelMap, vs, c, p);
    WentMeans(c, p, c1);
    vs', c' := vs, c1;
    if replacement == null {
      JumpStays(c, orig, done, p, c1);
    } else {
      LabelsStillAgree(c.prog, c.at, labelMap, p, replacement);
      ReplaceElement(c.at, p, replacement);
      vs', c' := ReplaceJump(graph, v, replacement, vs, c1, p);
      JumpGoes(c, orig, done, p, c1, replacement, c');
    }
  }

  lemma ElementsAre(at: seq<Vertex>)
    ensures forall v :: v in Elements(at) <==> v in at
  {
  }

  method ReplaceJump(graph: Graph, v: Vertex, w: Vertex, ghost vs: set<Vertex>, ghost c: Building, ghost p: nat)
    returns (ghost vs': set<Vertex>, ghost c': Building)
    requires Represents(vs, c.g) && graph.edges == c.g.Keys && Unmarked(c.g.Keys) && graph.IndicesUnique()
    requires graph.vertices <= vs && v in graph.vertices && w !in vs && w.inEdges == {} && w.outEdges == {}
    requires p < |c.at| && v == c.at[p]
    modifies graph`vertices, graph`nextVertexId, vs`inEdges, vs`outEdges, w, c.g.Keys`source, c.g.Keys`target
    ensures vs' == vs + {w} && c' == c.(at := c.at[p := w], g := Renamed(c.g, c.at[p], w))
    ensures Represents(vs', c'.g) && c'.g.Keys == c.g.Keys && graph.IndicesUnique()
    ensures graph.vertices == old(graph.vertices) - {v} + {w}
  {
    hide *;
    vs', c' := vs + {w}, c.(at := c.at[p := w], g := Renamed(c.g, c.at[p], w));
    JoinVertex(vs, c.g, w);
    EdgeSets(vs', c.g, v);
    EdgeSetsWithin(c.g, v);
    RenamedKeys(c.g, v, w);
    var replaced := graph.ReplaceVertex(v, w, vs', c.g);
  }

  ghost predicate IsDone(ps: seq<nat>, i: nat, done: set<nat>)
    requires i <= |ps|
  {
    forall p :: p in done <==> p in ps[..i]
  }

  lemma NextUndone(prog: Program, i: nat, done: set<nat>) returns (p: nat)
    requires i < |FlowPositions(prog, |prog|)| && IsDone(FlowPositions(prog, |prog|), i, done)
    ensures p == FlowPositions(prog, |prog|)[i] && IsFlow(prog, p) && p !in done
    ensures IsDone(FlowPositions(prog, |prog|), i + 1, done + {p})
  {
    hide FlowPositions;
    FlowPositionsAre(prog, |prog|);
    var ps := FlowPositions(prog, |prog|);
    p := ps[i];
    assert p in ps;
    assert ps[..i + 1] == ps[..i] + [p];
  }

  lemma NothingDone(ps: seq<nat>)
    ensures IsDone(ps, 0, {})
  {
  }

  /** All jumps are linked. */
  ghost predicate Linked(c: Building, orig: seq<Vertex>)
  {
    && c.Ok() && |orig| == |c.at| && Complete(c.prog, c.ways)
    && forall p | 0 <= p < |orig| ::
         if Resolves(c.prog, p) then c.at[p] !in orig && c.at[p].statement == Resolved(c.prog[p - 1])
         else c.at[p] == orig[p]
  }

  lemma AllLinked(c: Building, orig: seq<Vertex>, done: set<nat>)
    requires LinkedAt(c, orig, done) && IsDone(FlowPositions(c.prog, |c.prog|), |FlowPositions(c.prog, |c.prog|)|, done)
    ensures Linked(c, orig)
  {
    hide FlowPositions, Ways;
    FlowPositionsAre(c.prog, |c.prog|);
    var ps := FlowPositions(c.prog, |c.prog|);
    assert ps[..|ps|] == ps;
    forall p | 0 <= p < |c.ways| ensures c.ways[p] == |Ways(c.prog, p)| {
      assert IsFlow(c.prog, p) ==> p in done;
    }
    forall p | 0 <= p < |orig|
      ensures if Resolves(c.prog, p) then c.at[p] !in orig && c.at[p].statement == Resolved(c.prog[p - 1])
              else c.at[p] == orig[p]
    {
      assert InPlace(c.prog, c.at[p], orig, done, p);
      assert IsFlow(c.prog, p) ==> p in done;
    }
  }

  lemma VertexAt(at: seq<Vertex>, ps: seq<nat>, vertices: seq<Vertex>, i: nat)
    requires VerticesAt(at, ps, vertices) && i < |ps|
    ensures ps[i] < |at| && |vertices| == |ps| && vertices[i] == at[ps[i]]
  {
  }

  /** Links the unlinked flow control statements, in the order of the list. */
  method LinkJumps(graph: Graph, unlinked: seq<Vertex>, labelMap: map<string, Vertex>, ghost vs: set<Vertex>,
                   ghost c: Building)
    returns (ghost vs': set<Vertex>, ghost c': Building)
    requires Represents(vs, c.g) && graph.edges == c.g.Keys && Unmarked(c.g.Keys)
    requires Elements(c.at) <= vs && graph.vertices == Elements(c.at) && graph.IndicesUnique()
    requires c.Ok() && FallsThrough(c, |c.prog| + 1)
    requires StatementsAt(c.prog, c.at) && LabelsAgree(c.at, LabelMap(c.prog), labelMap)
    requires VerticesAt(c.at, FlowPositions(c.prog, |c.prog|), unlinked)
    modifies graph, vs`inEdges, vs`outEdges, c.g.Keys`source, c.g.Keys`target
    ensures Represents(vs', c'.g) && graph.edges == c'.g.Keys && Unmarked(c'.g.Keys) && fresh(c'.g.Keys - c.g.Keys)
    ensures vs <= vs' <= vs + Elements(c'.at) && fresh(vs' - vs)
    ensures Elements(c'.at) <= vs' && graph.vertices == Elements(c'.at) && graph.IndicesUnique()
    ensures c'.prog == c.prog && Linked(c', c.at)
  {
    hide *;
    vs', c' := vs, c;
    ghost var ps, done := FlowPositions(c.prog, |c.prog|), {};
    NothingDone(ps);
    NothingLinked(c);
    ListedAll(c.at, ps, unlinked);
    var i := 0;
    while i < |unlinked|
      invariant i <= |unlinked| && IsDone(ps, i, done)
      invariant Represents(vs', c'.g) && graph.edges == c'.g.Keys && Unmarked(c'.g.Keys) && fresh(c'.g.Keys - c.g.Keys)
      invariant vs <= vs' <= vs + Elements(c'.at) && fresh(vs' - vs)
      invariant Elements(c'.at) <= vs' && graph.vertices == Elements(c'.at) && graph.IndicesUnique()
      invariant c'.prog == c.prog && LinkedAt(c', c.at, done) && LabelsAgree(c'.at, LabelMap(c.prog), labelMap)
    {
      ghost var p := NextUndone(c.prog, i, done);
      VertexAt(c.at, ps, unlinked, i);
      ElementsAre(c.at);
      vs', c' := LinkOne(graph, unlinked[i], labelMap, vs', c', c.at, done, p);
      done := done + {p};
      i := i + 1;
    }
    AllLinked(c', c.at, done);
  }

  lemma ListedAll(at: seq<Vertex>, ps: seq<nat>, vertices: seq<Vertex>)
    requires VerticesAt(at, ps, vertices)
    ensures |vertices| == |ps|
  {
  }

  // ----- Leaders without a way in -----

  /** An edge from the vertex before a leader, as both were before any replacement. */
  ghost predicate IsPatch(leaders: seq<BasicBlockLeaderInfo>, arc: Arc<Vertex>)
  {
    exists info :: info in leaders && arc == Arc(info.immediatePredecessor, info.leader)
  }

  /** `h` is `g` with one Impossible edge into each of the first `n` leaders that had no way in. */
  ghost predicate Patched(g: Arcs, h: Arcs, leaders: seq<BasicBlockLeaderInfo>, n: nat)
    requires n <= |leaders|
  {
    && Subgraph(g, h)
    && (forall e | e in h.Keys - g.Keys ::
          e.kind.Impossible? && IsPatch(leaders, h[e]) && In(g, h[e].dst) == {} && In(h, h[e].dst) == {e})
    && (forall j | 0 <= j < n :: In(h, leaders[j].leader) != {})
  }

  lemma NothingPatched(g: Arcs, leaders: seq<BasicBlockLeaderInfo>)
    ensures Patched(g, g, leaders, 0)
  {
  }

  lemma PatchNotNeeded(g: Arcs, h: Arcs, leaders: seq<BasicBlockLeaderInfo>, n: nat)
    requires n < |leaders| && Patched(g, h, leaders, n) && In(h, leaders[n].leader) != {}
    ensures Patched(g, h, leaders, n + 1)
  {
  }

  lemma PatchAdded(g: Arcs, h: Arcs, leaders: seq<BasicBlockLeaderInfo>, n: nat, e: Edge)
    requires n < |leaders| && Patched(g, h, leaders, n) && In(h, leaders[n].leader) == {} && e !in h
    requires e.kind.Impossible?
    ensures Patched(g, h[e := Arc(leaders[n].immediatePredecessor, leaders[n].leader)], leaders, n + 1)
  {
    var v := leaders[n].leader;
    var h' := h[e := Arc(leaders[n].immediatePredecessor, v)];
    assert leaders[n] in leaders && IsPatch(leaders, h'[e]);
    EdgeSetsAfterAdd(h, e, leaders[n].immediatePredecessor, v);
    assert In(g, v) <= In(h, v);
    forall x | x in h'.Keys - g.Keys
      ensures x.kind.Impossible? && IsPatch(leaders, h'[x]) && In(g, h'[x].dst) == {} && In(h', h'[x].dst) == {x}
    {
      assert x != e ==> x in In(h, h[x].dst);
    }
    forall j | 0 <= j < n + 1 ensures In(h', leaders[j].leader) != {} {
      assert In(h, leaders[j].leader) <= In(h', leaders[j].leader);
    }
  }

  ghost predicate LeadersWithin(leaders: seq<BasicBlockLeaderInfo>, vs: set<Vertex>)
  {
    forall info | info in leaders :: info.leader in vs && info.immediatePredecessor in vs
  }

  method AddImpossibleEdges(graph: Graph, leaders: seq<BasicBlockLeaderInfo>, ghost vs: set<Vertex>, ghost g: Arcs)
    returns (ghost h: Arcs)
    requires Represents(vs, g) && graph.edges == g.Keys && Unmarked(g.Keys) && LeadersWithin(leaders, vs)
    modifies graph`edges, vs`inEdges, vs`outEdges
    ensures Represents(vs, h) && graph.edges == h.Keys && Unmarked(h.Keys) && fresh(h.Keys - g.Keys)
    ensures Patched(g, h, leaders, |leaders|)
  {
    hide Represents, Patched;
    h := g;
    NothingPatched(g, leaders);
    var n := 0;
    while n < |leaders|
      invariant n <= |leaders| && Patched(g, h, leaders, n)
      invariant Represents(vs, h) && graph.edges == h.Keys && Unmarked(h.Keys) && fresh(h.Keys - g.Keys)
    {
      var p := leaders[n];
      assert p in leaders;
      EdgeSets(vs, h, p.leader);
      if |p.leader.inEdges| != 0 {
        PatchNotNeeded(g, h, leaders, n);
      } else {
        var e := new Edge(Impossible);
        PatchAdded(g, h, leaders, n, e);
        graph.AddEdge(p.immediatePredecessor, p.leader, e, vs, h);
        h := h[e := Arc(p.immediatePredecessor, p.leader)];
      }
      n := n + 1;
    }
  }

  /** The statements that have no way in, for a warning. */
  method CheckForNoInEdges(statements: seq<Vertex>) returns (found: bool, output: seq<Vertex>)
    ensures forall v :: v in output <==> v in statements && v.inEdges == {}
    ensures found <==> exists v :: v in statements && v.inEdges == {}
  {
    found, output := false, [];
    var i := 0;
    while i < |statements|
      invariant i <= |statements|
      invariant forall v :: v in output <==> v in statements[..i] && v.inEdges == {}
      invariant found <==> output != []
    {
      if |statements[i].inEdges| == 0 {
        output := output + [statements[i]];
        found := true;
      }
      i := i + 1;
    }
    assert output != [] ==> output[0] in output;
  }

  lemma NoneWithoutWayIn(vs: set<Vertex>, g: Arcs, h: Arcs, leaders: seq<BasicBlockLeaderInfo>)
    requires Represents(vs, h) && Patched(g, h, leaders, |leaders|) && LeadersWithin(leaders, vs)
    ensures forall i | 0 <= i < |leaders| :: leaders[i].leader.inEdges != {}
  {
    forall i | 0 <= i < |leaders| ensures leaders[i].leader.inEdges != {} {
      assert leaders[i] in leaders;
    }
  }

  lemma JumpHasNoWayIn(c: Building, orig: seq<Vertex>, p: nat)
    requires Linked(c, orig) && 0 < p <= |c.prog| && Resolves(c.prog, p) && IsFlow(c.prog, p - 1)
    ensures p < |c.at| && In(c.g, c.at[p]) == {}
  {
    hide Ways, Complete, HasSlot;
    forall e | e in c.g ensures c.g[e].dst != c.at[p] {
      assert IsBuilt(c.prog, c.at, c.g[e], e.kind, c.slots[e], c.ways);
      WaysInRange(c.prog, c.slots[e].pos, c.slots[e].way);
    }
  }

  lemma FallsInto(c: Building, orig: seq<Vertex>, p: nat)
    requires Linked(c, orig) && 0 < p <= |c.prog| && !IsFlow(c.prog, p - 1)
    ensures p < |c.at| && In(c.g, c.at[p]) != {}
  {
    hide Built, Placed, Complete;
    var e := WayIsEdge(c.prog, c.at, c.g, c.slots, c.ways, Slot(p - 1, 0));
    assert e in In(c.g, c.at[p]);
  }

  lemma LeadersFollowJumps(prog: Program, p: nat)
    ensures p in LeaderPositions(prog, |prog|) <==> 0 < p <= |prog| && IsFlow(prog, p - 1)
  {
    FlowPositionsAre(prog, |prog|);
  }

  lemma LeaderIs(prog: Program, orig: seq<Vertex>, leaders: seq<BasicBlockLeaderInfo>, p: nat)
    requires LeadersAt(orig, LeaderPositions(prog, |prog|), leaders)
    requires 0 < p <= |prog| && IsFlow(prog, p - 1) && p < |orig|
    ensures exists j :: 0 <= j < |leaders| && leaders[j].leader == orig[p]
  {
    hide LeaderPositions;
    LeadersFollowJumps(prog, p);
    var ps := LeaderPositions(prog, |prog|);
    var j :| 0 <= j < |ps| && ps[j] == p;
    assert leaders[j].leader == orig[p];
  }

  lemma PatchesLeadTo(prog: Program, orig: seq<Vertex>, leaders: seq<BasicBlockLeaderInfo>,
                      arc: Arc<Vertex>) returns (p: nat)
    requires LeadersAt(orig, LeaderPositions(prog, |prog|), leaders) && IsPatch(leaders, arc)
    ensures 0 < p <= |prog| && p < |orig| && IsFlow(prog, p - 1) && arc == Arc(orig[p - 1], orig[p])
  {
    hide LeaderPositions;
    var ps := LeaderPositions(prog, |prog|);
    var info :| info in leaders && arc == Arc(info.immediatePredecessor, info.leader);
    var j :| 0 <= j < |leaders| && leaders[j] == info;
    p := ps[j];
    LeadersFollowJumps(prog, p);
  }

  /** Of the statements in the graph, exactly the resolved jumps right after another jump are left without a way in:
      the list of leaders holds the vertices that those jumps were before they were replaced. */
  lemma WithoutWayIn(c: Building, orig: seq<Vertex>, h: Arcs, leaders: seq<BasicBlockLeaderInfo>, p: nat)
    requires Linked(c, orig) && Patched(c.g, h, leaders, |leaders|)
    requires LeadersAt(orig, LeaderPositions(c.prog, |c.prog|), leaders)
    requires 0 < p <= |c.prog|
    ensures p < |c.at|
    ensures In(h, c.at[p]) == {} <==> IsFlow(c.prog, p - 1) && Resolves(c.prog, p)
  {
    hide Ways, Built, LeadersAt, LeaderPositions, IsFlow;
    assert In(c.g, c.at[p]) <= In(h, c.at[p]);
    if !IsFlow(c.prog, p - 1) {
      FallsInto(c, orig, p);
    } else if !Resolves(c.prog, p) {
      LeaderIs(c.prog, orig, leaders, p);
    } else {
      JumpHasNoWayIn(c, orig, p);
      forall e | e in h.Keys - c.g.Keys ensures h[e].dst != c.at[p] {
        var q := PatchesLeadTo(c.prog, orig, leaders, h[e]);
        assert orig[q] in orig;
      }
    }
  }
}
