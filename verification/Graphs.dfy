/** The mutable, doubly linked control flow graph: vertices keep the sets of their in- and out-edges,
    edges know both ends, and a graph keeps its vertices and edges. */
module Graphs {
  import opened Walks

  /** The edges of a graph with their ends, as a value. */
  type Arcs = map<Edge, Arc<Vertex>>

  /** What a vertex stands for. The Unlinked forms are replaced once their labels are looked up. */
  datatype Statement =
    | Entry
    | Exit
    | Plain
    | Label(name: string)
    | CallUnresolved(name: string)
    | CallResolved(target: Function)
    | Goto
    | If
    | Switch
    | GotoUnlinked(name: string)
    | ReturnUnlinked
    | IfUnlinked(onTrue: string, onFalse: string)
    | CaseUnlinked(name: string)
    | SwitchUnlinked(cases: seq<string>)
  {
    predicate IsFlowControlUnlinked() {
      GotoUnlinked? || ReturnUnlinked? || IfUnlinked? || CaseUnlinked? || SwitchUnlinked?
    }

    predicate IsDecision() {
      If? || Switch?
    }

    /** A Goto, or a label made up by the compiler, whose name starts with '<'. */
    predicate IsRedundancyCandidate() {
      Goto? || (Label? && name != "" && name[0] == '<')
    }
  }

  datatype EdgeKind =
    | Fallthrough
    | IfTrue
    | IfFalse
    | Impossible
    | FunctionCall(call: Vertex)
    | Return(call: Vertex)
    | FunctionCallBypass

  class Vertex {
    const statement: Statement
    var inEdges: set<Edge>
    var outEdges: set<Edge>
    var index: nat

    constructor (statement: Statement)
      ensures this.statement == statement
      ensures inEdges == {} && outEdges == {}
    {
      this.statement := statement;
      inEdges, outEdges := {}, {};
    }

    /** Hands the edges of this vertex to `other` and takes over the edge sets `other` had.
        Only the edges given away learn about it, so `other` is meant to be free of edges. */
    method TransferOwnedResourcesTo(other: Vertex)
      requires other != this
      modifies this`inEdges, this`outEdges, other`inEdges, other`outEdges, inEdges`target, outEdges`source
      ensures other.inEdges == old(inEdges) && other.outEdges == old(outEdges)
      ensures inEdges == old(other.inEdges) && outEdges == old(other.outEdges)
      ensures forall e | e in old(inEdges) :: e.target == other
      ensures forall e | e in old(outEdges) :: e.source == other
    {
      var todo := inEdges;
      while todo != {}
        invariant todo <= inEdges
        invariant inEdges == old(inEdges) && outEdges == old(outEdges)
        invariant forall e | e in inEdges - todo :: e.target == other
        modifies inEdges`target
      {
        var e :| e in todo;
        e.target := other;
        todo := todo - {e};
      }
      todo := outEdges;
      while todo != {}
        invariant todo <= outEdges
        invariant inEdges == old(inEdges) && outEdges == old(outEdges)
        invariant forall e | e in outEdges - todo :: e.source == other
        modifies outEdges`source
      {
        var e :| e in todo;
        e.source := other;
        todo := todo - {e};
      }
      inEdges, other.inEdges := other.inEdges, inEdges;
      outEdges, other.outEdges := other.outEdges, outEdges;
    }
  }

  class Edge {
    const kind: EdgeKind
    var source: Vertex?
    var target: Vertex?
    var isBackEdge: bool

    constructor (kind: EdgeKind)
      ensures this.kind == kind
      ensures source == null && target == null && !isBackEdge
    {
      this.kind := kind;
      source, target, isBackEdge := null, null, false;
    }

    method SetSourceAndTarget(newSource: Vertex, newTarget: Vertex, ghost g: Arcs)
      requires EdgesKnowEnds(g - {this})
      modifies this`source, this`target
      ensures source == newSource && target == newTarget
      ensures EdgesKnowEnds(g[this := Arc(newSource, newTarget)])
    {
      source, target := newSource, newTarget;
    }

    method ClearSourceAndTarget(ghost g: Arcs)
      requires EdgesKnowEnds(g)
      modifies this`source, this`target
      ensures source == null && target == null
      ensures EdgesKnowEnds(g - {this})
    {
      source, target := null, null;
    }

    /** Moves this edge to another source, which takes it off the list of the old one, if it had one. */
    method ChangeSource(newSource: Vertex, ghost vs: set<Vertex>, ghost g: Arcs)
      requires source != null ==> Represents(vs, g) && this in g && newSource in vs
      modifies this`source, {newSource, source}`outEdges
      ensures source == newSource
      ensures old(source) != null ==> Represents(vs, g[this := Arc(newSource, g[this].dst)])
      ensures old(source) == null ==> newSource.outEdges == old(newSource.outEdges) + {this}
    {
      if source != null {
        RelistSource(this, newSource, vs, g);
      } else {
        newSource.outEdges := newSource.outEdges + {this};
      }
      source := newSource;
      hide VerticesKnowEdges;
    }

    method ChangeTarget(newTarget: Vertex, ghost vs: set<Vertex>, ghost g: Arcs)
      requires target != null ==> Represents(vs, g) && this in g && newTarget in vs
      modifies this`target, {newTarget, target}`inEdges
      ensures target == newTarget
      ensures old(target) != null ==> Represents(vs, g[this := Arc(g[this].src, newTarget)])
      ensures old(target) == null ==> newTarget.inEdges == old(newTarget.inEdges) + {this}
    {
      if target != null {
        RelistTarget(this, newTarget, vs, g);
      } else {
        newTarget.inEdges := newTarget.inEdges + {this};
      }
      target := newTarget;
      hide VerticesKnowEdges;
    }

    /** Giving an edge without ends its two ends, one after the other, links it like adding it to the graph does. */
    method ChangeBoth(newSource: Vertex, newTarget: Vertex, ghost vs: set<Vertex>, ghost g: Arcs)
      requires Represents(vs, g) && newSource in vs && newTarget in vs && this !in g && source == null && target == null
      modifies this`source, this`target, newSource`outEdges, newTarget`inEdges
      ensures Represents(vs, g[this := Arc(newSource, newTarget)])
    {
      ChangeSource(newSource, vs, g);
      ChangeTarget(newTarget, vs, g);
      EdgeSetsAfterAdd(g, this, newSource, newTarget);
      hide Out, In;
    }
  }

  /** Moves `e` from the list of its source to that of the new one. */
  method RelistSource(e: Edge, newSource: Vertex, ghost vs: set<Vertex>, ghost g: Arcs)
    requires Represents(vs, g) && e in g && newSource in vs
    modifies newSource`outEdges, e.source`outEdges
    ensures VerticesKnowEdges(vs, g[e := Arc(newSource, g[e].dst)])
  {
    e.source.outEdges := e.source.outEdges - {e};
    newSource.outEdges := newSource.outEdges + {e};
    VerticesAfterChangeSource(vs, g, e, newSource);
    hide VerticesKnowEdges;
  }

  lemma VerticesAfterChangeSource(vs: set<Vertex>, g: Arcs, e: Edge, s: Vertex)
    requires e in g
    requires forall v | v in vs :: v.inEdges == In(g, v)
    requires forall v | v in vs :: v.outEdges == (Out(g, v) - {e}) + (if v == s then {e} else {})
    ensures VerticesKnowEdges(vs, g[e := Arc(s, g[e].dst)])
  {
  }

  /** Moves `e` from the list of its target to that of the new one. */
  method RelistTarget(e: Edge, newTarget: Vertex, ghost vs: set<Vertex>, ghost g: Arcs)
    requires Represents(vs, g) && e in g && newTarget in vs
    modifies newTarget`inEdges, e.target`inEdges
    ensures VerticesKnowEdges(vs, g[e := Arc(g[e].src, newTarget)])
  {
    e.target.inEdges := e.target.inEdges - {e};
    newTarget.inEdges := newTarget.inEdges + {e};
    VerticesAfterChangeTarget(vs, g, e, newTarget);
    hide VerticesKnowEdges;
  }

  lemma VerticesAfterChangeTarget(vs: set<Vertex>, g: Arcs, e: Edge, t: Vertex)
    requires e in g
    requires forall v | v in vs :: v.outEdges == Out(g, v)
    requires forall v | v in vs :: v.inEdges == (In(g, v) - {e}) + (if v == t then {e} else {})
    ensures VerticesKnowEdges(vs, g[e := Arc(g[e].src, t)])
  {
  }

  /** Each edge of the graph `g` knows its two ends. */
  ghost predicate EdgesKnowEnds(g: Arcs)
    reads g.Keys`source, g.Keys`target
  {
    forall e | e in g :: e.source == g[e].src && e.target == g[e].dst
  }

  /** Each vertex lists exactly the edges of `g` that leave it and those that enter it. */
  ghost predicate VerticesKnowEdges(vs: set<Vertex>, g: Arcs)
    reads vs`inEdges, vs`outEdges
  {
    forall v | v in vs :: v.outEdges == Out(g, v) && v.inEdges == In(g, v)
  }

  ghost predicate EndsIn<V, E>(vs: set<V>, g: map<E, Arc<V>>)
  {
    forall e | e in g :: g[e].src in vs && g[e].dst in vs
  }

  /** The linked-structure invariant: the objects hold exactly the graph `g`. `vs` are all vertex
      objects, whichever graph they are in, if any. */
  ghost predicate Represents(vs: set<Vertex>, g: Arcs)
    reads vs`inEdges, vs`outEdges, g.Keys`source, g.Keys`target
  {
    EndsIn(vs, g) && EdgesKnowEnds(g) && VerticesKnowEdges(vs, g)
  }

  lemma EdgeSets(vs: set<Vertex>, g: Arcs, v: Vertex)
    requires Represents(vs, g) && v in vs
    ensures v.outEdges == Out(g, v) && v.inEdges == In(g, v)
  {
  }

  lemma EdgeEnds(vs: set<Vertex>, g: Arcs, e: Edge)
    requires Represents(vs, g) && e in g
    ensures e.source == g[e].src && e.target == g[e].dst && g[e].src in vs && g[e].dst in vs
  {
  }

  lemma EdgeSetsAfterAdd<V, E>(g: map<E, Arc<V>>, e: E, s: V, t: V)
    requires e !in g
    ensures var h := g[e := Arc(s, t)];
            forall v :: Out(h, v) == (if v == s then Out(g, v) + {e} else Out(g, v))
                     && In(h, v) == (if v == t then In(g, v) + {e} else In(g, v))
  {
  }

  lemma EdgeSetsAfterRemove<V, E>(g: map<E, Arc<V>>, e: E)
    requires e in g
    ensures var h := g - {e};
            forall v :: Out(h, v) == (if v == g[e].src then Out(g, v) - {e} else Out(g, v))
                     && In(h, v) == (if v == g[e].dst then In(g, v) - {e} else In(g, v))
  {
  }

  method ListEdge(e: Edge, source: Vertex, target: Vertex, ghost vs: set<Vertex>, ghost g: Arcs)
    requires VerticesKnowEdges(vs, g) && source in vs && target in vs && e !in g
    modifies source`outEdges, target`inEdges
    ensures VerticesKnowEdges(vs, g[e := Arc(source, target)])
  {
    EdgeSetsAfterAdd(g, e, source, target);
    source.outEdges := source.outEdges + {e};
    target.inEdges := target.inEdges + {e};
  }

  method UnlistEdge(e: Edge, ghost vs: set<Vertex>, ghost g: Arcs)
    requires Represents(vs, g) && e in g
    modifies e.source`outEdges, e.target`inEdges
    ensures VerticesKnowEdges(vs, g - {e})
  {
    EdgeSetsAfterRemove(g, e);
    e.source.outEdges := e.source.outEdges - {e};
    e.target.inEdges := e.target.inEdges - {e};
  }

  lemma EdgesAfterRename(g: Arcs, v: Vertex, w: Vertex, ins: set<Edge>, outs: set<Edge>)
    requires ins == In(g, v) && outs == Out(g, v)
    requires forall e | e in ins :: e.target == w
    requires forall e | e in outs :: e.source == w
    requires forall e | e in g.Keys - ins :: e.target == g[e].dst
    requires forall e | e in g.Keys - outs :: e.source == g[e].src
    ensures EdgesKnowEnds(Renamed(g, v, w))
  {
  }

  lemma VerticesAfterRename(vs: set<Vertex>, g: Arcs, v: Vertex, w: Vertex)
    requires v != w && EndsIn(vs, g) && w in vs
    requires Out(g, w) == {} && In(g, w) == {}
    requires forall u | u in vs - {v, w} :: u.outEdges == Out(g, u) && u.inEdges == In(g, u)
    requires w.outEdges == Out(g, v) && w.inEdges == In(g, v)
    requires v.outEdges == {} && v.inEdges == {}
    ensures VerticesKnowEdges(vs, Renamed(g, v, w)) && EndsIn(vs, Renamed(g, v, w))
  {
    forall e | e in g ensures g[e].src != w && g[e].dst != w {
      assert e !in Out(g, w) && e !in In(g, w);
    }
  }

  class Graph {
    var vertices: set<Vertex>
    var edges: set<Edge>
    var nextVertexId: nat

    constructor ()
      ensures vertices == {} && edges == {} && nextVertexId == 0 && IndicesUnique()
    {
      vertices, edges, nextVertexId := {}, {}, 0;
    }

    ghost predicate IndicesUnique()
      reads this`vertices, this`nextVertexId, vertices`index
    {
      && (forall v | v in vertices :: v.index < nextVertexId)
      && (forall v, w | v in vertices && w in vertices && v != w :: v.index != w.index)
    }

    /** `added` is false where the original throws duplicate_add; the vertex has a new index even then. */
    method AddVertex(v: Vertex) returns (added: bool)
      modifies this`vertices, this`nextVertexId, v`index
      ensures added <==> v !in old(vertices)
      ensures vertices == old(vertices) + {v}
      ensures v.index == old(nextVertexId) && nextVertexId == old(nextVertexId) + 1
      ensures old(IndicesUnique()) ==> IndicesUnique()
    {
      v.index := nextVertexId;
      nextVertexId := nextVertexId + 1;
      added := v !in vertices;
      vertices := vertices + {v};
    }

    method RemoveVertex(v: Vertex)
      modifies this`vertices
      ensures vertices == old(vertices) - {v}
      ensures old(IndicesUnique()) ==> IndicesUnique()
    {
      vertices := vertices - {v};
    }

    /** The edges of this graph with their ends, for the algorithms that only read it. */
    method Snapshot(ghost vs: set<Vertex>, ghost g: Arcs) returns (arcs: Arcs)
      requires Represents(vs, g) && edges == g.Keys
      ensures arcs == g
    {
      arcs := map e | e in edges :: Arc(e.source as Vertex, e.target as Vertex);
    }

    method AddEdge(source: Vertex, target: Vertex, e: Edge, ghost vs: set<Vertex>, ghost g: Arcs)
      requires Represents(vs, g) && source in vs && target in vs && e !in g
      modifies this`edges, source`outEdges, target`inEdges, e`source, e`target
      ensures Represents(vs, g[e := Arc(source, target)])
      ensures edges == old(edges) + {e}
    {
      ListEdge(e, source, target, vs, g);
      e.SetSourceAndTarget(source, target, g);
      edges := edges + {e};
    }

    method RemoveEdge(e: Edge, ghost vs: set<Vertex>, ghost g: Arcs)
      requires Represents(vs, g) && e in g
      modifies this`edges, e.source`outEdges, e.target`inEdges, e`source, e`target
      ensures Represents(vs, g - {e})
      ensures edges == old(edges) - {e}
    {
      UnlistEdge(e, vs, g);
      e.ClearSourceAndTarget(g);
      edges := edges - {e};
    }

    /** `replaced` is false, and no edge moves, when `newVertex` is in this graph already. */
    method ReplaceVertex(oldVertex: Vertex, newVertex: Vertex, ghost vs: set<Vertex>, ghost g: Arcs)
      returns (replaced: bool)
      requires Represents(vs, g) && oldVertex in vs && newVertex in vs && oldVertex in vertices
      requires newVertex !in vertices ==> newVertex.inEdges == {} && newVertex.outEdges == {}
      modifies this`vertices, this`nextVertexId, newVertex`index
      modifies oldVertex`inEdges, oldVertex`outEdges, newVertex`inEdges, newVertex`outEdges
      modifies oldVertex.inEdges`target, oldVertex.outEdges`source
      ensures replaced <==> newVertex !in old(vertices)
      ensures old(IndicesUnique()) ==> IndicesUnique()
      ensures replaced ==>
                && vertices == old(vertices) + {newVertex} - {oldVertex}
                && oldVertex.inEdges == {} && oldVertex.outEdges == {}
                && Represents(vs, Renamed(g, oldVertex, newVertex))
      ensures !replaced ==> vertices == old(vertices) && Represents(vs, g)
    {
      replaced := AddVertex(newVertex);
      if replaced {
        HandOver(oldVertex, newVertex, vs, g);
        RemoveVertex(oldVertex);
      }
    }
  }

  /** The transfer of edges within a well linked heap. */
  method HandOver(oldVertex: Vertex, newVertex: Vertex, ghost vs: set<Vertex>, ghost g: Arcs)
    requires Represents(vs, g) && oldVertex in vs && newVertex in vs && oldVertex != newVertex
    requires newVertex.inEdges == {} && newVertex.outEdges == {}
    modifies oldVertex`inEdges, oldVertex`outEdges, newVertex`inEdges, newVertex`outEdges
    modifies oldVertex.inEdges`target, oldVertex.outEdges`source
    ensures oldVertex.inEdges == {} && oldVertex.outEdges == {}
    ensures Represents(vs, Renamed(g, oldVertex, newVertex))
  {
    ghost var ins, outs := In(g, oldVertex), Out(g, oldVertex);
    assert oldVertex.inEdges == ins && oldVertex.outEdges == outs;
    assert newVertex.inEdges == In(g, newVertex) && newVertex.outEdges == Out(g, newVertex);
    oldVertex.TransferOwnedResourcesTo(newVertex);
    EdgesAfterRename(g, oldVertex, newVertex, ins, outs);
    VerticesAfterRename(vs, g, oldVertex, newVertex);
    hide Renamed, EdgesKnowEnds, VerticesKnowEdges, EndsIn;
  }

  /** Every edge end at `v` moved to `w`. */
  ghost function Renamed<V, E>(g: map<E, Arc<V>>, v: V, w: V): map<E, Arc<V>>
  {
    map e | e in g ::
      Arc(if g[e].src == v then w else g[e].src, if g[e].dst == v then w else g[e].dst)
  }

  /** A vertex without edges can join the others, or leave them. */
  lemma JoinVertex(vs: set<Vertex>, g: Arcs, w: Vertex)
    requires Represents(vs, g) && w !in vs && w.inEdges == {} && w.outEdges == {}
    ensures Represents(vs + {w}, g)
  {
    assert forall e | e in g :: g[e].src != w && g[e].dst != w;
  }

  lemma EdgeSetsWithin(g: Arcs, v: Vertex)
    ensures In(g, v) <= g.Keys && Out(g, v) <= g.Keys
  {
  }

  lemma RenamedKeys(g: Arcs, v: Vertex, w: Vertex)
    ensures Renamed(g, v, w).Keys == g.Keys
  {
  }

  lemma ForgetVertex(vs: set<Vertex>, g: Arcs, v: Vertex)
    requires Represents(vs, g) && v in vs && v.inEdges == {} && v.outEdges == {}
    ensures Represents(vs - {v}, g)
  {
    forall e | e in g ensures g[e].src != v && g[e].dst != v {
      assert e in Out(g, g[e].src) && e in In(g, g[e].dst);
    }
  }

  /** A function whose control flow graph has been created. */
  class Function {
    const cfg: Graph
    const entry: Vertex
    const exit: Vertex
    const entrySelfEdge: Edge

    constructor (cfg: Graph, entry: Vertex, exit: Vertex, entrySelfEdge: Edge)
      ensures this.cfg == cfg && this.entry == entry && this.exit == exit && this.entrySelfEdge == entrySelfEdge
    {
      this.cfg, this.entry, this.exit, this.entrySelfEdge := cfg, entry, exit, entrySelfEdge;
    }
  }
}
