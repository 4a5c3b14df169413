/** Finding the back edges of a control flow graph, and for each a forward target that can stand in for it. */
module BackEdges {
  import opened Basics
  import opened Walks
  import opened Graphs
  import opened DepthFirst

  type Events = seq<Event<Vertex, Edge>>

  /** Nothing is filtered out. */
  const ALL: Edge -> bool := (e: Edge) => true

  lemma AllPermitted(g: Arcs)
    ensures Permitted(g, ALL) == g
  {
  }

  // ----- The search -----

  /** `first` are the vertices that `entry` reaches, and the search found them from `entry`. */
  ghost predicate FirstTree(g: Arcs, entry: Vertex, t: Trace<Vertex, Edge>, first: set<Vertex>)
  {
    && entry in first && Closed(g, first) && first <= t.path.Keys
    && forall v | v in first :: IsWalk(TreeArcs(g, t.log), entry, t.path[v], v)
  }

  lemma FirstTreeFound(g: Arcs, entry: Vertex, t: Trace<Vertex, Edge>, colors: map<Vertex, Color>)
    requires Searching(g, ALL, t, [], colors) && GrownFrom(EmptyTrace(), t, entry)
    ensures FirstTree(g, entry, t, t.path.Keys)
  {
    AllPermitted(g);
    DiscoversReachable(g, ALL, t, colors, entry);
    AllFinished(g, ALL, t, colors);
  }

  lemma FirstTreeStays(g: Arcs, entry: Vertex, t0: Trace<Vertex, Edge>, t: Trace<Vertex, Edge>, source: Vertex,
                       first: set<Vertex>)
    requires FirstTree(g, entry, t0, first) && GrownFrom(t0, t, source)
    ensures FirstTree(g, entry, t, first)
  {
    forall v | v in first ensures IsWalk(TreeArcs(g, t.log), entry, t.path[v], v) {
      WalkMonotone(TreeArcs(g, t0.log), TreeArcs(g, t.log), entry, t0.path[v], v);
    }
  }

  lemma GrownKeys(t0: Trace<Vertex, Edge>, t: Trace<Vertex, Edge>, source: Vertex)
    requires GrownFrom(t0, t, source)
    ensures t0.path.Keys + {source} <= t.path.Keys
  {
  }

  /** A depth-first search from `entry`, started again at every vertex still white, in no particular order. */
  method DepthFirstSearch(g: Arcs, entry: Vertex, vertices: set<Vertex>)
    returns (log: Events, ghost t: Trace<Vertex, Edge>, ghost colors: map<Vertex, Color>, ghost first: set<Vertex>)
    ensures Searching(g, ALL, t, [], colors) && log == t.log
    ensures vertices <= t.path.Keys && FirstTree(g, entry, t, first)
  {
    hide *;
    EmptySearch(g, ALL);
    var cs;
    NoColour(entry);
    cs, log, t := Visit(g, ALL, entry, map[], [], EmptyTrace());
    FirstTreeFound(g, entry, t, cs);
    first := t.path.Keys;
    var todo := vertices;
    while todo != {}
      invariant Searching(g, ALL, t, [], cs) && log == t.log && FirstTree(g, entry, t, first)
      invariant todo <= vertices <= t.path.Keys + todo
    {
      var v :| v in todo;
      WhiteIsNew(g, ALL, t, [], cs, v);
      if ColorOf(cs, v) == White {
        ghost var t0 := t;
        cs, log, t := Visit(g, ALL, v, cs, log, t);
        FirstTreeStays(g, entry, t0, t, v, first);
        GrownKeys(t0, t, v);
      }
      todo := todo - {v};
    }
    colors := cs;
  }

  lemma NoColour(v: Vertex)
    ensures ColorOf(map[], v) == White && EmptyTrace<Vertex, Edge>().log == []
  {
  }

  /** The edges marked as back edges. */
  function BackOf(log: Events): set<Edge>
  {
    set ev | ev in log && ev.BackEdge? :: ev.e
  }

  /** What the entry reaches it still reaches when the back edges are left out. */
  lemma MarkingLosesNothing(g: Arcs, entry: Vertex, t: Trace<Vertex, Edge>, first: set<Vertex>, v: Vertex)
    requires Logged(t) && FirstTree(g, entry, t, first) && Reaches(g, entry, v)
    ensures Reaches(g - BackOf(t.log), entry, v)
  {
    ClosedReaches(g, first, entry, v);
    var h := TreeArcs(g, t.log);
    forall e | e in h ensures e in g - BackOf(t.log) {
      TreeIsForward(g, t, e);
    }
    WalkMonotone(h, g - BackOf(t.log), entry, t.path[v], v);
  }

  // ----- Forward targets -----

  datatype BackEdgeFixupInfo = BackEdgeFixupInfo(edge: Edge, target: Option<Vertex>)

  ghost predicate LeavesDecision(g: Arcs, e: Edge)
    requires e in g
  {
    g[e].src.statement.IsDecision()
  }

  ghost predicate InGraph(g: Arcs, p: seq<Edge>)
  {
    forall e | e in p :: e in g
  }

  /** Going up the tree path `p` as far as position `m`, the first decision vertex offers its other way out.
      The original dereferences an end iterator when there is no other way out; here there is no target then. */
  ghost predicate IsForwardTarget(g: Arcs, p: seq<Edge>, m: nat, target: Option<Vertex>)
    requires InGraph(g, p)
  {
    || (target.None? && forall j | m <= j < |p| :: !LeavesDecision(g, p[j]))
    || (exists j :: FirstDecision(g, p, m, j) && OtherWayOut(g, p[j], target))
  }

  ghost predicate FirstDecision(g: Arcs, p: seq<Edge>, m: nat, j: int)
    requires InGraph(g, p)
  {
    m <= j < |p| && LeavesDecision(g, p[j]) && forall i | j < i < |p| :: !LeavesDecision(g, p[i])
  }

  ghost predicate OtherWayOut(g: Arcs, e: Edge, target: Option<Vertex>)
    requires e in g
  {
    if Out(g, g[e].src) == {e} then target.None?
    else target.Some? && exists o :: o in Out(g, g[e].src) && o != e && target.value == g[o].dst
  }

  /** `p` leads to `u` through vertices that are each entered by the edge the map holds for them. */
  ghost predicate Traced(g: Arcs, predecessors: map<Vertex, Edge>, p: seq<Edge>, m: nat, u: Vertex)
    requires InGraph(g, p)
  {
    && (p != [] ==> g[p[|p| - 1]].dst == u)
    && (forall j | 0 < j < |p| :: g[p[j - 1]].dst == g[p[j]].src)
    && (forall j | m <= j < |p| :: g[p[j]].dst in predecessors && predecessors[g[p[j]].dst] == p[j])
  }

  class BackEdgeFixupVisitor {
    const g: Arcs
    var predecessorMap: map<Vertex, Edge>
    var backEdges: seq<BackEdgeFixupInfo>

    constructor (g: Arcs)
      ensures this.g == g && predecessorMap == map[] && backEdges == []
    {
      this.g := g;
      predecessorMap, backEdges := map[], [];
    }

    method TreeEdge(e: Edge)
      requires e in g
      modifies this`predecessorMap
      ensures predecessorMap == old(predecessorMap)[g[e].dst := e]
    {
      predecessorMap := predecessorMap[g[e].dst := e];
    }

    /** Any out-edge of the same vertex but `e`. */
    method FindDifferentOutEdge(e: Edge) returns (other: Option<Edge>)
      requires e in g
      ensures other.Some? ==> other.value in Out(g, g[e].src) && other.value != e
      ensures other.None? <==> Out(g, g[e].src) == {e}
    {
      var todo := Out(g, g[e].src);
      while todo != {}
        invariant e in Out(g, g[e].src) && todo <= Out(g, g[e].src) <= todo + {e}
      {
        var o :| o in todo;
        if o != e {
          return Some(o);
        }
        todo := todo - {o};
      }
      return None;
    }

    /** Climbs from the source of back edge `e` to its target, an ancestor, which the map leads to. */
    method FindForwardTargetForBackEdge(e: Edge, ghost p: seq<Edge>, ghost m: nat) returns (target: Option<Vertex>)
      requires e in g && InGraph(g, p) && Traced(g, predecessorMap, p, m, g[e].src)
      requires m < |p| && g[p[m]].src == g[e].dst
      requires forall j | m < j < |p| :: g[p[j]].src != g[e].dst
      ensures IsForwardTarget(g, p, m, target)
    {
      var u, v := g[e].src, g[e].dst;
      ghost var j := |p| - 1;
      while true
        invariant m <= j < |p| && u == g[p[j]].dst
        invariant forall i | j < i < |p| :: !LeavesDecision(g, p[i])
        decreases j
      {
        assert p[j] in p;
        var pred := predecessorMap[u];
        var w := g[pred].src;
        if w.statement.IsDecision() {
          var other := FindDifferentOutEdge(pred);
          assert FirstDecision(g, p, m, j);
          return if other.Some? then Some(g[other.value].dst) else None;
        }
        u := w;
        if w == v {
          return None;
        }
        j := j - 1;
      }
    }

    method BackEdge(e: Edge, ghost p: seq<Edge>, ghost m: nat)
      requires e in g && InGraph(g, p) && Traced(g, predecessorMap, p, m, g[e].src)
      requires g[e].src != g[e].dst ==>
                 m < |p| && g[p[m]].src == g[e].dst && forall j | m < j < |p| :: g[p[j]].src != g[e].dst
      modifies this`backEdges
      ensures |backEdges| == |old(backEdges)| + 1 && backEdges[..|old(backEdges)|] == old(backEdges)
      ensures var info := backEdges[|old(backEdges)|];
              && info.edge == e
              && if g[e].src == g[e].dst then info.target.None? else IsForwardTarget(g, p, m, info.target)
    {
      var target := None;
      if g[e].src != g[e].dst {
        target := FindForwardTargetForBackEdge(e, p, m);
      }
      backEdges := backEdges + [BackEdgeFixupInfo(e, target)];
    }
  }

  /** The tree path to `v`, edge by edge: each was logged just before its target was discovered. */
  lemma {:induction false} Ancestors(h: Arcs, t: Trace<Vertex, Edge>, v: Vertex, j: nat)
    requires Forest(h, t) && v in t.path && j < |t.path[v]|
    ensures var p := t.path[v];
            && p[j] in h && h[p[j]].src in t.path && t.path[h[p[j]].src] == p[..j]
            && h[p[j]].dst in t.path && t.path[h[p[j]].dst] == p[..j + 1]
            && Discovered(h[p[j]].dst) in t.at && Discovered(v) in t.at
            && 0 < t.at[Discovered(h[p[j]].dst)] <= t.at[Discovered(v)]
            && (j + 1 == |p| ==> h[p[j]].dst == v)
            && (j + 1 < |p| ==> p[j + 1] in h && h[p[j]].dst == h[p[j + 1]].src)
    decreases |t.path[v]|
  {
    var n := |t.path[v]| - 1;
    assert Grown(h, t, v);
    var e := t.path[v][n];
    assert t.path[v][..n + 1] == t.path[v];
    if j < n {
      Ancestors(h, t, h[e].src, j);
      assert t.path[v][..n][..j] == t.path[v][..j] && t.path[v][..n][..j + 1] == t.path[v][..j + 1];
    }
  }

  /** The predecessor map after the first `k` events knows how every vertex discovered so far was entered. */
  ghost predicate Knows(t: Trace<Vertex, Edge>, predecessors: map<Vertex, Edge>, k: nat)
    requires forall v | v in t.path :: Discovered(v) in t.at
  {
    forall v | v in t.path && t.path[v] != [] && t.at[Discovered(v)] <= k ::
      v in predecessors && predecessors[v] == t.path[v][|t.path[v]| - 1]
  }

  lemma EdgeEventMeans(h: Arcs, t: Trace<Vertex, Edge>, k: nat)
    requires Logged(t) && AllMeant(h, t) && k < |t.log| && KeyOf(t.log[k]).Classified?
    ensures var e := KeyOf(t.log[k]).e;
            && e in h && h[e].src in t.path && h[e].dst in t.path && Discovered(h[e].src) in t.at
            && t.at[Discovered(h[e].src)] < k
            && (t.log[k].TreeEdge? ==> t.path[h[e].dst] == t.path[h[e].src] + [e])
            && (t.log[k].BackEdge? ==> h[e].dst == h[e].src || ProperAncestor(h, t.path, h[e].dst, h[e].src))
  {
    assert Meant(h, t, KeyOf(t.log[k]).e);
  }

  lemma EnteredBy(h: Arcs, t: Trace<Vertex, Edge>, v: Vertex)
    requires Forest(h, t) && v in t.path && t.path[v] != []
    ensures var e := t.path[v][|t.path[v]| - 1];
            && e in h && h[e].dst == v && Discovered(v) in t.at
            && 0 < t.at[Discovered(v)] <= |t.log| && t.log[t.at[Discovered(v)] - 1] == TreeEdge(e)
  {
    assert Grown(h, t, v);
  }

  lemma KnowsMore(h: Arcs, t: Trace<Vertex, Edge>, predecessors: map<Vertex, Edge>, k: nat)
    requires Logged(t) && Forest(h, t) && AllMeant(h, t) && k < |t.log|
    requires Knows(t, predecessors, k)
    ensures t.log[k].TreeEdge? ==> t.log[k].e in h && Knows(t, predecessors[h[t.log[k].e].dst := t.log[k].e], k + 1)
    ensures !t.log[k].TreeEdge? ==> Knows(t, predecessors, k + 1)
  {
    hide Logged, AllMeant, Grown;
    var now := predecessors;
    if t.log[k].TreeEdge? {
      EdgeEventMeans(h, t, k);
      now := predecessors[h[t.log[k].e].dst := t.log[k].e];
    }
    forall v | v in t.path && t.path[v] != [] && t.at[Discovered(v)] <= k + 1
      ensures v in now && now[v] == t.path[v][|t.path[v]| - 1]
    {
      EnteredBy(h, t, v);
    }
  }

  /** When a back edge is met, the predecessor map leads from its source up the tree to its target. */
  lemma AtBackEdge(g: Arcs, t: Trace<Vertex, Edge>, predecessors: map<Vertex, Edge>, k: nat, e: Edge)
    requires (forall v | v in t.path :: Discovered(v) in t.at) && Knows(t, predecessors, k)
    requires Logged(t) && Forest(g, t) && AllMeant(g, t)
    requires k < |t.log| && t.log[k] == BackEdge(e)
    ensures e in g && g[e].src in t.path && g[e].dst in t.path
    ensures var p, m := t.path[g[e].src], |t.path[g[e].dst]|;
            && InGraph(g, p) && Traced(g, predecessors, p, m, g[e].src)
            && (g[e].src != g[e].dst ==>
                  m < |p| && g[p[m]].src == g[e].dst && forall j | m < j < |p| :: g[p[j]].src != g[e].dst)
  {
    hide Logged, AllMeant, Forest;
    EdgeEventMeans(g, t, k);
    var u, v := g[e].src, g[e].dst;
    var p, m := t.path[u], |t.path[v]|;
    forall j | 0 <= j < |p|
      ensures p[j] in g && g[p[j]].src in t.path && t.path[g[p[j]].src] == p[..j]
      ensures j + 1 < |p| ==> p[j + 1] in g && g[p[j]].dst == g[p[j + 1]].src
      ensures j + 1 == |p| ==> g[p[j]].dst == u
      ensures g[p[j]].dst in predecessors && predecessors[g[p[j]].dst] == p[j]
    {
      Ancestors(g, t, u, j);
      assert t.path[g[p[j]].dst][j] == p[j];
    }
  }

  /** The visitor's answer for each back edge, in terms of the tree paths of the search. */
  ghost predicate FixupOk(g: Arcs, path: map<Vertex, seq<Edge>>, info: BackEdgeFixupInfo)
  {
    && info.edge in g && g[info.edge].src in path && g[info.edge].dst in path
    && InGraph(g, path[g[info.edge].src])
    && if g[info.edge].src == g[info.edge].dst then info.target.None?
       else IsForwardTarget(g, path[g[info.edge].src], |path[g[info.edge].dst]|, info.target)
  }

  /** The back edges of a log, in its order. */
  ghost function BackSequence(log: Events): seq<Edge>
  {
    if log == [] then []
    else
      var last := log[|log| - 1];
      BackSequence(log[..|log| - 1]) + if last.BackEdge? then [last.e] else []
  }

  ghost predicate Records(infos: seq<BackEdgeFixupInfo>, es: seq<Edge>)
  {
    |infos| == |es| && forall i | 0 <= i < |infos| :: infos[i].edge == es[i]
  }

  /** Each back edge occurs once. */
  lemma {:induction false} BackSequenceOnce(t: Trace<Vertex, Edge>, k: nat)
    requires Logged(t) && k <= |t.log|
    ensures forall i, j | 0 <= i < j < |BackSequence(t.log[..k])| ::
              BackSequence(t.log[..k])[i] != BackSequence(t.log[..k])[j]
    ensures forall e :: e in BackSequence(t.log[..k]) <==> BackEdge(e) in t.log[..k]
  {
    if k > 0 {
      BackSequenceOnce(t, k - 1);
      assert t.log[..k][..k - 1] == t.log[..k - 1];
      assert t.log[..k] == t.log[..k - 1] + [t.log[k - 1]];
      if t.log[k - 1].BackEdge? {
        var e := t.log[k - 1].e;
        forall j | 0 <= j < k - 1 ensures t.log[j] != BackEdge(e) {
          assert t.at[KeyOf(t.log[j])] == j && t.at[KeyOf(t.log[k - 1])] == k - 1;
        }
      }
    }
  }

  /** Lets the visitor see the whole search. */
  method CollectBackEdges(g: Arcs, log: Events, ghost t: Trace<Vertex, Edge>, ghost colors: map<Vertex, Color>)
    returns (infos: seq<BackEdgeFixupInfo>)
    requires Searching(g, ALL, t, [], colors) && log == t.log
    ensures Records(infos, BackSequence(log))
    ensures forall info | info in infos :: FixupOk(g, t.path, info)
  {
    hide Logged, Forest, AllMeant, Stacked, Covered, Coloured, FixupOk, Traced, InGraph, IsForwardTarget, Knows;
    AllPermitted(g);
    var visitor := new BackEdgeFixupVisitor(g);
    NothingKnown(g, t, visitor.predecessorMap);
    var k := 0;
    while k < |log|
      invariant k <= |log|
      invariant (forall v | v in t.path :: Discovered(v) in t.at) && Knows(t, visitor.predecessorMap, k)
      invariant Records(visitor.backEdges, BackSequence(log[..k]))
      invariant forall info | info in visitor.backEdges :: FixupOk(g, t.path, info)
    {
      assert log[..k + 1][..k] == log[..k];
      KnowsMore(g, t, visitor.predecessorMap, k);
      match log[k] {
        case TreeEdge(e) =>
          visitor.TreeEdge(e);
        case BackEdge(e) =>
          AtBackEdge(g, t, visitor.predecessorMap, k, e);
          ghost var p, m := t.path[g[e].src], |t.path[g[e].dst]|;
          ghost var before := visitor.backEdges;
          visitor.BackEdge(e, p, m);
          ghost var info := visitor.backEdges[|before|];
          FixupIsOk(g, t.path, info);
          assert visitor.backEdges == before + [info];
        case _ =>
      }
      k := k + 1;
    }
    assert log[..|log|] == log;
    infos := visitor.backEdges;
  }

  lemma NothingKnown(h: Arcs, t: Trace<Vertex, Edge>, predecessors: map<Vertex, Edge>)
    requires Forest(h, t)
    ensures (forall v | v in t.path :: Discovered(v) in t.at) && Knows(t, predecessors, 0)
  {
    forall v | v in t.path && t.path[v] != [] ensures t.at[Discovered(v)] > 0 {
      assert Grown(h, t, v);
    }
  }

  lemma FixupIsOk(g: Arcs, path: map<Vertex, seq<Edge>>, info: BackEdgeFixupInfo)
    requires info.edge in g && g[info.edge].src in path && g[info.edge].dst in path
    requires InGraph(g, path[g[info.edge].src])
    requires if g[info.edge].src == g[info.edge].dst then info.target.None?
             else IsForwardTarget(g, path[g[info.edge].src], |path[g[info.edge].dst]|, info.target)
    ensures FixupOk(g, path, info)
  {
  }
}
