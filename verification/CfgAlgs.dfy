/** The passes over one function's control flow graph: marking back edges, and removing redundant vertices. */
module CfgAlgs {
  import opened Basics
  import opened Walks
  import opened Graphs
  import opened DepthFirst
  import opened BackEdges
  import opened Contraction

  // ----- Back edges -----

  /** `arc` stands in for the back edge `e`, which was the only way out of its source: it leads to the other way out
      of the first decision vertex up the tree path to the target of `e`. */
  ghost predicate ProxyFor(g: Arcs, path: map<Vertex, seq<Edge>>, e: Edge, arc: Arc<Vertex>)
  {
    && e in g && g[e].src == arc.src && g[e].src != g[e].dst && Out(g, arc.src) == {e}
    && g[e].src in path && g[e].dst in path && InGraph(g, path[g[e].src])
    && IsForwardTarget(g, path[g[e].src], |path[g[e].dst]|, Some(arc.dst))
  }

  /** `e` is among the first `k` back edges. */
  ghost predicate IsRecorded(infos: seq<BackEdgeFixupInfo>, k: nat, e: Edge)
    requires k <= |infos|
  {
    exists i :: 0 <= i < k && infos[i].edge == e
  }

  lemma RecordedNext(infos: seq<BackEdgeFixupInfo>, k: nat)
    requires k < |infos|
    ensures forall e :: IsRecorded(infos, k + 1, e) <==> IsRecorded(infos, k, e) || e == infos[k].edge
  {
    forall e | IsRecorded(infos, k, e) || e == infos[k].edge ensures IsRecorded(infos, k + 1, e) {
      if e != infos[k].edge {
        var i :| 0 <= i < k && infos[i].edge == e;
      }
    }
  }

  ghost predicate IsProxyAmong(g: Arcs, path: map<Vertex, seq<Edge>>, infos: seq<BackEdgeFixupInfo>, k: nat,
                               arc: Arc<Vertex>)
    requires k <= |infos|
  {
    exists i :: 0 <= i < k && ProxyFor(g, path, infos[i].edge, arc)
  }

  /** `h` is `g` with proxy edges, one to a vertex, of which the first `k` back edges have what they need. */
  ghost predicate Proxied(g: Arcs, h: Arcs, path: map<Vertex, seq<Edge>>, infos: seq<BackEdgeFixupInfo>, k: nat)
    requires k <= |infos|
  {
    && Subgraph(g, h)
    && (forall e | e in h.Keys - g.Keys ::
          && e.kind.Impossible? && IsProxyAmong(g, path, infos, k, h[e])
          && Out(h, h[e].src) == Out(g, h[e].src) + {e})
    && (forall i | 0 <= i < k ::
          && infos[i].edge in g
          && (infos[i].target.Some? ==> Out(h, g[infos[i].edge].src) != {infos[i].edge}))
  }

  lemma ForwardTargetLeavesDecision(g: Arcs, p: seq<Edge>, m: nat, v: Vertex)
    requires InGraph(g, p) && IsForwardTarget(g, p, m, Some(v))
    ensures exists o :: o in g && g[o].src.statement.IsDecision() && g[o].dst == v
  {
    var j :| FirstDecision(g, p, m, j) && OtherWayOut(g, p[j], Some(v));
    assert p[j] in p;
    var o :| o in Out(g, g[p[j]].src) && o != p[j] && v == g[o].dst;
  }

  lemma TargetLeavesDecision(g: Arcs, path: map<Vertex, seq<Edge>>, info: BackEdgeFixupInfo)
    requires FixupOk(g, path, info) && info.target.Some?
    ensures g[info.edge].src != g[info.edge].dst
    ensures exists o :: o in g && g[o].src.statement.IsDecision() && g[o].dst == info.target.value
  {
    ForwardTargetLeavesDecision(g, path[g[info.edge].src], |path[g[info.edge].dst]|, info.target.value);
  }

  lemma ProxyNotNeeded(g: Arcs, h: Arcs, path: map<Vertex, seq<Edge>>, infos: seq<BackEdgeFixupInfo>, k: nat)
    requires k < |infos| && Proxied(g, h, path, infos, k) && infos[k].edge in g
    requires infos[k].target.Some? ==> Out(h, g[infos[k].edge].src) != {infos[k].edge}
    ensures Proxied(g, h, path, infos, k + 1)
  {
    hide ProxyFor;
    forall e | e in h.Keys - g.Keys ensures IsProxyAmong(g, path, infos, k + 1, h[e]) {
      ProxyAmongMore(g, path, infos, k, h[e]);
    }
  }

  lemma ProxyAmongMore(g: Arcs, path: map<Vertex, seq<Edge>>, infos: seq<BackEdgeFixupInfo>, k: nat, arc: Arc<Vertex>)
    requires k < |infos|
    ensures IsProxyAmong(g, path, infos, k, arc) || ProxyFor(g, path, infos[k].edge, arc) ==>
              IsProxyAmong(g, path, infos, k + 1, arc)
  {
    if IsProxyAmong(g, path, infos, k, arc) {
      var i :| 0 <= i < k && ProxyFor(g, path, infos[i].edge, arc);
    }
  }

  lemma ProxyAdded(g: Arcs, h: Arcs, path: map<Vertex, seq<Edge>>, infos: seq<BackEdgeFixupInfo>, k: nat, proxy: Edge)
    requires k < |infos| && Proxied(g, h, path, infos, k) && FixupOk(g, path, infos[k]) && infos[k].target.Some?
    requires |Out(h, g[infos[k].edge].src)| == 1 && proxy !in h && proxy.kind.Impossible?
    ensures Proxied(g, h[proxy := Arc(g[infos[k].edge].src, infos[k].target.value)], path, infos, k + 1)
  {
    hide *;
    var e := infos[k].edge;
    NeedsProxy(g, h, path, infos, k);
    var u, w := g[e].src, infos[k].target.value;
    var h' := h[proxy := Arc(u, w)];
    EdgeSetsAfterAdd(h, proxy, u, w);
    SubgraphMore(g, h, proxy, Arc(u, w));
    forall x | x in h'.Keys - g.Keys
      ensures x.kind.Impossible? && IsProxyAmong(g, path, infos, k + 1, h'[x])
      ensures Out(h', h'[x].src) == Out(g, h'[x].src) + {x}
    {
      ProxyAmongMore(g, path, infos, k, h'[x]);
      if x != proxy {
        ProxyElsewhere(g, h, path, infos, k, x, u);
      }
    }
    forall i | 0 <= i <= k
      ensures infos[i].edge in g
      ensures infos[i].target.Some? ==> Out(h', g[infos[i].edge].src) != {infos[i].edge}
    {
      if i < k {
        HadWhatItNeeds(g, h, path, infos, k, i);
      }
    }
    ProxiedSo(g, h', path, infos, k + 1);
  }

  lemma NeedsProxy(g: Arcs, h: Arcs, path: map<Vertex, seq<Edge>>, infos: seq<BackEdgeFixupInfo>, k: nat)
    requires k < |infos| && Proxied(g, h, path, infos, k) && FixupOk(g, path, infos[k]) && infos[k].target.Some?
    requires |Out(h, g[infos[k].edge].src)| == 1
    ensures Subgraph(g, h) && Out(h, g[infos[k].edge].src) == Out(g, g[infos[k].edge].src) == {infos[k].edge}
    ensures ProxyFor(g, path, infos[k].edge, Arc(g[infos[k].edge].src, infos[k].target.value))
  {
    OnlyWayOut(g, h, infos[k].edge);
    TargetLeavesDecision(g, path, infos[k]);
  }

  lemma SubgraphMore(g: Arcs, h: Arcs, e: Edge, arc: Arc<Vertex>)
    requires Subgraph(g, h) && e !in h
    ensures Subgraph(g, h[e := arc]) && e !in g
  {
  }

  lemma OnlyWayOut(g: Arcs, h: Arcs, e: Edge)
    requires Subgraph(g, h) && e in g && |Out(h, g[e].src)| == 1
    ensures Out(h, g[e].src) == Out(g, g[e].src) == {e}
  {
    assert e in Out(h, g[e].src) && e in Out(g, g[e].src);
    SingletonIs(Out(h, g[e].src), e);
    assert Out(g, g[e].src) <= Out(h, g[e].src);
  }

  /** Where a proxy was added before there are two ways out. */
  lemma ProxyElsewhere(g: Arcs, h: Arcs, path: map<Vertex, seq<Edge>>, infos: seq<BackEdgeFixupInfo>, k: nat, x: Edge,
                       u: Vertex)
    requires k <= |infos| && Proxied(g, h, path, infos, k) && x in h && x !in g && Out(h, u) == Out(g, u)
    ensures x.kind.Impossible? && IsProxyAmong(g, path, infos, k, h[x])
    ensures Out(h, h[x].src) == Out(g, h[x].src) + {x} && h[x].src != u
  {
    hide IsProxyAmong;
    assert x in Out(h, h[x].src);
  }

  lemma HadWhatItNeeds(g: Arcs, h: Arcs, path: map<Vertex, seq<Edge>>, infos: seq<BackEdgeFixupInfo>, k: nat, i: nat)
    requires i < k <= |infos| && Proxied(g, h, path, infos, k)
    ensures infos[i].edge in g && (infos[i].target.Some? ==> Out(h, g[infos[i].edge].src) != {infos[i].edge})
  {
    hide IsProxyAmong;
  }

  lemma ProxiedSo(g: Arcs, h: Arcs, path: map<Vertex, seq<Edge>>, infos: seq<BackEdgeFixupInfo>, k: nat)
    requires k <= |infos| && Subgraph(g, h)
    requires forall e | e in h.Keys - g.Keys ::
               && e.kind.Impossible? && IsProxyAmong(g, path, infos, k, h[e])
               && Out(h, h[e].src) == Out(g, h[e].src) + {e}
    requires forall i | 0 <= i < k ::
               infos[i].edge in g && (infos[i].target.Some? ==> Out(h, g[infos[i].edge].src) != {infos[i].edge})
    ensures Proxied(g, h, path, infos, k)
  {
  }

  lemma SingletonIs<T>(s: set<T>, x: T)
    requires |s| == 1 && x in s
    ensures s == {x}
  {
    assert |s - {x}| == 0;
  }

  /** Marks one back edge, and adds its proxy if there is no other way out of its source. */
  method FixOne(graph: Graph, infos: seq<BackEdgeFixupInfo>, k: nat, ghost vs: set<Vertex>, ghost g: Arcs,
                ghost h: Arcs,
                ghost path: map<Vertex, seq<Edge>>)
    returns (ghost h': Arcs)
    requires Represents(vs, h) && graph.edges == h.Keys && k < |infos|
    requires EndsIn(vs, g) && Proxied(g, h, path, infos, k) && FixupOk(g, path, infos[k])
    modifies graph`edges, vs`outEdges, vs`inEdges, infos[k].edge`isBackEdge
    ensures Represents(vs, h') && graph.edges == h'.Keys
    ensures Proxied(g, h', path, infos, k + 1)
    ensures infos[k].edge.isBackEdge
    ensures h.Keys <= h'.Keys && forall e | e in h' && e !in h :: fresh(e) && !e.isBackEdge
  {
    hide Represents, Proxied, FixupOk, EndsIn;
    var info := infos[k];
    var e := info.edge;
    FixupEdge(vs, g, h, infos, k, path);
    e.isBackEdge := true;
    h' := h;
    if info.target.None? {
      ProxyNotNeeded(g, h, path, infos, k);
      return;
    }
    EdgeSets(vs, h, g[e].src);
    if |e.source.outEdges| == 1 {
      var proxy := new Edge(Impossible);
      ProxyAdded(g, h, path, infos, k, proxy);
      graph.AddEdge(e.source, info.target.value, proxy, vs, h);
      h' := h[proxy := Arc(g[e].src, info.target.value)];
    } else {
      ProxyNotNeeded(g, h, path, infos, k);
    }
  }

  lemma FixupEdge(vs: set<Vertex>, g: Arcs, h: Arcs, infos: seq<BackEdgeFixupInfo>, k: nat,
                  path: map<Vertex, seq<Edge>>)
    requires Represents(vs, h) && EndsIn(vs, g) && k < |infos| && Proxied(g, h, path, infos, k)
    requires FixupOk(g, path, infos[k])
    ensures infos[k].edge in g && infos[k].edge in h && infos[k].edge.source == g[infos[k].edge].src
    ensures g[infos[k].edge].src in vs
    ensures infos[k].target.Some? ==> infos[k].target.value in vs
  {
    if infos[k].target.Some? {
      TargetLeavesDecision(g, path, infos[k]);
    }
  }

  /** What marking the edges `marked` of `g` achieves; `found` are all vertices the search found, and `first` those it
      found from the entry. */
  ghost predicate WellMarked(g: Arcs, entry: Vertex, found: set<Vertex>, first: set<Vertex>, marked: set<Edge>)
  {
    // Without the marked edges there is no cycle, and each of them closes one; self edges are marked.
    && marked <= g.Keys && Closed(g, found) && Acyclic(FromWithin(g - marked, found))
    && (forall e | e in marked :: Reaches(g - marked, g[e].dst, g[e].src))
    && (forall e | e in g && g[e].src in found && g[e].src == g[e].dst :: e in marked)
    // Without them, the entry reaches all that it reached with them, which are the vertices `first`.
    && entry in first && Closed(g, first) && (forall v | v in first :: Reaches(g - marked, entry, v))
  }

  /** The marked edges are the back edges of a depth-first search from the entry that went on until it had found all
      vertices of the graph. */
  ghost predicate MarkedBySearch(g: Arcs, vertices: set<Vertex>, entry: Vertex, t: Trace<Vertex, Edge>,
                                 colors: map<Vertex, Color>, first: set<Vertex>, marked: set<Edge>)
  {
    && Searching(g, ALL, t, [], colors) && marked == BackOf(t.log)
    && vertices <= t.path.Keys && FirstTree(g, entry, t, first)
    && WellMarked(g, entry, t.path.Keys, first, marked)
  }

  lemma SearchMarksWell(g: Arcs, vertices: set<Vertex>, entry: Vertex, t: Trace<Vertex, Edge>,
                        colors: map<Vertex, Color>, first: set<Vertex>)
    requires Searching(g, ALL, t, [], colors) && vertices <= t.path.Keys && FirstTree(g, entry, t, first)
    ensures MarkedBySearch(g, vertices, entry, t, colors, first, BackOf(t.log))
  {
    hide Searching, IsWalk, Reaches, Acyclic, Logged, Forest, AllMeant;
    var marked, found := BackOf(t.log), t.path.Keys;
    SearchLogged(g, t, colors);
    AllPermitted(g);
    AllFinished(g, ALL, t, colors);
    ForwardIsAcyclic(g, ALL, t, colors);
    assert FromWithin(g - marked, found) == ForwardArcs(g, t.log, found);
    forall e | e in g && g[e].src in found && g[e].src == g[e].dst ensures e in marked {
      BackEdgesCloseCycles(g, ALL, t, colors, e);
    }
    forall v | v in first ensures Reaches(g - marked, entry, v) {
      FirstTreeReaches(g, entry, t, first, v);
      MarkingLosesNothing(g, entry, t, first, v);
    }
    forall e | e in marked ensures e in g && Reaches(g - marked, g[e].dst, g[e].src) {
      MarkedClosesCycle(g, t, colors, e);
    }
  }

  /** From the target of a back edge, an ancestor, tree edges lead to its source. */
  lemma MarkedClosesCycle(g: Arcs, t: Trace<Vertex, Edge>, colors: map<Vertex, Color>, e: Edge)
    requires Searching(g, ALL, t, [], colors) && e in BackOf(t.log)
    ensures e in g && Reaches(g - BackOf(t.log), g[e].dst, g[e].src)
  {
    hide Searching, Reaches, Logged, Forest, AllMeant, ProperAncestor;
    SearchLogged(g, t, colors);
    AllPermitted(g);
    BackEdgeInGraph(g, t, colors, e);
    BackEdgesCloseCycles(g, ALL, t, colors, e);
    if g[e].src == g[e].dst {
      ReachesRefl(g - BackOf(t.log), g[e].src);
    } else {
      AncestorReaches(g, t, g[e].dst, g[e].src);
      forall x | x in TreeArcs(g, t.log) ensures x !in BackOf(t.log) {
        TreeIsForward(g, t, x);
      }
      ReachesMonotone(TreeArcs(g, t.log), g - BackOf(t.log), g[e].dst, g[e].src);
    }
  }

  lemma SearchLogged(g: Arcs, t: Trace<Vertex, Edge>, colors: map<Vertex, Color>)
    requires Searching(g, ALL, t, [], colors)
    ensures Logged(t) && Forest(g, t) && AllMeant(g, t)
  {
    AllPermitted(g);
  }

  lemma BackEdgeInGraph(g: Arcs, t: Trace<Vertex, Edge>, colors: map<Vertex, Color>, e: Edge)
    requires Logged(t) && AllMeant(g, t) && BackEdge(e) in t.log
    ensures e in g && g[e].src in t.path
  {
    var k :| 0 <= k < |t.log| && t.log[k] == BackEdge(e);
    EdgeEventMeans(g, t, k);
  }

  lemma FirstTreeReaches(g: Arcs, entry: Vertex, t: Trace<Vertex, Edge>, first: set<Vertex>, v: Vertex)
    requires FirstTree(g, entry, t, first) && v in first
    ensures Reaches(g, entry, v)
  {
    WalkMonotone(TreeArcs(g, t.log), g, entry, t.path[v], v);
  }

  /** A vertex whose only way out is now a marked edge back to another vertex had no decision vertex with a second
      way out, first on its way up the tree path to the target of that edge. */
  ghost predicate ProxyOrNoWayOut(g: Arcs, h: Arcs, path: map<Vertex, seq<Edge>>, e: Edge)
  {
    && e in g && g[e].src in path && g[e].dst in path && InGraph(g, path[g[e].src])
    && (g[e].src != g[e].dst && Out(h, g[e].src) == {e} ==>
          IsForwardTarget(g, path[g[e].src], |path[g[e].dst]|, None))
  }

  ghost predicate IsProxy(g: Arcs, path: map<Vertex, seq<Edge>>, marked: set<Edge>, arc: Arc<Vertex>)
  {
    exists e :: e in marked && ProxyFor(g, path, e, arc)
  }

  /** `h` is `g` with proxies: each stands in for a marked edge that was the only way out, one to a vertex, and no
      marked edge lacks a proxy that there is a forward target for. `path` are the tree paths of the search. */
  ghost predicate ProxiesOk(g: Arcs, h: Arcs, path: map<Vertex, seq<Edge>>, marked: set<Edge>)
  {
    && Subgraph(g, h)
    && (forall e | e in h.Keys - g.Keys ::
          && e.kind.Impossible? && IsProxy(g, path, marked, h[e])
          && Out(h, h[e].src) == Out(g, h[e].src) + {e})
    && (forall e | e in marked :: ProxyOrNoWayOut(g, h, path, e))
  }

  lemma ProxiesDone(g: Arcs, h: Arcs, infos: seq<BackEdgeFixupInfo>, path: map<Vertex, seq<Edge>>, e: Edge)
    requires Proxied(g, h, path, infos, |infos|) && (forall info | info in infos :: FixupOk(g, path, info))
    requires IsRecorded(infos, |infos|, e)
    ensures ProxyOrNoWayOut(g, h, path, e)
  {
    hide IsProxyAmong;
    var i :| 0 <= i < |infos| && infos[i].edge == e;
    assert infos[i] in infos;
  }

  lemma AllProxiesDone(g: Arcs, h: Arcs, infos: seq<BackEdgeFixupInfo>, path: map<Vertex, seq<Edge>>,
                       t: Trace<Vertex, Edge>, colors: map<Vertex, Color>)
    requires Searching(g, ALL, t, [], colors) && Records(infos, BackSequence(t.log))
    requires Proxied(g, h, path, infos, |infos|) && (forall info | info in infos :: FixupOk(g, path, info))
    ensures ProxiesOk(g, h, path, BackOf(t.log))
  {
    hide Searching, FixupOk, ProxyOrNoWayOut, ProxyFor;
    RecordsMarked(g, t, colors, infos);
    forall e | e in BackOf(t.log) ensures ProxyOrNoWayOut(g, h, path, e) {
      assert IsRecorded(infos, |infos|, e);
      ProxiesDone(g, h, infos, path, e);
    }
    forall e | e in h.Keys - g.Keys ensures IsProxy(g, path, BackOf(t.log), h[e]) {
      assert IsProxyAmong(g, path, infos, |infos|, h[e]);
      var i :| 0 <= i < |infos| && ProxyFor(g, path, infos[i].edge, h[e]);
      assert IsRecorded(infos, |infos|, infos[i].edge);
    }
  }

  lemma ProxyLeadsFromDecision(g: Arcs, path: map<Vertex, seq<Edge>>, marked: set<Edge>, arc: Arc<Vertex>)
    requires IsProxy(g, path, marked, arc)
    ensures exists o :: o in g && g[o].src.statement.IsDecision() && g[o].dst == arc.dst
  {
    var e :| e in marked && ProxyFor(g, path, e, arc);
    ForwardTargetLeavesDecision(g, path[g[e].src], |path[g[e].dst]|, arc.dst);
  }

  method FixupBackEdges(graph: Graph, entry: Vertex, ghost vs: set<Vertex>, ghost g: Arcs)
    returns (ghost h: Arcs, ghost marked: set<Edge>, ghost first: set<Vertex>, ghost t: Trace<Vertex, Edge>,
             ghost colors: map<Vertex, Color>)
    requires Represents(vs, g) && graph.edges == g.Keys
    modifies graph`edges, vs`outEdges, vs`inEdges, g.Keys`isBackEdge
    ensures Represents(vs, h) && graph.edges == h.Keys
    ensures MarkedBySearch(g, graph.vertices, entry, t, colors, first, marked)
    ensures forall e | e in g :: e.isBackEdge == (old(e.isBackEdge) || e in marked)
    ensures ProxiesOk(g, h, t.path, marked)
    ensures forall e | e in h && e !in g :: fresh(e) && !e.isBackEdge
  {
    hide *;
    var arcs := graph.Snapshot(vs, g);
    var log;
    log, t, colors, first := DepthFirstSearch(arcs, entry, graph.vertices);
    SearchMarksWell(g, graph.vertices, entry, t, colors, first);
    var infos := CollectBackEdges(arcs, log, t, colors);
    RecordsMarked(g, t, colors, infos);
    h := MarkAll(graph, infos, vs, g, t.path);
    marked := BackOf(log);
    AllProxiesDone(g, h, infos, t.path, t, colors);
  }

  method MarkAll(graph: Graph, infos: seq<BackEdgeFixupInfo>, ghost vs: set<Vertex>, ghost g: Arcs,
                 ghost path: map<Vertex, seq<Edge>>)
    returns (ghost h: Arcs)
    requires Represents(vs, g) && graph.edges == g.Keys
    requires forall info | info in infos :: FixupOk(g, path, info)
    requires forall i | 0 <= i < |infos| :: infos[i].edge in g
    modifies graph`edges, vs`outEdges, vs`inEdges, g.Keys`isBackEdge
    ensures Represents(vs, h) && graph.edges == h.Keys
    ensures Proxied(g, h, path, infos, |infos|)
    ensures forall e | e in g :: e.isBackEdge == (old(e.isBackEdge) || IsRecorded(infos, |infos|, e))
    ensures forall e | e in h && e !in g :: fresh(e) && !e.isBackEdge
  {
    hide *;
    h := g;
    NothingProxied(vs, g, path, infos);
    NothingRecorded(infos);
    var k := 0;
    while k < |infos|
      invariant k <= |infos| && EndsIn(vs, g) && Represents(vs, h) && graph.edges == h.Keys
      invariant Proxied(g, h, path, infos, k)
      invariant forall e | e in g :: e.isBackEdge == (old(e.isBackEdge) || IsRecorded(infos, k, e))
      invariant forall e | e in h && e !in g :: fresh(e) && !e.isBackEdge
      modifies graph`edges, vs`outEdges, vs`inEdges, g.Keys`isBackEdge
    {
      ghost var h0 := h;
      RecordedNext(infos, k);
      h := FixOne(graph, infos, k, vs, g, h, path);
      assert forall e | e in h0 && e !in g :: !e.isBackEdge;
      k := k + 1;
    }
  }

  lemma NothingRecorded(infos: seq<BackEdgeFixupInfo>)
    ensures forall e :: !IsRecorded(infos, 0, e)
  {
  }

  lemma RecordsMarked(g: Arcs, t: Trace<Vertex, Edge>, colors: map<Vertex, Color>, infos: seq<BackEdgeFixupInfo>)
    requires Searching(g, ALL, t, [], colors) && Records(infos, BackSequence(t.log))
    ensures forall e :: e in BackOf(t.log) <==> IsRecorded(infos, |infos|, e)
    ensures forall i, j | 0 <= i < j < |infos| :: infos[i].edge != infos[j].edge
    ensures forall i | 0 <= i < |infos| :: infos[i].edge in g
  {
    hide Searching, AllMeant, Logged, Forest;
    SearchLogged(g, t, colors);
    BackSequenceOnce(t, |t.log|);
    assert t.log[..|t.log|] == t.log;
    var es := BackSequence(t.log);
    forall e | e in BackOf(t.log) ensures IsRecorded(infos, |infos|, e) {
      assert e in es;
      var i :| 0 <= i < |es| && es[i] == e;
      assert infos[i].edge == e;
    }
    forall i | 0 <= i < |infos| ensures infos[i].edge in BackOf(t.log) {
      assert es[i] in es;
      assert BackEdge(es[i]) in t.log;
    }
    forall i | 0 <= i < |infos| ensures infos[i].edge in g {
      assert infos[i].edge in BackSequence(t.log);
      BackEdgeInGraph(g, t, colors, infos[i].edge);
    }
  }

  lemma NothingProxied(vs: set<Vertex>, g: Arcs, path: map<Vertex, seq<Edge>>, infos: seq<BackEdgeFixupInfo>)
    requires Represents(vs, g)
    ensures Proxied(g, g, path, infos, 0) && EndsIn(vs, g)
  {
  }

  // ----- Redundant vertices -----

  /** Points the one in-edge of `v` at the target of its one out-edge, which is removed. */
  method Bypass(graph: Graph, v: Vertex, ghost vs: set<Vertex>, ghost g: Arcs)
    returns (isolated: bool, ghost a: Edge, ghost b: Edge)
    requires Represents(vs, g) && graph.edges == g.Keys && v in vs
    requires |v.inEdges| == 1 && |v.outEdges| == 1
    modifies graph`edges, vs`inEdges, vs`outEdges, g.Keys`source, g.Keys`target
    ensures a in g && b in g && In(g, v) == {a} && Out(g, v) == {b}
    ensures Represents(vs, Contract(g, a, b)) && graph.edges == Contract(g, a, b).Keys
    ensures isolated
  {
    hide Represents;
    EdgeSets(vs, g, v);
    var inEdge :| inEdge in v.inEdges;
    var outEdge :| outEdge in v.outEdges;
    a, b := inEdge, outEdge;
    SingletonIs(v.inEdges, a);
    SingletonIs(v.outEdges, b);
    EdgeEnds(vs, g, a);
    EdgeEnds(vs, g, b);
    EdgeSetsContract(g, v, a, b, v);
    ghost var mid := g[a := Arc(g[a].src, g[b].dst)];
    inEdge.ChangeTarget(outEdge.target, vs, g);
    EdgeEnds(vs, mid, b);
    graph.RemoveEdge(outEdge, vs, mid);
    assert mid - {b} == Contract(g, a, b);
    EdgeSets(vs, Contract(g, a, b), v);
    isolated := |v.inEdges| == 0 && |v.outEdges| == 0;
  }

  predicate IsRedundant(g: Arcs, v: Vertex)
  {
    v.statement.IsRedundancyCandidate() && |In(g, v)| == 1 && |Out(g, v)| == 1
  }

  function RedundantIn(g: Arcs, vertices: set<Vertex>): set<Vertex>
  {
    set v | v in vertices && IsRedundant(g, v)
  }

  lemma RedundantMore(g: Arcs, seen: set<Vertex>, v: Vertex)
    ensures RedundantIn(g, seen + {v}) == RedundantIn(g, seen) + if IsRedundant(g, v) then {v} else {}
  {
  }

  /** Where the pass stands once the vertices `seen` have been looked at. */
  ghost predicate Passed(g: Arcs, h: Arcs, vs: set<Vertex>, seen: set<Vertex>, gone: set<Vertex>,
                         chain: map<Edge, seq<Edge>>)
  {
    && Contracted(g, h, gone, chain) && OneWayIn(g, gone) && DegreesKept(g, h, gone, vs)
    && gone == RedundantIn(g, seen)
    && (forall v | v in gone :: Out(h, v) == {} && In(h, v) == {})
    && |h| + |gone| == |g|
  }

  lemma PassStart(g: Arcs, vs: set<Vertex>) returns (chain: map<Edge, seq<Edge>>)
    ensures Passed(g, g, vs, {}, {}, chain)
  {
    chain := ContractedNothing(g);
  }

  lemma PassOver(g: Arcs, h: Arcs, vs: set<Vertex>, seen: set<Vertex>, gone: set<Vertex>, chain: map<Edge, seq<Edge>>,
                 v: Vertex)
    requires Passed(g, h, vs, seen, gone, chain) && v in vs && v !in seen && v !in gone
    requires !v.statement.IsRedundancyCandidate() || |In(h, v)| != 1 || |Out(h, v)| != 1
    ensures Passed(g, h, vs, seen + {v}, gone, chain)
  {
    hide Contracted, OneWayIn, RedundantIn;
    RedundantMore(g, seen, v);
    assert v !in gone ==> |In(h, v)| == |In(g, v)| && Out(h, v) == Out(g, v);
  }

  lemma PassContract(g: Arcs, h: Arcs, vs: set<Vertex>, seen: set<Vertex>, gone: set<Vertex>,
                     chain: map<Edge, seq<Edge>>,
                     v: Vertex, a: Edge, b: Edge)
    returns (chain': map<Edge, seq<Edge>>)
    requires Passed(g, h, vs, seen, gone, chain) && v in vs && v !in seen && v.statement.IsRedundancyCandidate()
    requires v !in gone
    requires a in h && b in h && In(h, v) == {a} && Out(h, v) == {b}
    ensures Passed(g, Contract(h, a, b), vs, seen + {v}, gone + {v}, chain')
  {
    hide *;
    PassEnd(g, h, vs, seen, gone, chain);
    DegreesOf(g, h, gone, vs, v);
    RedundantNext(g, h, seen, v, a, b);
    chain' := ContractOne(g, h, gone, chain, v, a, b);
    DegreesContract(g, h, gone, vs, v, a, b);
    OneWayInMore(g, gone, v);
    ContractCount(h, a, b);
    StillIsolated(h, gone, v, a, b);
    OneMore(gone, v);
    Pass(g, Contract(h, a, b), vs, seen + {v}, gone + {v}, chain');
  }

  lemma RedundantNext(g: Arcs, h: Arcs, seen: set<Vertex>, v: Vertex, a: Edge, b: Edge)
    requires v.statement.IsRedundancyCandidate() && |In(h, v)| == |In(g, v)| && Out(h, v) == Out(g, v)
    requires In(h, v) == {a} && Out(h, v) == {b}
    ensures RedundantIn(g, seen + {v}) == RedundantIn(g, seen) + {v} && |In(g, v)| == 1
  {
  }

  lemma OneMore<T>(s: set<T>, x: T)
    requires x !in s
    ensures |s + {x}| == |s| + 1
  {
  }

  lemma Pass(g: Arcs, h: Arcs, vs: set<Vertex>, seen: set<Vertex>, gone: set<Vertex>, chain: map<Edge, seq<Edge>>)
    requires Contracted(g, h, gone, chain) && OneWayIn(g, gone) && DegreesKept(g, h, gone, vs)
    requires gone == RedundantIn(g, seen) && |h| + |gone| == |g|
    requires forall v | v in gone :: Out(h, v) == {} && In(h, v) == {}
    ensures Passed(g, h, vs, seen, gone, chain)
  {
  }

  lemma DegreesOf(g: Arcs, h: Arcs, gone: set<Vertex>, vs: set<Vertex>, v: Vertex)
    requires DegreesKept(g, h, gone, vs) && v in vs - gone
    ensures |In(h, v)| == |In(g, v)| && Out(h, v) == Out(g, v)
  {
  }

  lemma StillIsolated(h: Arcs, gone: set<Vertex>, v: Vertex, a: Edge, b: Edge)
    requires a in h && b in h && In(h, v) == {a} && Out(h, v) == {b}
    requires forall w | w in gone :: Out(h, w) == {} && In(h, w) == {}
    ensures forall w | w in gone + {v} :: Out(Contract(h, a, b), w) == {} && In(Contract(h, a, b), w) == {}
  {
    forall w | w in gone + {v} ensures Out(Contract(h, a, b), w) == {} && In(Contract(h, a, b), w) == {} {
      EdgeSetsContract(h, v, a, b, w);
      assert w in gone ==> b !in In(h, w);
    }
  }

  lemma OneWayInMore(g: Arcs, gone: set<Vertex>, v: Vertex)
    requires OneWayIn(g, gone) && |In(g, v)| == 1
    ensures OneWayIn(g, gone + {v})
  {
    var a :| a in In(g, v);
    SingletonIs(In(g, v), a);
    assert a in g;
  }

  lemma ContractCount(h: Arcs, a: Edge, b: Edge)
    requires a in h && b in h
    ensures |Contract(h, a, b)| + 1 == |h|
  {
    assert Contract(h, a, b).Keys == h.Keys - {b};
    assert |h.Keys - {b}| + 1 == |h.Keys|;
  }

  lemma IsolatedCanGo(vs: set<Vertex>, h: Arcs, gone: set<Vertex>)
    requires Represents(vs, h) && forall v | v in gone :: Out(h, v) == {} && In(h, v) == {}
    ensures Represents(vs - gone, h)
  {
    forall e | e in h ensures h[e].src !in gone && h[e].dst !in gone {
      assert e in Out(h, h[e].src) && e in In(h, h[e].dst);
    }
  }

  /** Bypasses every redundant vertex, in any order; those stay in the graph for now, without edges. */
  method BypassAll(graph: Graph, ghost vs: set<Vertex>, ghost g: Arcs)
    returns (verticesToRemove: set<Vertex>, ghost h: Arcs, ghost chain: map<Edge, seq<Edge>>)
    requires Represents(vs, g) && graph.edges == g.Keys && graph.vertices <= vs
    modifies graph`edges, vs`inEdges, vs`outEdges, g.Keys`source, g.Keys`target
    ensures Represents(vs, h) && graph.edges == h.Keys
    ensures Passed(g, h, vs, graph.vertices, verticesToRemove, chain)
  {
    hide Represents, Passed, Contract;
    h, verticesToRemove := g, {};
    chain := PassStart(g, vs);
    var todo := graph.vertices;
    assert graph.vertices - todo == {};
    while todo != {}
      invariant todo <= graph.vertices && h.Keys <= g.Keys
      invariant Represents(vs, h) && graph.edges == h.Keys
      invariant Passed(g, h, vs, graph.vertices - todo, verticesToRemove, chain)
    {
      var v :| v in todo;
      ghost var gone := verticesToRemove;
      EdgeSets(vs, h, v);
      SeenOnly(g, h, vs, graph.vertices - todo, gone, chain);
      assert graph.vertices - (todo - {v}) == graph.vertices - todo + {v};
      if v.statement.IsRedundancyCandidate() && |v.inEdges| == 1 && |v.outEdges| == 1 {
        ghost var a, b;
        var isolated;
        isolated, a, b := Bypass(graph, v, vs, h);
        chain := PassContract(g, h, vs, graph.vertices - todo, gone, chain, v, a, b);
        ContractKeys(h, a, b);
        h := Contract(h, a, b);
        if isolated {
          verticesToRemove := verticesToRemove + {v};
        }
      } else {
        PassOver(g, h, vs, graph.vertices - todo, gone, chain, v);
      }
      todo := todo - {v};
    }
    assert graph.vertices - todo == graph.vertices;
  }

  method DeleteVertices(graph: Graph, verticesToRemove: set<Vertex>)
    requires graph.IndicesUnique()
    modifies graph`vertices
    ensures graph.vertices == old(graph.vertices) - verticesToRemove && graph.IndicesUnique()
  {
    hide Graph.IndicesUnique;
    var todo := verticesToRemove;
    while todo != {}
      invariant todo <= verticesToRemove
      invariant graph.vertices == old(graph.vertices) - (verticesToRemove - todo) && graph.IndicesUnique()
    {
      var v :| v in todo;
      graph.RemoveVertex(v);
      todo := todo - {v};
    }
  }

  method RemoveRedundantNodes(graph: Graph, ghost vs: set<Vertex>, ghost g: Arcs)
    returns (ghost h: Arcs, ghost gone: set<Vertex>, ghost chain: map<Edge, seq<Edge>>)
    requires Represents(vs, g) && graph.edges == g.Keys && graph.vertices <= vs && graph.IndicesUnique()
    modifies graph`vertices, graph`edges, vs`inEdges, vs`outEdges, g.Keys`source, g.Keys`target
    ensures Represents(vs - gone, h) && graph.edges == h.Keys && |h| + |gone| == |g|
    ensures gone == RedundantIn(g, old(graph.vertices))
    ensures graph.vertices == old(graph.vertices) - gone
    ensures graph.IndicesUnique()
    ensures Contracted(g, h, gone, chain) && OneWayIn(g, gone) && DegreesKept(g, h, gone, vs)
  {
    hide *;
    var verticesToRemove;
    verticesToRemove, h, chain := BypassAll(graph, vs, g);
    gone := verticesToRemove;
    PassDone(vs, g, h, graph.vertices, gone, chain);
    DeleteVertices(graph, verticesToRemove);
  }

  lemma PassDone(vs: set<Vertex>, g: Arcs, h: Arcs, seen: set<Vertex>, gone: set<Vertex>, chain: map<Edge, seq<Edge>>)
    requires Represents(vs, h) && Passed(g, h, vs, seen, gone, chain)
    ensures Represents(vs - gone, h) && |h| + |gone| == |g| && gone == RedundantIn(g, seen)
    ensures Contracted(g, h, gone, chain) && OneWayIn(g, gone) && DegreesKept(g, h, gone, vs)
  {
    hide *;
    PassEnd(g, h, vs, seen, gone, chain);
    IsolatedCanGo(vs, h, gone);
  }

  lemma SeenOnly(g: Arcs, h: Arcs, vs: set<Vertex>, seen: set<Vertex>, gone: set<Vertex>, chain: map<Edge, seq<Edge>>)
    requires Passed(g, h, vs, seen, gone, chain)
    ensures gone <= seen
  {
  }

  lemma ContractKeys(h: Arcs, a: Edge, b: Edge)
    requires a in h && b in h
    ensures Contract(h, a, b).Keys == h.Keys - {b}
  {
  }

  lemma PassEnd(g: Arcs, h: Arcs, vs: set<Vertex>, seen: set<Vertex>, gone: set<Vertex>, chain: map<Edge, seq<Edge>>)
    requires Passed(g, h, vs, seen, gone, chain)
    ensures Contracted(g, h, gone, chain) && OneWayIn(g, gone) && DegreesKept(g, h, gone, vs)
    ensures gone == RedundantIn(g, seen) && |h| + |gone| == |g|
    ensures forall v | v in gone :: Out(h, v) == {} && In(h, v) == {}
  {
  }
}
