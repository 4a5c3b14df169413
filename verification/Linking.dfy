/** Linking the calls of a program: every resolved call gets an edge to its callee's ENTRY and one back from its
    EXIT. */
module Linking {
  import opened Walks
  import opened Graphs

  /** The edges made for the resolved calls. */
  datatype Links = Links(callEdge: map<Vertex, Edge>, returnEdge: map<Vertex, Edge>)

  ghost predicate FunctionsOk(fs: set<Function>, vs: set<Vertex>, g: Arcs)
  {
    && (forall f | f in fs :: f.entry in vs && f.exit in vs && f.entry.statement == Entry && f.exit.statement == Exit)
    && (forall f | f in fs :: f.entrySelfEdge in g && f.entrySelfEdge.kind == Impossible)
    && (forall f, h | f in fs && h in fs && f != h :: f.entry != h.entry)
  }

  /** A call goes to the callee's ENTRY, and from its EXIT to where the call falls through to. */
  ghost predicate CallLinked(g: Arcs, links: Links, c: Vertex)
    requires c.statement.CallResolved?
  {
    && c in links.callEdge && c in links.returnEdge
    && links.callEdge[c] in g && links.callEdge[c].kind == FunctionCall(c)
    && g[links.callEdge[c]] == Arc(c, c.statement.target.entry)
    && links.returnEdge[c] in g && links.returnEdge[c].kind == Return(c)
    && g[links.returnEdge[c]].src == c.statement.target.exit
    && FallsTo(g, c, g[links.returnEdge[c]].dst)
  }

  ghost predicate FallsTo(g: Arcs, c: Vertex, t: Vertex)
  {
    exists e :: e in g && e.kind == Fallthrough && g[e] == Arc(c, t)
  }

  /** The resolved calls are linked, each by one call edge and one Return edge, and nothing else is. */
  ghost predicate LinksOk(fs: set<Function>, vs: set<Vertex>, g: Arcs, links: Links)
  {
    && links.callEdge.Keys == links.returnEdge.Keys == (set v | v in vs && v.statement.CallResolved?)
    && (forall c | c in links.callEdge ::
          c.statement.CallResolved? && c.statement.target in fs && CallLinked(g, links, c))
    && (forall e | e in g && e.kind.FunctionCall? :: e.kind.call in links.callEdge && links.callEdge[e.kind.call] == e)
    && (forall e | e in g && e.kind.Return? :: e.kind.call in links.returnEdge && links.returnEdge[e.kind.call] == e)
  }

  ghost function CallsTo(links: Links, f: Function): set<Vertex>
  {
    set c | c in links.callEdge && c.statement == CallResolved(f)
  }

  ghost function CallEdgesTo(links: Links, f: Function): set<Edge>
  {
    set c | c in links.callEdge && c.statement == CallResolved(f) :: links.callEdge[c]
  }

  /** Only its self edge and its calls lead to an ENTRY. */
  ghost predicate EntriesOk(fs: set<Function>, g: Arcs, links: Links)
  {
    forall f | f in fs :: In(g, f.entry) == {f.entrySelfEdge} + CallEdgesTo(links, f)
  }

  /** Every call that is still unresolved falls through to something. */
  ghost predicate UnresolvedOk(vs: set<Vertex>, g: Arcs)
  {
    forall v | v in vs && v.statement.CallUnresolved? :: exists e :: e in g && e.kind == Fallthrough && g[e].src == v
  }

  ghost predicate ProgramLinked(fs: set<Function>, vs: set<Vertex>, g: Arcs, links: Links)
  {
    && EndsIn(vs, g) && FunctionsOk(fs, vs, g) && LinksOk(fs, vs, g, links) && EntriesOk(fs, g, links)
    && UnresolvedOk(vs, g)
  }

  // ----- One more call -----

  /** The graph once the unresolved call `v` has been replaced by `w`, which calls its target and returns to `t`. */
  ghost function WithCall(g: Arcs, v: Vertex, w: Vertex, call: Edge, ret: Edge, t: Vertex): Arcs
    requires w.statement.CallResolved?
  {
    Renamed(g, v, w)[call := Arc(w, w.statement.target.entry)][ret := Arc(w.statement.target.exit, t)]
  }

  ghost function AddLink(links: Links, w: Vertex, call: Edge, ret: Edge): Links
  {
    Links(links.callEdge[w := call], links.returnEdge[w := ret])
  }

  /** What linking one more call needs. */
  ghost predicate CallReady(fs: set<Function>, vs: set<Vertex>, g: Arcs, v: Vertex, w: Vertex, call: Edge, ret: Edge,
                            t: Vertex)
  {
    && v in vs && w !in vs && v.statement.CallUnresolved? && w.statement.CallResolved? && w.statement.target in fs
    && call !in g && ret !in g && call.kind == FunctionCall(w) && ret.kind == Return(w)
    && FallsTo(Renamed(g, v, w), w, t)
  }

  lemma FunctionsStay(fs: set<Function>, vs: set<Vertex>, g: Arcs, v: Vertex, w: Vertex, call: Edge, ret: Edge,
                      t: Vertex)
    requires FunctionsOk(fs, vs, g) && CallReady(fs, vs, g, v, w, call, ret, t)
    ensures FunctionsOk(fs, vs - {v} + {w}, WithCall(g, v, w, call, ret, t))
  {
    hide FallsTo;
  }

  lemma RenamedAt(g: Arcs, v: Vertex, w: Vertex, call: Edge, ret: Edge, t: Vertex, e: Edge)
    requires w.statement.CallResolved? && e in g && call !in g && ret !in g && v != w
    ensures e in WithCall(g, v, w, call, ret, t)
    ensures var h := WithCall(g, v, w, call, ret, t);
            && (g[e].src != v ==> h[e].src == g[e].src) && (g[e].src == v ==> h[e].src == w)
            && (g[e].dst != v ==> h[e].dst == g[e].dst) && (g[e].dst == v ==> h[e].dst == w)
  {
  }

  lemma StillFallsTo(g: Arcs, v: Vertex, w: Vertex, call: Edge, ret: Edge, t: Vertex, c: Vertex, u: Vertex)
    requires w.statement.CallResolved? && call !in g && ret !in g && v != w && c != v && FallsTo(g, c, u)
    ensures FallsTo(WithCall(g, v, w, call, ret, t), c, if u == v then w else u)
  {
    hide WithCall;
    var e :| e in g && e.kind == Fallthrough && g[e] == Arc(c, u);
    RenamedAt(g, v, w, call, ret, t, e);
  }

  lemma CallStaysLinked(fs: set<Function>, vs: set<Vertex>, g: Arcs, links: Links,
                        v: Vertex, w: Vertex, call: Edge, ret: Edge, t: Vertex, c: Vertex)
    requires FunctionsOk(fs, vs, g) && CallReady(fs, vs, g, v, w, call, ret, t)
    requires c in vs && c.statement.CallResolved? && c.statement.target in fs && CallLinked(g, links, c)
    ensures CallLinked(WithCall(g, v, w, call, ret, t), AddLink(links, w, call, ret), c)
  {
    hide WithCall, FallsTo, FunctionsOk;
    TargetEnds(fs, vs, g, c.statement.target);
    RenamedAt(g, v, w, call, ret, t, links.callEdge[c]);
    RenamedAt(g, v, w, call, ret, t, links.returnEdge[c]);
    StillFallsTo(g, v, w, call, ret, t, c, g[links.returnEdge[c]].dst);
  }

  lemma TargetEnds(fs: set<Function>, vs: set<Vertex>, g: Arcs, f: Function)
    requires FunctionsOk(fs, vs, g) && f in fs
    ensures f.entry in vs && f.exit in vs && f.entry.statement == Entry && f.exit.statement == Exit
  {
  }

  lemma NewCallLinked(g: Arcs, links: Links, v: Vertex, w: Vertex, call: Edge, ret: Edge, t: Vertex)
    requires w.statement.CallResolved? && call !in g && ret !in g && call.kind == FunctionCall(w)
    requires ret.kind == Return(w)
    requires FallsTo(Renamed(g, v, w), w, t)
    ensures CallLinked(WithCall(g, v, w, call, ret, t), AddLink(links, w, call, ret), w)
  {
    var h := Renamed(g, v, w);
    var e :| e in h && e.kind == Fallthrough && h[e] == Arc(w, t);
    assert WithCall(g, v, w, call, ret, t)[e] == Arc(w, t);
  }

  lemma LinksStay(fs: set<Function>, vs: set<Vertex>, g: Arcs, links: Links,
                  v: Vertex, w: Vertex, call: Edge, ret: Edge, t: Vertex)
    requires FunctionsOk(fs, vs, g) && LinksOk(fs, vs, g, links) && CallReady(fs, vs, g, v, w, call, ret, t)
    ensures LinksOk(fs, vs - {v} + {w}, WithCall(g, v, w, call, ret, t), AddLink(links, w, call, ret))
  {
    hide FunctionsOk, FallsTo, CallLinked;
    var h, links' := WithCall(g, v, w, call, ret, t), AddLink(links, w, call, ret);
    NewCallLinked(g, links, v, w, call, ret, t);
    forall c | c in links.callEdge ensures CallLinked(h, links', c) {
      CallStaysLinked(fs, vs, g, links, v, w, call, ret, t, c);
    }
  }

  lemma CallEdgesMore(links: Links, w: Vertex, call: Edge, ret: Edge, f: Function)
    requires w !in links.callEdge
    ensures CallEdgesTo(AddLink(links, w, call, ret), f) ==
              CallEdgesTo(links, f) + if w.statement == CallResolved(f) then {call} else {}
  {
    var links' := AddLink(links, w, call, ret);
    forall e | e in CallEdgesTo(links, f) ensures e in CallEdgesTo(links', f) {
      var c :| c in links.callEdge && c.statement == CallResolved(f) && links.callEdge[c] == e;
      assert links'.callEdge[c] == e;
    }
    assert w.statement == CallResolved(f) ==> links'.callEdge[w] in CallEdgesTo(links', f);
  }

  /** Into an ENTRY lead only its self edge and call edges. */
  lemma IntoEntry(fs: set<Function>, vs: set<Vertex>, g: Arcs, links: Links, f: Function, e: Edge)
    requires FunctionsOk(fs, vs, g) && LinksOk(fs, vs, g, links) && EntriesOk(fs, g, links) && f in fs
    requires e in g && g[e].dst == f.entry
    ensures || e == f.entrySelfEdge
            || (e.kind.FunctionCall? && e.kind.call in CallsTo(links, f) && links.callEdge[e.kind.call] == e)
  {
    assert e in In(g, f.entry);
    if e != f.entrySelfEdge {
      var c :| c in links.callEdge && c.statement == CallResolved(f) && links.callEdge[c] == e;
      assert CallLinked(g, links, c);
    }
  }

  lemma NoFallthroughToEntry(fs: set<Function>, vs: set<Vertex>, g: Arcs, links: Links, f: Function, e: Edge)
    requires FunctionsOk(fs, vs, g) && LinksOk(fs, vs, g, links) && EntriesOk(fs, g, links) && f in fs
    requires e in g && e.kind == Fallthrough
    ensures g[e].dst != f.entry
  {
    if g[e].dst == f.entry {
      IntoEntry(fs, vs, g, links, f, e);
    }
  }

  lemma EntriesStay(fs: set<Function>, vs: set<Vertex>, g: Arcs, links: Links,
                    v: Vertex, w: Vertex, call: Edge, ret: Edge, t: Vertex)
    requires FunctionsOk(fs, vs, g) && LinksOk(fs, vs, g, links) && EntriesOk(fs, g, links)
    requires EndsIn(vs, g) && CallReady(fs, vs, g, v, w, call, ret, t) && call != ret
    ensures EntriesOk(fs, WithCall(g, v, w, call, ret, t), AddLink(links, w, call, ret))
  {
    hide EndsIn;
    var h := WithCall(g, v, w, call, ret, t);
    forall f | f in fs ensures In(h, f.entry) == {f.entrySelfEdge} + CallEdgesTo(AddLink(links, w, call, ret), f) {
      CallEdgesMore(links, w, call, ret, f);
      NotReturnedTo(fs, vs, g, links, v, w, t, f);
      EntryIn(g, v, w, call, ret, t, f) by {
        TargetEnds(fs, vs, g, f);
      }
      TargetsDiffer(fs, vs, g, w.statement.target, f);
      hide *;
    }
  }

  lemma TargetsDiffer(fs: set<Function>, vs: set<Vertex>, g: Arcs, h: Function, f: Function)
    requires FunctionsOk(fs, vs, g) && f in fs && h in fs
    ensures h.entry == f.entry <==> h == f
  {
  }

  lemma NotReturnedTo(fs: set<Function>, vs: set<Vertex>, g: Arcs, links: Links, v: Vertex, w: Vertex, t: Vertex,
                      f: Function)
    requires FunctionsOk(fs, vs, g) && LinksOk(fs, vs, g, links) && EntriesOk(fs, g, links) && f in fs
    requires v in vs && w !in vs && v.statement.CallUnresolved? && FallsTo(Renamed(g, v, w), w, t)
    ensures t != f.entry
  {
    hide LinksOk, EntriesOk;
    var h := Renamed(g, v, w);
    var e :| e in h && e.kind == Fallthrough && h[e] == Arc(w, t);
    NoFallthroughToEntry(fs, vs, g, links, f, e);
  }

  lemma EntryIn(g: Arcs, v: Vertex, w: Vertex, call: Edge, ret: Edge, t: Vertex, f: Function)
    requires w.statement.CallResolved? && call !in g && ret !in g && call != ret
    requires f.entry != v && f.entry != w && t != f.entry
    ensures In(WithCall(g, v, w, call, ret, t), f.entry) ==
              In(g, f.entry) + if w.statement.target.entry == f.entry then {call} else {}
  {
  }

  lemma UnresolvedStay(fs: set<Function>, vs: set<Vertex>, g: Arcs, v: Vertex, w: Vertex, call: Edge, ret: Edge,
                       t: Vertex)
    requires UnresolvedOk(vs, g) && CallReady(fs, vs, g, v, w, call, ret, t)
    ensures UnresolvedOk(vs - {v} + {w}, WithCall(g, v, w, call, ret, t))
  {
    hide WithCall, FallsTo;
    var h := WithCall(g, v, w, call, ret, t);
    forall u | u in vs - {v} && u.statement.CallUnresolved?
      ensures exists e :: e in h && e.kind == Fallthrough && h[e].src == u
    {
      var e :| e in g && e.kind == Fallthrough && g[e].src == u;
      RenamedAt(g, v, w, call, ret, t, e);
    }
  }

  lemma EndsStay(fs: set<Function>, vs: set<Vertex>, g: Arcs, v: Vertex, w: Vertex, call: Edge, ret: Edge, t: Vertex)
    requires EndsIn(vs, g) && FunctionsOk(fs, vs, g) && CallReady(fs, vs, g, v, w, call, ret, t)
    ensures EndsIn(vs - {v} + {w}, WithCall(g, v, w, call, ret, t))
  {
    var h := Renamed(g, v, w);
    var e :| e in h && e.kind == Fallthrough && h[e] == Arc(w, t);
  }

  /** Linking one more call keeps the program linked. */
  lemma LinkedStays(fs: set<Function>, vs: set<Vertex>, g: Arcs, links: Links,
                    v: Vertex, w: Vertex, call: Edge, ret: Edge, t: Vertex)
    requires ProgramLinked(fs, vs, g, links) && CallReady(fs, vs, g, v, w, call, ret, t) && call != ret
    ensures ProgramLinked(fs, vs - {v} + {w}, WithCall(g, v, w, call, ret, t), AddLink(links, w, call, ret))
  {
    hide FunctionsOk, LinksOk, EntriesOk, UnresolvedOk, EndsIn, CallReady, WithCall, AddLink;
    EndsStay(fs, vs, g, v, w, call, ret, t);
    FunctionsStay(fs, vs, g, v, w, call, ret, t);
    LinksStay(fs, vs, g, links, v, w, call, ret, t);
    EntriesStay(fs, vs, g, links, v, w, call, ret, t);
    UnresolvedStay(fs, vs, g, v, w, call, ret, t);
  }

  // ----- Link -----

  method GetFirstOutEdgeOfType(v: Vertex, isType: EdgeKind -> bool) returns (found: Edge?)
    ensures found == null <==> forall e | e in v.outEdges :: !isType(e.kind)
    ensures found != null ==> found in v.outEdges && isType(found.kind)
  {
    var todo := v.outEdges;
    while todo != {}
      invariant todo <= v.outEdges && forall e | e in v.outEdges - todo :: !isType(e.kind)
    {
      var e :| e in todo;
      if isType(e.kind) {
        return e;
      }
      todo := todo - {e};
    }
    return null;
  }

  predicate IsFallthrough(kind: EdgeKind)
  {
    kind == Fallthrough
  }

  lemma FallsSomewhere(vs: set<Vertex>, g: Arcs, v: Vertex, w: Vertex)
    requires UnresolvedOk(vs, g) && v in vs && v.statement.CallUnresolved?
    ensures exists e :: e in Out(Renamed(g, v, w), w) && IsFallthrough(e.kind)
  {
    var e :| e in g && e.kind == Fallthrough && g[e].src == v;
    assert e in Out(Renamed(g, v, w), w);
  }

  lemma ItFallsTo(g: Arcs, w: Vertex, e: Edge)
    requires e in Out(g, w) && IsFallthrough(e.kind)
    ensures e in g && FallsTo(g, w, g[e].dst)
  {
  }

  lemma LinkedParts(fs: set<Function>, vs: set<Vertex>, g: Arcs, links: Links)
    requires ProgramLinked(fs, vs, g, links)
    ensures EndsIn(vs, g) && FunctionsOk(fs, vs, g) && LinksOk(fs, vs, g, links) && EntriesOk(fs, g, links)
    ensures UnresolvedOk(vs, g)
  {
  }

  lemma WithCallIs(g: Arcs, v: Vertex, w: Vertex, call: Edge, ret: Edge, t: Vertex)
    requires w.statement.CallResolved? && call !in g && ret !in g
    ensures WithCall(g, v, w, call, ret, t)
              == Renamed(g, v, w)[call := Arc(w, w.statement.target.entry)][ret := Arc(w.statement.target.exit, t)]
    ensures WithCall(g, v, w, call, ret, t).Keys == g.Keys + {call, ret}
    ensures forall e | e in g :: WithCall(g, v, w, call, ret, t)[e] == Renamed(g, v, w)[e]
  {
  }

  lemma Ready(fs: set<Function>, vs: set<Vertex>, g: Arcs, v: Vertex, w: Vertex, call: Edge, ret: Edge, t: Vertex)
    requires v in vs && w !in vs && v.statement.CallUnresolved? && w.statement.CallResolved? && w.statement.target in fs
    requires call !in g && ret !in g && call.kind == FunctionCall(w) && ret.kind == Return(w)
    requires FallsTo(Renamed(g, v, w), w, t)
    ensures CallReady(fs, vs, g, v, w, call, ret, t)
  {
  }

  /** Puts `w` in the place of `v`, which is deleted: no edge mentions it any more. */
  method ReplaceCall(f: Function, v: Vertex, w: Vertex, ghost vs: set<Vertex>, ghost g: Arcs)
    requires Represents(vs, g) && v in f.cfg.vertices && f.cfg.vertices <= vs && f.cfg.IndicesUnique()
    requires w !in vs && w.inEdges == {} && w.outEdges == {}
    modifies f.cfg`vertices, f.cfg`nextVertexId, w, vs`inEdges, vs`outEdges, g.Keys`source, g.Keys`target
    ensures Represents(vs - {v} + {w}, Renamed(g, v, w))
    ensures f.cfg.vertices == old(f.cfg.vertices) - {v} + {w} && f.cfg.IndicesUnique()
  {
    hide *;
    JoinVertex(vs, g, w);
    EdgeSets(vs, g, v);
    EdgeSetsWithin(g, v);
    RenamedKeys(g, v, w);
    var replaced := f.cfg.ReplaceVertex(v, w, vs + {w}, g);
    ForgetVertex(vs + {w}, Renamed(g, v, w), v);
    assert vs + {w} - {v} == vs - {v} + {w};
  }

  /** The call edge belongs to the graph of the caller, the Return edge to that of the callee. */
  method AddCallEdges(f: Function, w: Vertex, ghost vs: set<Vertex>, ghost g: Arcs)
    returns (ghost call: Edge, ghost ret: Edge, ghost t: Vertex)
    requires Represents(vs, g) && w in vs && w.statement.CallResolved?
    requires w.statement.target.entry in vs && w.statement.target.exit in vs
    requires exists e :: e in Out(g, w) && IsFallthrough(e.kind)
    modifies f.cfg`edges, w.statement.target.cfg`edges, vs`inEdges, vs`outEdges
    ensures call !in g && ret !in g && call != ret && fresh(call) && fresh(ret) && !call.isBackEdge && !ret.isBackEdge
    ensures call.kind == FunctionCall(w) && ret.kind == Return(w) && FallsTo(g, w, t)
    ensures Represents(vs, g[call := Arc(w, w.statement.target.entry)][ret := Arc(w.statement.target.exit, t)])
    ensures f.cfg.edges == old(f.cfg.edges) + (if w.statement.target.cfg == f.cfg then {call, ret} else {call})
    ensures w.statement.target.cfg.edges ==
            old(w.statement.target.cfg.edges) + (if w.statement.target.cfg == f.cfg then {call, ret} else {ret})
  {
    hide Represents, FallsTo;
    EdgeSets(vs, g, w);
    var target := w.statement.target;
    var callEdge := new Edge(FunctionCall(w));
    var returnEdge := new Edge(Return(w));
    var fallthrough := GetFirstOutEdgeOfType(w, IsFallthrough);
    ItFallsTo(g, w, fallthrough);
    t := g[fallthrough].dst;
    f.cfg.AddEdge(w, target.entry, callEdge, vs, g);
    ghost var g2 := g[callEdge := Arc(w, target.entry)];
    EdgeEnds(vs, g2, fallthrough);
    target.cfg.AddEdge(target.exit, fallthrough.target, returnEdge, vs, g2);
    call, ret := callEdge, returnEdge;
  }

  method LinkCall(f: Function, v: Vertex, w: Vertex, ghost fs: set<Function>, ghost vs: set<Vertex>, ghost g: Arcs,
                  ghost links: Links)
    returns (ghost call: Edge, ghost ret: Edge, ghost t: Vertex)
    requires Represents(vs, g) && ProgramLinked(fs, vs, g, links)
    requires v in f.cfg.vertices && f.cfg.vertices <= vs && f.cfg.IndicesUnique() && v.statement.CallUnresolved?
    requires w !in vs && w.inEdges == {} && w.outEdges == {} && w.statement.CallResolved? && w.statement.target in fs
    modifies f.cfg, w.statement.target.cfg`edges, w, vs`inEdges, vs`outEdges, g.Keys`source, g.Keys`target
    ensures call !in g && ret !in g && call != ret && fresh(call) && fresh(ret) && !call.isBackEdge && !ret.isBackEdge
    ensures CallReady(fs, vs, g, v, w, call, ret, t)
    ensures Represents(vs - {v} + {w}, WithCall(g, v, w, call, ret, t))
    ensures ProgramLinked(fs, vs - {v} + {w}, WithCall(g, v, w, call, ret, t), AddLink(links, w, call, ret))
    ensures f.cfg.vertices == old(f.cfg.vertices) - {v} + {w} && f.cfg.IndicesUnique()
  {
    hide *;
    LinkedParts(fs, vs, g, links);
    ReplaceCall(f, v, w, vs, g);
    RenamedKeys(g, v, w);
    FallsSomewhere(vs, g, v, w);
    TargetEnds(fs, vs, g, w.statement.target);
    call, ret, t := AddCallEdges(f, w, vs - {v} + {w}, Renamed(g, v, w));
    CallAdded(fs, vs, g, links, v, w, call, ret, t);
  }

  lemma CallAdded(fs: set<Function>, vs: set<Vertex>, g: Arcs, links: Links, v: Vertex, w: Vertex, call: Edge,
                  ret: Edge, t: Vertex)
    requires ProgramLinked(fs, vs, g, links)
    requires v in vs && w !in vs && v.statement.CallUnresolved? && w.statement.CallResolved? && w.statement.target in fs
    requires call !in g && ret !in g && call != ret && call.kind == FunctionCall(w) && ret.kind == Return(w)
    requires FallsTo(Renamed(g, v, w), w, t)
    ensures CallReady(fs, vs, g, v, w, call, ret, t)
    ensures ProgramLinked(fs, vs - {v} + {w}, WithCall(g, v, w, call, ret, t), AddLink(links, w, call, ret))
    ensures WithCall(g, v, w, call, ret, t)
              == Renamed(g, v, w)[call := Arc(w, w.statement.target.entry)][ret := Arc(w.statement.target.exit, t)]
  {
    hide *;
    WithCallIs(g, v, w, call, ret, t);
    Ready(fs, vs, g, v, w, call, ret, t);
    LinkedStays(fs, vs, g, links, v, w, call, ret, t);
  }

  /** An unresolved call, and the resolved one that is to replace it. */
  datatype Replacement = Replacement(call: Vertex, resolved: Vertex)

  predicate Resolvable(v: Vertex, functionMap: map<string, Function>)
  {
    v.statement.CallUnresolved? && v.statement.name in functionMap
  }

  function ResolvableIn(vertices: set<Vertex>, functionMap: map<string, Function>): set<Vertex>
  {
    set v | v in vertices && Resolvable(v, functionMap)
  }

  /** The replacements are those of the map, each once, in some order. */
  ghost predicate Lists(infos: seq<Replacement>, ren: map<Vertex, Vertex>)
  {
    && (forall info | info in infos :: info.call in ren && ren[info.call] == info.resolved)
    && (forall i, j | 0 <= i < j < |infos| :: infos[i].call != infos[j].call)
    && ren.Keys == set info | info in infos :: info.call
  }

  /** Each call is to be replaced by a call to the function of its name. */
  ghost predicate ReplacementsOk(ren: map<Vertex, Vertex>, functionMap: map<string, Function>)
  {
    && (forall v | v in ren ::
          Resolvable(v, functionMap) && ren[v].statement == CallResolved(functionMap[v.statement.name]))
    && (forall u, v | u in ren && v in ren && u != v :: ren[u] != ren[v])
  }

  ghost predicate NoEdges(vertices: set<Vertex>)
    reads vertices`inEdges, vertices`outEdges
  {
    forall v | v in vertices :: v.inEdges == {} && v.outEdges == {}
  }

  lemma ListsMore(infos: seq<Replacement>, ren: map<Vertex, Vertex>, v: Vertex, w: Vertex)
    requires Lists(infos, ren) && v !in ren
    ensures Lists(infos + [Replacement(v, w)], ren[v := w])
  {
    var infos' := infos + [Replacement(v, w)];
    assert forall info | info in infos' :: info in infos || info == Replacement(v, w);
    assert forall i | 0 <= i < |infos| :: infos[i] in infos;
    forall u | u in ren ensures u in set info | info in infos' :: info.call {
      var info :| info in infos && info.call == u;
      assert info in infos';
    }
    assert infos'[|infos|] in infos';
  }

  lemma ReplacementsMore(ren: map<Vertex, Vertex>, functionMap: map<string, Function>, v: Vertex, w: Vertex)
    requires ReplacementsOk(ren, functionMap) && v !in ren && w !in ren.Values
    requires Resolvable(v, functionMap) && w.statement == CallResolved(functionMap[v.statement.name])
    ensures ReplacementsOk(ren[v := w], functionMap)
    ensures ren[v := w].Values == ren.Values + {w}
  {
    forall x | x in ren.Values + {w} ensures x in ren[v := w].Values {
      if x == w {
        assert ren[v := w][v] == w;
      } else {
        var u :| u in ren && ren[u] == x;
        assert ren[v := w][u] == x;
      }
    }
  }

  /** Looks for the unresolved calls of a function. */
  method FindCalls(vertices: set<Vertex>, functionMap: map<string, Function>)
    returns (infos: seq<Replacement>, unresolved: set<Vertex>, ghost ren: map<Vertex, Vertex>)
    ensures ren.Keys == ResolvableIn(vertices, functionMap) && ReplacementsOk(ren, functionMap)
    ensures Lists(infos, ren) && fresh(ren.Values) && NoEdges(ren.Values)
    ensures unresolved ==
              set v | v in vertices && v.statement.CallUnresolved? && v.statement.name !in functionMap
  {
    infos, unresolved, ren := [], {}, map[];
    var todo := vertices;
    while todo != {}
      invariant todo <= vertices && ren.Keys == ResolvableIn(vertices - todo, functionMap)
      invariant ReplacementsOk(ren, functionMap) && Lists(infos, ren) && fresh(ren.Values) && NoEdges(ren.Values)
      invariant unresolved ==
                set v | v in vertices - todo && v.statement.CallUnresolved? && v.statement.name !in functionMap
    {
      hide ReplacementsOk, Lists;
      var v :| v in todo;
      if v.statement.CallUnresolved? {
        if v.statement.name !in functionMap {
          unresolved := unresolved + {v};
        } else {
          var w := new Vertex(CallResolved(functionMap[v.statement.name]));
          ListsMore(infos, ren, v, w);
          ReplacementsMore(ren, functionMap, v, w);
          infos, ren := infos + [Replacement(v, w)], ren[v := w];
        }
      }
      todo := todo - {v};
    }
    assert vertices - todo == vertices;
  }

  ghost function Ren(ren: map<Vertex, Vertex>, v: Vertex): Vertex
  {
    if v in ren then ren[v] else v
  }

  /** Every edge of `g` is still there, with the replaced ends replaced. */
  ghost predicate Moved(g: Arcs, h: Arcs, ren: map<Vertex, Vertex>)
  {
    g.Keys <= h.Keys && forall e | e in g :: h[e] == Arc(Ren(ren, g[e].src), Ren(ren, g[e].dst))
  }

  /** The other edges are those of the calls `calls`. */
  ghost predicate OnlyCallsAdded(g: Arcs, h: Arcs, calls: set<Vertex>)
  {
    forall e | e in h.Keys - g.Keys :: (e.kind.FunctionCall? || e.kind.Return?) && e.kind.call in calls
  }

  ghost predicate LinksMore(links: Links, links': Links, calls: set<Vertex>)
  {
    && links'.callEdge.Keys == links.callEdge.Keys + calls
    && (forall c | c in links.callEdge && c in links.returnEdge ::
          && c in links'.returnEdge && links'.callEdge[c] == links.callEdge[c]
          && links'.returnEdge[c] == links.returnEdge[c])
  }

  /** What linking the calls that are replaced by `ren` has done to the program. */
  ghost predicate CallsLinked(vs: set<Vertex>, g: Arcs, links: Links, ren: map<Vertex, Vertex>, vs': set<Vertex>,
                              g': Arcs, links': Links)
  {
    && vs' == vs - ren.Keys + ren.Values
    && Moved(g, g', ren) && OnlyCallsAdded(g, g', ren.Values) && LinksMore(links, links', ren.Values)
  }

  lemma NoCallsLinked(vs: set<Vertex>, g: Arcs, links: Links)
    ensures CallsLinked(vs, g, links, map[], vs, g, links)
  {
  }

  lemma MovedMore(vs: set<Vertex>, g: Arcs, ren: map<Vertex, Vertex>, g': Arcs, v: Vertex, w: Vertex, call: Edge,
                  ret: Edge, t: Vertex)
    requires EndsIn(vs, g) && Moved(g, g', ren) && v in vs && v !in ren && v !in ren.Values
    requires w.statement.CallResolved? && call !in g' && ret !in g'
    ensures Moved(g, WithCall(g', v, w, call, ret, t), ren[v := w])
  {
    WithCallIs(g', v, w, call, ret, t);
    forall x | x in vs ensures Ren(ren[v := w], x) == if Ren(ren, x) == v then w else Ren(ren, x) {
      assert x in ren ==> ren[x] in ren.Values;
    }
  }

  lemma LinkedMore(fs: set<Function>, vs: set<Vertex>, g: Arcs, links: Links, ren: map<Vertex, Vertex>,
                   vs': set<Vertex>, g': Arcs, links': Links, v: Vertex, w: Vertex, call: Edge, ret: Edge, t: Vertex)
    requires EndsIn(vs, g) && CallsLinked(vs, g, links, ren, vs', g', links')
    requires v in vs && v !in ren && v !in ren.Values && w !in vs' && CallReady(fs, vs', g', v, w, call, ret, t)
    requires ren[v := w].Values == ren.Values + {w}
    requires LinksOk(fs, vs', g', links')
    ensures CallsLinked(vs, g, links, ren[v := w], vs' - {v} + {w}, WithCall(g', v, w, call, ret, t),
                        AddLink(links', w, call, ret))
  {
    hide EndsIn, Moved, FallsTo, LinksOk, OnlyCallsAdded, LinksMore, WithCall, AddLink;
    MovedMore(vs, g, ren, g', v, w, call, ret, t);
    CallsAddedMore(g, g', ren.Values, v, w, call, ret, t);
    LinksMoreThan(fs, vs', g', links, links', ren.Values, w, call, ret);
    VerticesMore(vs, ren, v, w);
  }

  lemma VerticesMore(vs: set<Vertex>, ren: map<Vertex, Vertex>, v: Vertex, w: Vertex)
    requires v !in ren.Values && ren[v := w].Values == ren.Values + {w} && (w != v)
    ensures vs - ren.Keys + ren.Values - {v} + {w} == vs - ren[v := w].Keys + ren[v := w].Values
  {
  }

  lemma CallsAddedMore(g: Arcs, g': Arcs, calls: set<Vertex>, v: Vertex, w: Vertex, call: Edge, ret: Edge, t: Vertex)
    requires OnlyCallsAdded(g, g', calls) && w.statement.CallResolved? && call !in g' && ret !in g'
    requires call.kind == FunctionCall(w) && ret.kind == Return(w)
    ensures OnlyCallsAdded(g, WithCall(g', v, w, call, ret, t), calls + {w})
  {
    hide WithCall;
    WithCallIs(g', v, w, call, ret, t);
  }

  lemma LinksMoreThan(fs: set<Function>, vs: set<Vertex>, g: Arcs, links: Links, links': Links, calls: set<Vertex>,
                      w: Vertex, call: Edge, ret: Edge)
    requires LinksOk(fs, vs, g, links') && w !in vs && LinksMore(links, links', calls)
    ensures LinksMore(links, AddLink(links', w, call, ret), calls + {w})
  {
    hide CallLinked;
    assert w !in links'.callEdge;
  }

  lemma ListedNext(infos: seq<Replacement>, ren: map<Vertex, Vertex>, k: nat, done: map<Vertex, Vertex>)
    requires Lists(infos, ren) && k < |infos| && Lists(infos[..k], done)
    ensures infos[k].call in ren && ren[infos[k].call] == infos[k].resolved && infos[k].call !in done
    ensures Lists(infos[..k + 1], done[infos[k].call := infos[k].resolved])
    ensures done.Keys <= ren.Keys && done.Values <= ren.Values && infos[k].resolved in ren.Values
  {
    assert infos[k] in infos;
    forall v | v in done ensures v in ren && v != infos[k].call && done[v] == ren[v] {
      var info :| info in infos[..k] && info.call == v;
      var i :| 0 <= i < k && infos[i] == info;
      assert infos[i] in infos;
    }
    forall x | x in done.Values ensures x in ren.Values {
      var v :| v in done && done[v] == x;
      assert ren[v] == x;
    }
    hide Lists;
    assert infos[..k + 1] == infos[..k] + [infos[k]];
    ListsMore(infos[..k], done, infos[k].call, infos[k].resolved);
  }

  lemma ReplacementIs(ren: map<Vertex, Vertex>, functionMap: map<string, Function>, done: map<Vertex, Vertex>,
                      v: Vertex)
    requires ReplacementsOk(ren, functionMap) && v in ren && done.Keys <= ren.Keys && v !in done
    requires forall u | u in done :: done[u] == ren[u]
    ensures v.statement.CallUnresolved? && Resolvable(v, functionMap)
    ensures ren[v].statement == CallResolved(functionMap[v.statement.name]) && ren[v] !in done.Values
  {
  }

  lemma AllListed(infos: seq<Replacement>, ren: map<Vertex, Vertex>, done: map<Vertex, Vertex>)
    requires Lists(infos, ren) && Lists(infos, done)
    ensures done == ren
  {
    forall v | v in ren ensures done[v] == ren[v] {
      var info :| info in infos && info.call == v;
    }
  }

  ghost function Cfgs(fs: set<Function>): set<Graph>
  {
    set f | f in fs :: f.cfg
  }

  lemma CfgIn(fs: set<Function>, f: Function)
    requires f in fs
    ensures f.cfg in Cfgs(fs)
  {
  }

  /** The graphs of the functions share no vertex. */
  ghost predicate CfgsOk(fs: set<Function>, vs: set<Vertex>)
    reads Cfgs(fs)`vertices, Cfgs(fs)`nextVertexId, vs`index
  {
    && (forall f | f in fs :: f.cfg.vertices <= vs && f.cfg.IndicesUnique())
    && (forall f, h | f in fs && h in fs && f != h :: f.cfg != h.cfg && f.cfg.vertices !! h.cfg.vertices)
  }

  lemma LinkedVertices(vs: set<Vertex>, g: Arcs, links: Links, ren: map<Vertex, Vertex>, vs': set<Vertex>, g': Arcs,
                       links': Links)
    requires CallsLinked(vs, g, links, ren, vs', g', links')
    ensures vs' == vs - ren.Keys + ren.Values && g.Keys <= g'.Keys
  {
  }

  /** The program in the middle of linking one function: the calls `done` have been replaced, by vertices that are no
      longer among the `rest`. */
  datatype LinkState = LinkState(vs: set<Vertex>, g: Arcs, links: Links, vertices: set<Vertex>,
                                 rest: set<Vertex>, done: map<Vertex, Vertex>)

  ghost predicate Midway(s0: LinkState, infos: seq<Replacement>, k: nat, functionMap: map<string, Function>,
                         ren: map<Vertex, Vertex>, s: LinkState)
  {
    && EndsIn(s0.vs, s0.g) && s0.vertices <= s0.vs && ren.Keys == ResolvableIn(s0.vertices, functionMap)
    && ReplacementsOk(ren, functionMap) && ren.Values !! s0.vs
    && k <= |infos| && Lists(infos, ren) && Lists(infos[..k], s.done)
    && s.done.Keys <= ren.Keys && s.done.Values <= ren.Values && (forall v | v in s.done :: s.done[v] == ren[v])
    && CallsLinked(s0.vs, s0.g, s0.links, s.done, s.vs, s.g, s.links)
    && s.vertices == s0.vertices - s.done.Keys + s.done.Values && s.rest == ren.Values - s.done.Values
  }

  lemma MidwayStart(s0: LinkState, infos: seq<Replacement>, functionMap: map<string, Function>,
                    ren: map<Vertex, Vertex>)
    requires EndsIn(s0.vs, s0.g) && s0.vertices <= s0.vs && ren.Keys == ResolvableIn(s0.vertices, functionMap)
    requires ReplacementsOk(ren, functionMap) && ren.Values !! s0.vs && Lists(infos, ren)
    requires s0.rest == ren.Values && s0.done == map[]
    ensures Midway(s0, infos, 0, functionMap, ren, s0)
  {
    hide CallsLinked, EndsIn, ReplacementsOk;
    NoCallsLinked(s0.vs, s0.g, s0.links);
  }

  /** The next call can be linked. */
  lemma MidwayNext(s0: LinkState, infos: seq<Replacement>, k: nat, functionMap: map<string, Function>,
                   ren: map<Vertex, Vertex>, s: LinkState)
    requires Midway(s0, infos, k, functionMap, ren, s) && k < |infos|
    ensures var v, w := infos[k].call, infos[k].resolved;
            && v in s.vertices && s.vertices <= s.vs && v.statement.CallUnresolved? && v.statement.name in functionMap
            && w in s.rest && w !in s.vs && w.statement == CallResolved(functionMap[v.statement.name])
    ensures s.rest !! s.vs && s.rest <= ren.Values && s.vs <= s0.vs + ren.Values
  {
    hide Moved, OnlyCallsAdded, LinksMore, EndsIn, Lists;
    ListedNext(infos, ren, k, s.done);
    ReplacementIs(ren, functionMap, s.done, infos[k].call);
  }

  ghost function After(s: LinkState, v: Vertex, w: Vertex, call: Edge, ret: Edge, t: Vertex): LinkState
    requires w.statement.CallResolved?
  {
    LinkState(s.vs - {v} + {w}, WithCall(s.g, v, w, call, ret, t), AddLink(s.links, w, call, ret),
              s.vertices - {v} + {w}, s.rest - {w}, s.done[v := w])
  }

  lemma MidwayOn(s0: LinkState, infos: seq<Replacement>, k: nat, functionMap: map<string, Function>,
                 ren: map<Vertex, Vertex>, s: LinkState,
                 fs: set<Function>, call: Edge, ret: Edge, t: Vertex)
    requires Midway(s0, infos, k, functionMap, ren, s) && k < |infos|
    requires CallReady(fs, s.vs, s.g, infos[k].call, infos[k].resolved, call, ret, t) && LinksOk(fs, s.vs, s.g, s.links)
    ensures infos[k].resolved.statement.CallResolved?
    ensures Midway(s0, infos, k + 1, functionMap, ren, After(s, infos[k].call, infos[k].resolved, call, ret, t))
  {
    hide CallsLinked, EndsIn, WithCall, AddLink, CallReady, LinksOk, Lists, ResolvableIn;
    var v, w := infos[k].call, infos[k].resolved;
    ListedNext(infos, ren, k, s.done);
    MidwayNext(s0, infos, k, functionMap, ren, s);
    DoneMore(ren, functionMap, s.done, v);
    assert v !in s.done.Values;
    LinkedMore(fs, s0.vs, s0.g, s0.links, s.done, s.vs, s.g, s.links, v, w, call, ret, t);
    VerticesMore(s0.vertices, s.done, v, w);
  }

  lemma DoneMore(ren: map<Vertex, Vertex>, functionMap: map<string, Function>, done: map<Vertex, Vertex>, v: Vertex)
    requires ReplacementsOk(ren, functionMap) && v in ren && done.Keys <= ren.Keys && v !in done
    requires forall u | u in done :: done[u] == ren[u]
    ensures done[v := ren[v]].Values == done.Values + {ren[v]}
  {
    hide Resolvable;
    assert ReplacementsOk(done, functionMap);
    ReplacementIs(ren, functionMap, done, v);
    ReplacementsMore(done, functionMap, v, ren[v]);
  }

  lemma MidwayEnd(s0: LinkState, infos: seq<Replacement>, functionMap: map<string, Function>, ren: map<Vertex, Vertex>,
                  s: LinkState)
    requires Midway(s0, infos, |infos|, functionMap, ren, s)
    ensures CallsLinked(s0.vs, s0.g, s0.links, ren, s.vs, s.g, s.links)
    ensures s.vertices == s0.vertices - ren.Keys + ren.Values
  {
    hide CallsLinked, Lists;
    assert infos[..|infos|] == infos;
    AllListed(infos, ren, s.done);
  }

  /** Replaces the calls that were found. */
  method ReplaceCalls(f: Function, infos: seq<Replacement>, ghost functionMap: map<string, Function>,
                      ghost ren: map<Vertex, Vertex>,
                      ghost fs: set<Function>, ghost s0: LinkState)
    returns (ghost s: LinkState)
    requires f in fs && Represents(s0.vs, s0.g) && ProgramLinked(fs, s0.vs, s0.g, s0.links) && functionMap.Values <= fs
    requires Midway(s0, infos, 0, functionMap, ren, s0) && NoEdges(s0.rest)
    requires f.cfg.vertices == s0.vertices && f.cfg.IndicesUnique()
    modifies f.cfg, Cfgs(fs)`edges, ren.Values, s0.vs`inEdges, s0.vs`outEdges, s0.g.Keys`source, s0.g.Keys`target
    ensures Represents(s.vs, s.g) && ProgramLinked(fs, s.vs, s.g, s.links)
    ensures Midway(s0, infos, |infos|, functionMap, ren, s)
    ensures forall e | e in s.g && e !in s0.g :: fresh(e) && !e.isBackEdge
    ensures f.cfg.vertices == s.vertices && f.cfg.IndicesUnique()
  {
    hide *;
    s := s0;
    var k := 0;
    while k < |infos|
      invariant k <= |infos| && Midway(s0, infos, k, functionMap, ren, s)
      invariant Represents(s.vs, s.g) && ProgramLinked(fs, s.vs, s.g, s.links)
      invariant forall e | e in s.g && e !in s0.g :: fresh(e) && !e.isBackEdge
      invariant NoEdges(s.rest) && f.cfg.vertices == s.vertices && f.cfg.IndicesUnique()
    {
      MidwayNext(s0, infos, k, functionMap, ren, s);
      s := LinkNext(f, infos, k, functionMap, ren, fs, s0, s);
      k := k + 1;
    }
  }

  method LinkNext(f: Function, infos: seq<Replacement>, k: nat, ghost functionMap: map<string, Function>,
                  ghost ren: map<Vertex, Vertex>,
                  ghost fs: set<Function>, ghost s0: LinkState, ghost s: LinkState)
    returns (ghost s': LinkState)
    requires f in fs && Represents(s.vs, s.g) && ProgramLinked(fs, s.vs, s.g, s.links) && functionMap.Values <= fs
    requires k < |infos| && Midway(s0, infos, k, functionMap, ren, s) && infos[k].resolved in s.rest
    requires NoEdges(s.rest) && s.rest !! s.vs && f.cfg.vertices == s.vertices && f.cfg.IndicesUnique()
    modifies f.cfg, Cfgs(fs)`edges, infos[k].resolved, s.vs`inEdges, s.vs`outEdges, s.g.Keys`source, s.g.Keys`target
    ensures Represents(s'.vs, s'.g) && ProgramLinked(fs, s'.vs, s'.g, s'.links)
    ensures Midway(s0, infos, k + 1, functionMap, ren, s') && s.g.Keys <= s'.g.Keys
    ensures forall e | e in s'.g && e !in s.g :: fresh(e) && !e.isBackEdge
    ensures NoEdges(s'.rest) && f.cfg.vertices == s'.vertices && f.cfg.IndicesUnique()
  {
    hide *;
    var v, w := infos[k].call, infos[k].resolved;
    MidwayNext(s0, infos, k, functionMap, ren, s);
    NoEdgesOf(s.rest, w);
    NoEdgesBut(s.rest, w);
    LinkedParts(fs, s.vs, s.g, s.links);
    CfgIn(fs, w.statement.target);
    ghost var call, ret, t := LinkCall(f, v, w, fs, s.vs, s.g, s.links);
    s' := NextState(s0, infos, k, functionMap, ren, s, fs, call, ret, t);
  }

  lemma NextState(s0: LinkState, infos: seq<Replacement>, k: nat, functionMap: map<string, Function>,
                  ren: map<Vertex, Vertex>, s: LinkState,
                  fs: set<Function>, call: Edge, ret: Edge, t: Vertex)
    returns (s': LinkState)
    requires Midway(s0, infos, k, functionMap, ren, s) && k < |infos|
    requires CallReady(fs, s.vs, s.g, infos[k].call, infos[k].resolved, call, ret, t) && LinksOk(fs, s.vs, s.g, s.links)
    ensures Midway(s0, infos, k + 1, functionMap, ren, s') && infos[k].resolved.statement.CallResolved?
    ensures var v, w := infos[k].call, infos[k].resolved;
            && s'.vs == s.vs - {v} + {w} && s'.g == WithCall(s.g, v, w, call, ret, t)
            && s'.links == AddLink(s.links, w, call, ret)
            && s'.vertices == s.vertices - {v} + {w} && s'.rest == s.rest - {w}
    ensures forall e | e in s'.g :: e in s.g || e == call || e == ret
    ensures forall e | e in s.g :: e in s'.g
  {
    hide Midway, CallReady, LinksOk, WithCall, AddLink;
    MidwayOn(s0, infos, k, functionMap, ren, s, fs, call, ret, t);
    CallReadyMeans(fs, s.vs, s.g, infos[k].call, infos[k].resolved, call, ret, t);
    WithCallIs(s.g, infos[k].call, infos[k].resolved, call, ret, t);
    s' := After(s, infos[k].call, infos[k].resolved, call, ret, t);
  }

  lemma CallReadyMeans(fs: set<Function>, vs: set<Vertex>, g: Arcs, v: Vertex, w: Vertex, call: Edge, ret: Edge,
                       t: Vertex)
    requires CallReady(fs, vs, g, v, w, call, ret, t)
    ensures w.statement.CallResolved? && call !in g && ret !in g
  {
  }

  lemma NoEdgesOf(vertices: set<Vertex>, w: Vertex)
    requires NoEdges(vertices) && w in vertices
    ensures w.inEdges == {} && w.outEdges == {}
  {
  }

  lemma NoEdgesBut(vertices: set<Vertex>, w: Vertex)
    ensures NoEdges(vertices) ==> NoEdges(vertices - {w})
  {
  }

  ghost function VertexSets(fs: set<Function>): map<Function, set<Vertex>>
    reads Cfgs(fs)`vertices
  {
    map h | h in fs :: h.cfg.vertices
  }

  /** The functions have the vertices of `lists` still. */
  ghost predicate SameVertices(fs: set<Function>, lists: map<Function, set<Vertex>>)
    reads Cfgs(fs)`vertices
  {
    forall h | h in fs :: h in lists && h.cfg.vertices == lists[h]
  }

  ghost predicate Disjoint(fs: set<Function>, lists: map<Function, set<Vertex>>, vs: set<Vertex>)
    requires lists.Keys == fs
  {
    && (forall h | h in fs :: lists[h] <= vs)
    && (forall h, i | h in fs && i in fs && h != i :: h.cfg != i.cfg && lists[h] !! lists[i])
  }

  lemma CfgsParts(fs: set<Function>, vs: set<Vertex>, f: Function, others: set<Function>)
    requires CfgsOk(fs, vs) && f in fs && others == fs - {f}
    ensures VertexSets(fs).Keys == fs && VertexSets(fs)[f] == f.cfg.vertices && Disjoint(fs, VertexSets(fs), vs)
    ensures f.cfg.vertices <= vs && f.cfg.IndicesUnique() && AllUnique(others, vs)
    ensures SameVertices(others, VertexSets(fs)) && f.cfg !in Cfgs(others)
  {
  }

  ghost predicate AllUnique(fs: set<Function>, vs: set<Vertex>)
    reads Cfgs(fs)`vertices, Cfgs(fs)`nextVertexId, vs`index
  {
    forall f | f in fs :: f.cfg.vertices <= vs && f.cfg.IndicesUnique()
  }

  lemma CfgsStay(fs: set<Function>, f: Function, others: set<Function>, lists: map<Function, set<Vertex>>,
                 vs: set<Vertex>, ren: map<Vertex, Vertex>, vs': set<Vertex>)
    requires f in fs && others == fs - {f} && lists.Keys == fs && SameVertices(others, lists) && Disjoint(fs, lists, vs)
    requires vs' == vs - ren.Keys + ren.Values && ren.Keys <= lists[f] && ren.Values !! vs
    requires f.cfg.vertices == lists[f] - ren.Keys + ren.Values && f.cfg.IndicesUnique() && AllUnique(others, vs)
    ensures CfgsOk(fs, vs')
  {
    forall h | h in fs ensures h.cfg.vertices <= vs' && h.cfg.IndicesUnique() {
      assert h != f ==> h in others && lists[h] !! lists[f];
    }
    hide AllUnique;
  }

  /** Links the calls of `f`. The new calls take the place of old ones, which are deleted and no edge mentions any
      more; every edge stays, with the replaced ends replaced; and each new call has its two edges. */
  method Link(f: Function, functionMap: map<string, Function>, ghost fs: set<Function>, ghost vs: set<Vertex>,
              ghost g: Arcs, ghost links: Links)
    returns (unresolved: set<Vertex>, ghost vs': set<Vertex>, ghost g': Arcs, ghost links': Links,
             ghost ren: map<Vertex, Vertex>)
    requires f in fs && Represents(vs, g) && ProgramLinked(fs, vs, g, links) && CfgsOk(fs, vs)
    requires functionMap.Values <= fs
    modifies f.cfg, Cfgs(fs)`edges, vs`inEdges, vs`outEdges, g.Keys`source, g.Keys`target
    ensures Represents(vs', g') && ProgramLinked(fs, vs', g', links') && CfgsOk(fs, vs')
    ensures CallsLinked(vs, g, links, ren, vs', g', links')
    ensures ren.Keys == ResolvableIn(old(f.cfg.vertices), functionMap) && ReplacementsOk(ren, functionMap)
    ensures fresh(ren.Values)
    ensures f.cfg.vertices == old(f.cfg.vertices) - ren.Keys + ren.Values
    ensures forall e | e in g' && e !in g :: fresh(e) && !e.isBackEdge
    ensures unresolved ==
              set v | v in old(f.cfg.vertices) && v.statement.CallUnresolved? && v.statement.name !in functionMap
  {
    hide Represents, ProgramLinked, CfgsOk, CallsLinked, ReplacementsOk, ResolvableIn, Midway, Lists, NoEdges;
    hide VertexSets, SameVertices, AllUnique, Disjoint, Graph.IndicesUnique;
    var infos;
    ghost var lists := VertexSets(fs);
    ghost var others := fs - {f};
    CfgsParts(fs, vs, f, others);
    infos, unresolved, ren := FindCalls(f.cfg.vertices, functionMap);
    ghost var s0 := LinkState(vs, g, links, f.cfg.vertices, ren.Values, map[]);
    LinkedParts(fs, vs, g, links);
    MidwayStart(s0, infos, functionMap, ren);
    ghost var s := ReplaceCalls(f, infos, functionMap, ren, fs, s0);
    LinkEnd(s0, infos, functionMap, ren, s);
    vs', g', links' := s.vs, s.g, s.links;
    CfgsStay(fs, f, others, lists, vs, ren, vs');
  }

  lemma LinkEnd(s0: LinkState, infos: seq<Replacement>, functionMap: map<string, Function>, ren: map<Vertex, Vertex>,
                s: LinkState)
    requires Midway(s0, infos, |infos|, functionMap, ren, s) && ren.Keys == ResolvableIn(s0.vertices, functionMap)
    ensures CallsLinked(s0.vs, s0.g, s0.links, ren, s.vs, s.g, s.links)
    ensures s.vertices == s0.vertices - ren.Keys + ren.Values && s.vs == s0.vs - ren.Keys + ren.Values
    ensures ren.Keys <= s0.vertices
  {
    hide *;
    MidwayEnd(s0, infos, functionMap, ren, s);
    LinkedVertices(s0.vs, s0.g, s0.links, ren, s.vs, s.g, s.links);
    ResolvableAmong(s0.vertices, functionMap);
  }

  lemma ResolvableAmong(vertices: set<Vertex>, functionMap: map<string, Function>)
    ensures ResolvableIn(vertices, functionMap) <= vertices
  {
  }
}
