/** Whole programs: functions are created one by one, then linked, in any order; and what the reachability rule
    then says about them. */
module LinkedPrograms {
  import opened Walks
  import opened Graphs
  import opened Programs
  import opened Construction
  import opened Resolution
  import opened Creation
  import opened Contraction
  import opened CfgAlgs
  import opened ControlFlowGraphs
  import opened Meaning
  import opened Traversals
  import opened Reachability
  import opened Entries
  import opened Linking

  // ----- A new function joins the program -----

  /** Statement lists contain no resolved calls: only linking makes them. */
  predicate NoResolvedCalls(prog: Program)
  {
    forall s | s in prog :: !s.CallResolved?
  }

  lemma NoEndsOutside(vs: set<Vertex>, g: Arcs, v: Vertex)
    requires EndsIn(vs, g) && v !in vs
    ensures In(g, v) == {} && Out(g, v) == {}
  {
  }

  lemma InJoined(g: Arcs, h: Arcs, v: Vertex)
    requires g.Keys !! h.Keys
    ensures In(g + h, v) == In(g, v) + In(h, v)
  {
  }

  /** Only jumps leave the list when they are replaced. */
  lemma StaysOrIsJump(r: Record, q: nat)
    requires Created(r) && q < |r.orig|
    ensures r.orig[q] in r.c.at || r.orig[q].statement.IsFlowControlUnlinked()
  {
    hide WellMarked, Contracted, OneWayIn, DegreesKept, Ways, Built, Complete, LeftWithoutWayIn;
    assert r.c.at[q] in r.c.at;
  }

  lemma CallPlace(r: Record, p: nat)
    requires Created(r) && p < |r.c.at| && r.c.at[p].statement.CallUnresolved?
    ensures 0 < p <= |r.c.prog| && !IsFlow(r.c.prog, p)
  {
    hide *;
    CreatedDrawn(r);
    DrawnLinked(r.c, r.orig, r.drawn, r.entrySelf, r.exitSelf);
    ReplacedJump(r, p);
    ResolvedIsJump(r.c.prog, p, r.c.at[p].statement);
  }

  lemma ResolvedIsJump(prog: Program, p: nat, s: Statement)
    requires 0 < p <= |prog| && s.CallUnresolved? && (prog[p - 1] == s || s == Resolved(prog[p - 1]))
    ensures !IsFlow(prog, p)
  {
  }

  ghost predicate NoJumpAt(c: Building, p: nat, v: Vertex)
  {
    0 < p <= |c.prog| && p < |c.at| && c.at[p] == v && !IsFlow(c.prog, p)
  }

  lemma CallUnresolvedPlace(r: Record, v: Vertex) returns (p: nat)
    requires v in Elements(r.orig) + Elements(r.c.at) && v.statement.CallUnresolved? && Created(r)
    ensures NoJumpAt(r.c, p, v)
  {
    hide Created;
    forall q: nat | q < |r.orig| && r.orig[q] == v ensures v in r.c.at {
      StaysOrIsJump(r, q);
    }
    p :| p < |r.c.at| && r.c.at[p] == v;
    CallPlace(r, p);
  }

  lemma FallthroughThere(r: Record, v: Vertex)
    requires Created(r) && v in Elements(r.orig) + Elements(r.c.at) && v.statement.CallUnresolved?
    ensures exists e :: e in r.final && e.kind == Fallthrough && r.final[e].src == v
  {
    hide *;
    var p := CallUnresolvedPlace(r, v);
    NoJumpMeans(r.c, p, v);
    CreatedDrawn(r);
    ProxiedSolid(r);
    PlainWay(r.c.prog, p);
    var e := WayOut(r.c, p, 0);
    WaysHaveKinds(r.c, e);
    SolidArcsOf(r.proxied, r.c.g, e);
    StandsForFallthrough(r.c, e, p);
    CallNeverRedundant(r.proxied, Elements(r.c.at), v);
    SurvivingEdges(r.proxied, r.final, r.gone, r.chain);
  }

  lemma NoJumpMeans(c: Building, p: nat, v: Vertex)
    ensures NoJumpAt(c, p, v) <==> 0 < p <= |c.prog| && p < |c.at| && c.at[p] == v && !IsFlow(c.prog, p)
  {
  }

  lemma PlainWay(prog: Program, p: nat)
    requires p <= |prog| && !IsFlow(prog, p)
    ensures Ways(prog, p) == [Way(Fallthrough, p + 1)]
  {
  }

  lemma StandsForFallthrough(c: Building, e: Edge, p: nat)
    requires StandsFor(c, e) && e in c.slots && c.slots[e] == Slot(p, 0) && p <= |c.prog|
    requires Ways(c.prog, p) == [Way(Fallthrough, p + 1)]
    ensures e.kind == Fallthrough
  {
  }

  lemma CallNeverRedundant(g: Arcs, vertices: set<Vertex>, v: Vertex)
    requires v.statement.CallUnresolved?
    ensures v !in RedundantIn(g, vertices)
  {
  }

  lemma NoneResolved(r: Record, v: Vertex)
    requires Created(r) && NoResolvedCalls(r.c.prog) && v in Elements(r.orig) + Elements(r.c.at)
    ensures !v.statement.CallResolved?
  {
    hide WellMarked, Contracted, OneWayIn, DegreesKept, Ways, Built, Complete, LeftWithoutWayIn;
    if v in r.c.at {
      var p :| 0 <= p < |r.c.at| && r.c.at[p] == v;
      if 0 < p <= |r.c.prog| {
        ReplacedJump(r, p);
        assert r.c.prog[p - 1] in r.c.prog;
      }
    } else {
      var p :| 0 <= p < |r.orig| && r.orig[p] == v;
      assert 0 < p <= |r.c.prog| && r.c.prog[p - 1] in r.c.prog;
    }
  }

  /** The new function and its vertices, none of which is part of the program yet. */
  ghost predicate IsNew(fs: set<Function>, vs: set<Vertex>, g: Arcs, f: Function, vs1: set<Vertex>, r: Record)
  {
    && Created(r) && NoResolvedCalls(r.c.prog) && f !in fs
    && f.entry == r.c.at[0] && f.exit == r.c.at[|r.c.at| - 1] && f.entrySelfEdge == r.entrySelf
    && f.entry in vs1 && f.exit in vs1 && EndsIn(vs1, r.final) && vs1 <= Elements(r.orig) + Elements(r.c.at)
    && vs !! vs1 && g.Keys !! r.final.Keys
  }

  lemma NewMeans(fs: set<Function>, vs: set<Vertex>, g: Arcs, f: Function, vs1: set<Vertex>, r: Record)
    requires IsNew(fs, vs, g, f, vs1, r)
    ensures Created(r) && NoResolvedCalls(r.c.prog) && f !in fs && vs !! vs1 && g.Keys !! r.final.Keys
    ensures f.entry in vs1 && f.exit in vs1 && f.entry.statement == Entry && f.exit.statement == Exit
    ensures EndsIn(vs1, r.final) && vs1 <= Elements(r.orig) + Elements(r.c.at)
    ensures f.entry == r.c.at[0] && f.entrySelfEdge == r.entrySelf
    ensures In(r.final, f.entry) == {f.entrySelfEdge} && f.entrySelfEdge in r.final
    ensures f.entrySelfEdge.kind == Impossible
  {
    hide Drawn, WellMarked, Contracted, OneWayIn, DegreesKept;
    EntryOnlySelfEdge(r);
  }

  lemma FunctionsJoin(fs: set<Function>, vs: set<Vertex>, g: Arcs, f: Function, vs1: set<Vertex>, r: Record)
    requires FunctionsOk(fs, vs, g) && IsNew(fs, vs, g, f, vs1, r)
    ensures FunctionsOk(fs + {f}, vs + vs1, g + r.final)
  {
    hide IsNew, Created, NoResolvedCalls;
    NewMeans(fs, vs, g, f, vs1, r);
  }

  lemma FallsToMore(g: Arcs, h: Arcs, c: Vertex, t: Vertex)
    requires g.Keys !! h.Keys && FallsTo(g, c, t)
    ensures FallsTo(g + h, c, t)
  {
    var e :| e in g && e.kind == Fallthrough && g[e] == Arc(c, t);
    assert (g + h)[e] == g[e];
  }

  lemma CallStillLinked(g: Arcs, h: Arcs, links: Links, c: Vertex)
    requires g.Keys !! h.Keys && c.statement.CallResolved? && CallLinked(g, links, c)
    ensures CallLinked(g + h, links, c)
  {
    FallsToMore(g, h, c, g[links.returnEdge[c]].dst);
  }

  lemma LinksJoin(fs: set<Function>, vs: set<Vertex>, g: Arcs, links: Links, f: Function, vs1: set<Vertex>, r: Record)
    requires LinksOk(fs, vs, g, links) && IsNew(fs, vs, g, f, vs1, r)
    ensures LinksOk(fs + {f}, vs + vs1, g + r.final, links)
  {
    hide IsNew, Created, NoResolvedCalls, CallLinked;
    NewMeans(fs, vs, g, f, vs1, r);
    forall v | v in vs1 ensures !v.statement.CallResolved? {
      NoneResolved(r, v);
    }
    forall e | e in r.final ensures !e.kind.FunctionCall? && !e.kind.Return? {
      NewEdgeKinds(r, e);
    }
    forall c | c in links.callEdge ensures CallLinked(g + r.final, links, c) {
      CallStillLinked(g, r.final, links, c);
    }
  }

  lemma EntriesJoin(fs: set<Function>, vs: set<Vertex>, g: Arcs, links: Links, f: Function, vs1: set<Vertex>, r: Record)
    requires FunctionsOk(fs, vs, g) && LinksOk(fs, vs, g, links) && EntriesOk(fs, g, links) && EndsIn(vs, g)
    requires IsNew(fs, vs, g, f, vs1, r)
    ensures EntriesOk(fs + {f}, g + r.final, links)
  {
    hide IsNew, Created, NoResolvedCalls, EndsIn;
    NewMeans(fs, vs, g, f, vs1, r);
    assert CallEdgesTo(links, f) == {};
    forall h | h in fs + {f} ensures In(g + r.final, h.entry) == {h.entrySelfEdge} + CallEdgesTo(links, h) {
      InJoined(g, r.final, h.entry);
      if h == f {
        NoEndsOutside(vs, g, f.entry);
      } else {
        NoEndsOutside(vs1, r.final, h.entry);
      }
    }
  }

  lemma UnresolvedJoin(fs: set<Function>, vs: set<Vertex>, g: Arcs, f: Function, vs1: set<Vertex>, r: Record)
    requires UnresolvedOk(vs, g) && IsNew(fs, vs, g, f, vs1, r)
    ensures UnresolvedOk(vs + vs1, g + r.final)
  {
    hide IsNew, Created, NoResolvedCalls;
    NewMeans(fs, vs, g, f, vs1, r);
    var h := g + r.final;
    forall v | v in vs + vs1 && v.statement.CallUnresolved?
      ensures exists e :: e in h && e.kind == Fallthrough && h[e].src == v
    {
      if v in vs {
        var e :| e in g && e.kind == Fallthrough && g[e].src == v;
        assert h[e] == g[e];
      } else {
        FallthroughThere(r, v);
        var e :| e in r.final && e.kind == Fallthrough && r.final[e].src == v;
        assert h[e] == r.final[e];
      }
    }
  }

  lemma EndsJoin(vs: set<Vertex>, g: Arcs, vs1: set<Vertex>, h: Arcs)
    requires EndsIn(vs, g) && EndsIn(vs1, h)
    ensures EndsIn(vs + vs1, g + h)
  {
  }

  /** A new function joins a linked program: it stays linked, and nobody calls the new function yet. */
  lemma FunctionJoins(fs: set<Function>, vs: set<Vertex>, g: Arcs, links: Links, f: Function, vs1: set<Vertex>,
                      r: Record)
    requires ProgramLinked(fs, vs, g, links) && IsNew(fs, vs, g, f, vs1, r)
    ensures ProgramLinked(fs + {f}, vs + vs1, g + r.final, links)
    ensures CallsTo(links, f) == {}
  {
    hide FunctionsOk, LinksOk, EntriesOk, UnresolvedOk, EndsIn, IsNew, Created;
    NewMeans(fs, vs, g, f, vs1, r);
    EndsJoin(vs, g, vs1, r.final);
    FunctionsJoin(fs, vs, g, f, vs1, r);
    LinksJoin(fs, vs, g, links, f, vs1, r);
    EntriesJoin(fs, vs, g, links, f, vs1, r);
    UnresolvedJoin(fs, vs, g, f, vs1, r);
    NotCalledYet(fs, vs, g, links, f);
  }

  lemma NotCalledYet(fs: set<Function>, vs: set<Vertex>, g: Arcs, links: Links, f: Function)
    requires LinksOk(fs, vs, g, links) && f !in fs
    ensures CallsTo(links, f) == {}
  {
  }

  // ----- Marks -----

  /** The marked edges are no calls, and include the self edges of the entries. */
  ghost predicate MarksOk(fs: set<Function>, g: Arcs, back: set<Edge>)
  {
    && back <= g.Keys && (forall e | e in back :: !e.kind.FunctionCall?)
    && (forall f | f in fs :: f.entrySelfEdge in back)
  }

  /** Leaving out the marked edges makes nothing unreachable from any entry within its function. */
  ghost predicate NothingLost(fs: set<Function>, g: Arcs, back: set<Edge>)
  {
    forall f | f in fs :: MarksLoseNothing(g, back, f.entry)
  }

  function Inside(g: Arcs, back: set<Edge>): Arcs
  {
    WithoutCalls(FollowedArcs(g, back))
  }

  lemma InsideJoined(g: Arcs, h: Arcs, back: set<Edge>, back1: set<Edge>)
    requires g.Keys !! h.Keys && back <= g.Keys && back1 <= h.Keys
    ensures Inside(g + h, back + back1) == Inside(g, back) + Inside(h, back1)
    ensures Inside(g, back).Keys <= g.Keys && Inside(h, back1).Keys <= h.Keys
  {
  }

  lemma InsideEnds(vs: set<Vertex>, g: Arcs, back: set<Edge>)
    requires EndsIn(vs, g)
    ensures EndsIn(vs, Inside(g, back))
  {
  }

  /** A walk that starts in one part of a graph that falls into two stays there. */
  lemma {:induction false} WalkInPart(a: Arcs, b: Arcs, vs: set<Vertex>, vs1: set<Vertex>, s: Vertex, p: seq<Edge>,
                                      t: Vertex)
    requires a.Keys !! b.Keys && EndsIn(vs, a) && EndsIn(vs1, b) && vs !! vs1 && s in vs
    ensures IsWalk(a + b, s, p, t) <==> IsWalk(a, s, p, t)
  {
    if p != [] {
      var e := p[0];
      if e in a {
        WalkInPart(a, b, vs, vs1, a[e].dst, p[1..], t);
      }
    }
  }

  lemma ReachesInPart(a: Arcs, b: Arcs, vs: set<Vertex>, vs1: set<Vertex>, s: Vertex, t: Vertex)
    requires a.Keys !! b.Keys && EndsIn(vs, a) && EndsIn(vs1, b) && vs !! vs1 && s in vs
    ensures Reaches(a + b, s, t) <==> Reaches(a, s, t)
    ensures Reaches(a, s, t) ==> t in vs
  {
    hide IsWalk, EndsIn;
    if Reaches(a + b, s, t) {
      var p := WalkOf(a + b, s, t);
      WalkInPart(a, b, vs, vs1, s, p, t);
    }
    if Reaches(a, s, t) {
      var p := WalkOf(a, s, t);
      WalkInPart(a, b, vs, vs1, s, p, t);
      EndsClosed(vs, a);
      ClosedReaches(a, vs, s, t);
    }
  }

  lemma EndsClosed(vs: set<Vertex>, g: Arcs)
    requires EndsIn(vs, g)
    ensures Closed(g, vs)
  {
  }

  lemma LoseNothingInPart(g: Arcs, h: Arcs, back: set<Edge>, back1: set<Edge>, vs: set<Vertex>, vs1: set<Vertex>,
                          entry: Vertex)
    requires g.Keys !! h.Keys && back <= g.Keys && back1 <= h.Keys
    requires EndsIn(vs, g) && EndsIn(vs1, h) && vs !! vs1 && entry in vs
    requires MarksLoseNothing(g, back, entry)
    ensures MarksLoseNothing(g + h, back + back1, entry)
  {
    hide EndsIn, Reaches, WithoutCalls, FollowedArcs;
    InsideJoined(g, h, back, back1);
    InsideEnds(vs, g, back);
    InsideEnds(vs1, h, back1);
    var a, b := Inside(g, back), Inside(h, back1);
    forall e | e in g + h && Possible(e) && !e.kind.FunctionCall? && Reaches(a + b, entry, (g + h)[e].src)
      ensures Reaches(a + b, entry, (g + h)[e].dst)
    {
      ReachesInPart(a, b, vs, vs1, entry, (g + h)[e].src);
      ReachesInPart(a, b, vs, vs1, entry, (g + h)[e].dst);
      EndOf(vs1, h, e);
    }
  }

  lemma EndOf(vs: set<Vertex>, g: Arcs, e: Edge)
    requires EndsIn(vs, g)
    ensures e in g ==> g[e].src in vs && g[e].dst in vs
  {
  }

  lemma MarkedThere(g: Arcs, back: set<Edge>, entry: Vertex)
    requires MarksLoseNothing(g, back, entry)
    ensures MarksLoseNothing(g, back * g.Keys, entry)
  {
    assert FollowedArcs(g, back * g.Keys) == FollowedArcs(g, back);
  }

  lemma JoinedTheOtherWay(g: Arcs, h: Arcs, back: set<Edge>, back1: set<Edge>)
    requires g.Keys !! h.Keys
    ensures g + h == h + g && back + back1 == back1 + back
  {
  }

  lemma MarksJoin(fs: set<Function>, vs: set<Vertex>, g: Arcs, back: set<Edge>, f: Function, vs1: set<Vertex>,
                  r: Record)
    requires MarksOk(fs, g, back) && IsNew(fs, vs, g, f, vs1, r)
    ensures MarksOk(fs + {f}, g + r.final, back + r.marked * r.final.Keys)
  {
    hide EndsIn, IsNew, Created, NoResolvedCalls;
    NewMeans(fs, vs, g, f, vs1, r);
    EntryOnlySelfEdge(r);
    var back1 := r.marked * r.final.Keys;
    forall e | e in back1 ensures !e.kind.FunctionCall? {
      NewEdgeKinds(r, e);
    }
  }

  /** A function in which nothing is hidden behind a jump without its label joins a program. */
  lemma NothingLostJoin(fs: set<Function>, vs: set<Vertex>, g: Arcs, back: set<Edge>, f: Function, vs1: set<Vertex>,
                        r: Record)
    requires EndsIn(vs, g) && FunctionsOk(fs, vs, g) && back <= g.Keys && NothingLost(fs, g, back)
    requires IsNew(fs, vs, g, f, vs1, r) && NothingHidden(r.c.prog)
    ensures NothingLost(fs + {f}, g + r.final, back + r.marked * r.final.Keys)
  {
    hide EndsIn, IsNew, Created, NothingHidden, NoResolvedCalls, MarksLoseNothing;
    NewMeans(fs, vs, g, f, vs1, r);
    MarksLoseNothingHere(r);
    MarkedThere(r.final, r.marked, f.entry);
    var back1 := r.marked * r.final.Keys;
    LoseNothingInPart(r.final, g, back1, back, vs1, vs, f.entry);
    JoinedTheOtherWay(g, r.final, back, back1);
    forall h | h in fs + {f} ensures MarksLoseNothing(g + r.final, back + back1, h.entry) {
      if h != f {
        LoseNothingInPart(g, r.final, back, back1, vs, vs1, h.entry);
      }
    }
  }

  // ----- Linking keeps what the marks leave reachable -----

  ghost predicate OneToOne(ren: map<Vertex, Vertex>, vs: set<Vertex>)
  {
    ren.Values !! vs && forall u, v | u in ren && v in ren && u != v :: ren[u] != ren[v]
  }

  lemma RenInjective(ren: map<Vertex, Vertex>, vs: set<Vertex>, u: Vertex, v: Vertex)
    requires OneToOne(ren, vs) && u in vs && v in vs
    ensures Ren(ren, u) == Ren(ren, v) <==> u == v
  {
    assert u in ren ==> ren[u] in ren.Values;
    assert v in ren ==> ren[v] in ren.Values;
  }

  /** The same edges, with the ends renamed. */
  ghost predicate SameRenamed(g: Arcs, h: Arcs, ren: map<Vertex, Vertex>)
  {
    g.Keys == h.Keys && forall e | e in g :: h[e] == Arc(Ren(ren, g[e].src), Ren(ren, g[e].dst))
  }

  lemma {:induction false} RenWalk(g: Arcs, h: Arcs, ren: map<Vertex, Vertex>, vs: set<Vertex>, s: Vertex,
                                   p: seq<Edge>, t: Vertex)
    requires SameRenamed(g, h, ren) && OneToOne(ren, vs) && EndsIn(vs, g) && s in vs && t in vs
    ensures IsWalk(h, Ren(ren, s), p, Ren(ren, t)) <==> IsWalk(g, s, p, t)
  {
    hide OneToOne;
    if p == [] {
      RenInjective(ren, vs, s, t);
    } else if p[0] in g {
      RenInjective(ren, vs, s, g[p[0]].src);
      RenWalk(g, h, ren, vs, g[p[0]].dst, p[1..], t);
    }
  }

  lemma RenReaches(g: Arcs, h: Arcs, ren: map<Vertex, Vertex>, vs: set<Vertex>, s: Vertex, t: Vertex)
    requires SameRenamed(g, h, ren) && OneToOne(ren, vs) && EndsIn(vs, g) && s in vs && t in vs
    ensures Reaches(h, Ren(ren, s), Ren(ren, t)) <==> Reaches(g, s, t)
  {
    hide IsWalk, SameRenamed, OneToOne, EndsIn;
    if Reaches(h, Ren(ren, s), Ren(ren, t)) {
      var p := WalkOf(h, Ren(ren, s), Ren(ren, t));
      RenWalk(g, h, ren, vs, s, p, t);
    }
    if Reaches(g, s, t) {
      var p := WalkOf(g, s, t);
      RenWalk(g, h, ren, vs, s, p, t);
    }
  }

  lemma InsideRenamed(g: Arcs, g': Arcs, ren: map<Vertex, Vertex>, back: set<Edge>)
    requires Moved(g, g', ren) && OnlyCallsAdded(g, g', ren.Values)
    ensures SameRenamed(Inside(g, back), Inside(g', back), ren)
  {
  }

  lemma MovedEnds(g: Arcs, g': Arcs, ren: map<Vertex, Vertex>, e: Edge)
    requires Moved(g, g', ren) && OnlyCallsAdded(g, g', ren.Values) && e in g' && Possible(e) && !e.kind.FunctionCall?
    ensures e in g && g'[e] == Arc(Ren(ren, g[e].src), Ren(ren, g[e].dst))
  {
  }

  lemma LoseNothingLinked(vs: set<Vertex>, g: Arcs, g': Arcs, ren: map<Vertex, Vertex>, back: set<Edge>, entry: Vertex)
    requires EndsIn(vs, g) && Moved(g, g', ren) && OnlyCallsAdded(g, g', ren.Values) && OneToOne(ren, vs)
    requires entry in vs && entry !in ren && MarksLoseNothing(g, back, entry)
    ensures MarksLoseNothing(g', back, entry)
  {
    hide Moved, OnlyCallsAdded, OneToOne, EndsIn, Reaches, WithoutCalls, FollowedArcs, SameRenamed, Possible;
    InsideRenamed(g, g', ren, back);
    InsideEnds(vs, g, back);
    forall e | e in g' && Possible(e) && !e.kind.FunctionCall? && Reaches(Inside(g', back), entry, g'[e].src)
      ensures Reaches(Inside(g', back), entry, g'[e].dst)
    {
      MovedEnds(g, g', ren, e);
      EndOf(vs, g, e);
      RenReaches(Inside(g, back), Inside(g', back), ren, vs, entry, g[e].src);
      RenReaches(Inside(g, back), Inside(g', back), ren, vs, entry, g[e].dst);
    }
  }

  /** Linking a function takes nothing away from what the marks leave reachable, in any function. */
  lemma NothingLostLinked(fs: set<Function>, vs: set<Vertex>, g: Arcs, links: Links, functionMap: map<string, Function>,
                          ren: map<Vertex, Vertex>, vs': set<Vertex>, g': Arcs, links': Links, back: set<Edge>)
    requires ProgramLinked(fs, vs, g, links) && NothingLost(fs, g, back)
    requires CallsLinked(vs, g, links, ren, vs', g', links') && ReplacementsOk(ren, functionMap) && ren.Values !! vs
    ensures NothingLost(fs, g', back)
  {
    hide ProgramLinked, MarksLoseNothing, Moved, OnlyCallsAdded, LinksMore, Resolvable;
    LinkedParts(fs, vs, g, links);
    forall f | f in fs ensures MarksLoseNothing(g', back, f.entry) {
      NeverReplaced(ren, functionMap, f.entry);
      LoseNothingLinked(vs, g, g', ren, back, f.entry);
    }
  }

  lemma NeverReplaced(ren: map<Vertex, Vertex>, functionMap: map<string, Function>, v: Vertex)
    requires ReplacementsOk(ren, functionMap) && !v.statement.CallUnresolved?
    ensures v !in ren
  {
  }

  // ----- The verdict on a linked program -----

  ghost function EntriesOf(fs: set<Function>): set<Vertex>
  {
    set f | f in fs :: f.entry
  }

  lemma CallsMatch(fs: set<Function>, vs: set<Vertex>, g: Arcs, links: Links, back: set<Edge>)
    requires ProgramLinked(fs, vs, g, links) && MarksOk(fs, g, back)
    ensures CallsAndReturnsMatch(g, back, EntriesOf(fs))
  {
    hide FunctionsOk, EntriesOk, UnresolvedOk, EndsIn, FallsTo;
    forall e | e in g && e.kind.FunctionCall?
      ensures e.kind.call == g[e].src && g[e].src.statement.CallResolved? && g[e].dst in EntriesOf(fs)
    {
      assert CallLinked(g, links, e.kind.call);
    }
    forall e | e in g && e.kind.Return? ensures ReturnsToFallthrough(g, e) {
      assert CallLinked(g, links, e.kind.call);
      FallsToIs(g, e.kind.call, g[e].dst);
    }
  }

  lemma FallsToIs(g: Arcs, c: Vertex, t: Vertex)
    requires FallsTo(g, c, t)
    ensures exists f :: f in g && f.kind.Fallthrough? && g[f] == Arc(c, t)
  {
  }

  lemma EntryOnlyCalled(fs: set<Function>, vs: set<Vertex>, g: Arcs, links: Links, back: set<Edge>, f: Function)
    requires ProgramLinked(fs, vs, g, links) && MarksOk(fs, g, back) && f in fs
    ensures OnlyCalled(g, back, f.entry)
  {
    hide LinksOk, FunctionsOk, UnresolvedOk, EndsIn, CallEdgesTo, EntriesOk;
    forall e | e in g && g[e].dst == f.entry && Usable(e, back) ensures e.kind.FunctionCall? {
      IntoEntry(fs, vs, g, links, f, e);
    }
  }

  /** On a linked program the rule's verdict, whether the source's ENTRY reaches the sink's over the edges that a
      traversal follows, is what can be reached over all edges that enter a call or step over it: following returns
      adds nothing, and where nothing is lost, leaving out the marked back edges takes nothing away. */
  lemma VerdictOnLinkedProgram(fs: set<Function>, vs: set<Vertex>, g: Arcs, links: Links, back: set<Edge>,
                               source: Function, sink: Function)
    requires ProgramLinked(fs, vs, g, links) && MarksOk(fs, g, back) && NothingLost(fs, g, back)
    requires source in fs && sink in fs
    ensures CallsLeaveTheirVertex(g) && ReturnsCovered(g, back, source.entry) && OnlyCalled(g, back, sink.entry)
    ensures Reaches(FollowedArcs(g, back), source.entry, sink.entry) <==>
              Reaches(PossibleArcs(g), source.entry, sink.entry)
  {
    hide ProgramLinked, MarksOk, MarksLoseNothing, Reaches;
    CallsMatch(fs, vs, g, links, back);
    EntryOnlyCalled(fs, vs, g, links, back, sink);
    assert ProgramOk(g, back, EntriesOf(fs));
    hide ReturnsCovered, CallsLeaveTheirVertex, NothingLost;
    VerdictIsExact(g, back, EntriesOf(fs), source.entry, sink.entry);
  }
}
