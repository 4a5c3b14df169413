/** What a DOT file shows of a function's graph, when it is new and when it has been linked. */
module Drawings {
  import opened Walks
  import opened Graphs
  import opened Programs
  import opened Construction
  import opened Creation
  import opened Contraction
  import opened ControlFlowGraphs
  import opened Meaning
  import opened Entries
  import opened TightLoops
  import opened Decisions
  import DepthFirst
  import opened Linking
  import opened LinkedPrograms
  import opened Executions
  import opened ProgramRuns
  import opened DotFiles

  /** The list has no ENTRY or EXIT among its statements: those are made for each function. */
  ghost predicate NoEnds(prog: Program)
  {
    forall s | s in prog :: s != Entry && s != Exit
  }

  /** The vertices of the record, before and after jumps were replaced. */
  ghost function AllOf(r: Record): set<Vertex>
  {
    Elements(r.orig) + Elements(r.c.at)
  }

  /** ENTRY and EXIT are the only vertices of their kind. */
  ghost predicate EndsOnce(at: seq<Vertex>, vs: set<Vertex>)
  {
    && at != []
    && forall v | v in vs ::
         (v.statement == Entry ==> v == at[0]) && (v.statement == Exit ==> v == at[|at| - 1])
  }

  lemma OnlyEnds(r: Record)
    requires NoEnds(r.c.prog) && Created(r)
    ensures EndsOnce(r.c.at, AllOf(r))
  {
    hide *;
    CreatedDrawn(r);
    DrawnLinked(r.c, r.orig, r.drawn, r.entrySelf, r.exitSelf);
    DrawnStatements(r.c, r.orig, r.drawn, r.entrySelf, r.exitSelf);
    LinkedOnlyEnds(r.c, r.orig);
    EndsOnceFor(r.c.at, r.c.at, r.orig);
    AllOfIs(r);
  }

  lemma AllOfIs(r: Record)
    ensures AllOf(r) == Elements(r.orig) + Elements(r.c.at)
  {
  }

  lemma LinkedOnlyEnds(c: Building, orig: seq<Vertex>)
    requires Linked(c, orig) && StatementsAt(c.prog, orig) && NoEnds(c.prog) && |c.at| == |orig| == |c.prog| + 2
    requires c.at[0].statement == Entry && c.at[|c.at| - 1].statement == Exit
    ensures forall p | 0 <= p < |c.at| ::
              && (c.at[p].statement == Entry ==> c.at[p] == c.at[0])
              && (c.at[p].statement == Exit ==> c.at[p] == c.at[|c.at| - 1])
              && (orig[p].statement == Entry ==> orig[p] == c.at[0])
              && (orig[p].statement == Exit ==> orig[p] == c.at[|c.at| - 1])
  {
    hide Ways, Built, Complete, Placed;
    assert orig[0] == c.at[0] && orig[|c.prog| + 1] == c.at[|c.prog| + 1];
    forall p | 0 < p <= |c.prog|
      ensures c.at[p].statement != Entry && c.at[p].statement != Exit
      ensures orig[p].statement != Entry && orig[p].statement != Exit
    {
      assert c.prog[p - 1] in c.prog;
    }
  }

  lemma EndsOnceFor(at: seq<Vertex>, now: seq<Vertex>, orig: seq<Vertex>)
    requires at != [] && |now| == |orig|
    requires forall p | 0 <= p < |now| ::
               && (now[p].statement == Entry ==> now[p] == at[0])
               && (now[p].statement == Exit ==> now[p] == at[|at| - 1])
               && (orig[p].statement == Entry ==> orig[p] == at[0])
               && (orig[p].statement == Exit ==> orig[p] == at[|at| - 1])
    ensures EndsOnce(at, Elements(orig) + Elements(now))
  {
  }

  // ----- The ends of a created graph -----

  /** Only its self edge leaves EXIT. */
  lemma OnlyExitSelf(r: Record)
    requires Created(r)
    ensures ExitAlone(r)
  {
    hide *;
    CreatedDrawn(r);
    DrawnLinked(r.c, r.orig, r.drawn, r.entrySelf, r.exitSelf);
    DrawnStatements(r.c, r.orig, r.drawn, r.entrySelf, r.exitSelf);
    ExitSelfEdgeIs(r.c, r.orig, r.drawn, r.entrySelf, r.exitSelf);
    NoCandidates();
    var exit := r.c.at[|r.c.at| - 1];
    ExitListed(r.c.at);
    StatementNotGone(r, exit);
    SubgraphAt(r.drawn, r.proxied, r.exitSelf);
    ChainOfStayer(r.proxied, r.final, r.gone, r.chain, r.exitSelf);
    DrawnOutOfExit(r.c, r.orig, r.drawn, r.entrySelf, r.exitSelf);
    forall e | e in Out(r.proxied, exit) ensures e == r.exitSelf {
      OutMeans(r.proxied, exit, e);
      if e in r.drawn {
        SubgraphAt(r.drawn, r.proxied, e);
        OutMeans(r.drawn, exit, e);
      } else {
        var b, j, o, p := ProxyIsSecondWay(r, e);
        OutMeans(r.drawn, exit, b);
      }
    }
    DegreesStay(r, exit);
    OutMeans(r.final, exit, r.exitSelf);
    ExitAloneIs(r);
  }

  ghost predicate ExitAlone(r: Record)
  {
    && r.c.at != [] && r.exitSelf in r.final
    && r.final[r.exitSelf] == Arc(r.c.at[|r.c.at| - 1], r.c.at[|r.c.at| - 1])
    && Out(r.final, r.c.at[|r.c.at| - 1]) == {r.exitSelf}
  }

  lemma ExitAloneIs(r: Record)
    ensures ExitAlone(r) <==>
            && r.c.at != [] && r.exitSelf in r.final
            && r.final[r.exitSelf] == Arc(r.c.at[|r.c.at| - 1], r.c.at[|r.c.at| - 1])
            && Out(r.final, r.c.at[|r.c.at| - 1]) == {r.exitSelf}
  {
    hide Out;
  }

  lemma ExitListed(at: seq<Vertex>)
    requires at != []
    ensures at[|at| - 1] in Elements(at)
  {
    assert at[|at| - 1] in at;
  }

  lemma StatementNotGone(r: Record, v: Vertex)
    requires !v.statement.IsRedundancyCandidate() && Created(r)
    ensures v !in r.gone
  {
    hide *;
    CreatedDrawn(r);
    if v in r.gone {
      var p := RedundantAt(r.proxied, r.c.at, v);
    }
  }

  lemma DrawnOutOfExit(c: Building, orig: seq<Vertex>, g: Arcs, entrySelf: Edge, exitSelf: Edge)
    requires Drawn(c, orig, g, entrySelf, exitSelf)
    ensures |c.at| == |c.prog| + 2 && Out(g, c.at[|c.at| - 1]) == {exitSelf}
  {
    hide Ways, Built, Complete, LeftWithoutWayIn, StatementsAt;
    DrawnLinked(c, orig, g, entrySelf, exitSelf);
    ExitSelfEdgeIs(c, orig, g, entrySelf, exitSelf);
    var exit := c.at[|c.at| - 1];
    ExitStays(c, orig);
    forall e | e in g && g[e].src == exit ensures e == exitSelf {
      if e in c.g {
        assert g[e] == c.g[e];
        NoWayFromExit(c, e);
      } else if e != exitSelf {
        NotFromExit(c, orig, g, entrySelf, exitSelf, e);
      }
    }
  }

  lemma ExitStays(c: Building, orig: seq<Vertex>)
    requires Linked(c, orig) && |c.at| == |orig| == |c.prog| + 2
    ensures c.at[|c.at| - 1] == orig[|orig| - 1] && c.at[0] == orig[0]
  {
    hide Ways, Built, Complete;
  }

  lemma NoWayFromExit(c: Building, e: Edge)
    requires c.Ok() && e in c.g && |c.at| == |c.prog| + 2
    ensures c.g[e].src != c.at[|c.at| - 1]
  {
    hide Ways;
    assert IsBuilt(c.prog, c.at, c.g[e], e.kind, c.slots[e], c.ways);
  }

  lemma NotFromExit(c: Building, orig: seq<Vertex>, g: Arcs, entrySelf: Edge, exitSelf: Edge, e: Edge)
    requires Drawn(c, orig, g, entrySelf, exitSelf) && e in g && e !in c.g && e != exitSelf
    requires |c.at| == |orig| == |c.prog| + 2 && c.at[|c.at| - 1] == orig[|orig| - 1] && c.at[0] == orig[0]
    ensures g[e].src != c.at[|c.at| - 1]
  {
    hide Linked, LeftWithoutWayIn, StatementsAt;
    if e != entrySelf {
      assert IsPatchIn(c, orig, g, e);
      var q :| 0 < q <= |c.prog| && q < |orig| && IsFlow(c.prog, q - 1) && g[e] == Arc(orig[q - 1], orig[q]);
    }
  }

  // ----- A new graph -----

  /** All is drawn but the two self edges. */
  lemma DrawableAre(r: Record, vs: set<Vertex>)
    requires NoEnds(r.c.prog) && EndsIn(vs, r.final) && vs <= AllOf(r) && Created(r)
    ensures DepthFirst.Permitted(r.final, Drawable(r.final)) == r.final - {r.entrySelf, r.exitSelf}
  {
    hide *;
    CreatedDrawn(r);
    EntryOnlySelfEdge(r);
    OnlyExitSelf(r);
    ExitAloneIs(r);
    OnlyEnds(r);
    forall e | e in r.final
      ensures !e.kind.FunctionCall? && !e.kind.Return?
      ensures r.final[e].dst.statement == Entry <==> e == r.entrySelf
      ensures r.final[e].src.statement == Exit <==> e == r.exitSelf
    {
      NewEdgeKinds(r, e);
      EndOf(vs, r.final, e);
      AtTheEnds(r, vs, e);
    }
    DrawnBut(r.final, r.entrySelf, r.exitSelf);
  }

  lemma AtTheEnds(r: Record, vs: set<Vertex>, e: Edge)
    requires EndsOnce(r.c.at, AllOf(r)) && vs <= AllOf(r)
    requires e in r.final && r.final[e].src in vs && r.final[e].dst in vs
    requires r.c.at[0].statement == Entry && r.c.at[|r.c.at| - 1].statement == Exit
    requires In(r.final, r.c.at[0]) == {r.entrySelf} && Out(r.final, r.c.at[|r.c.at| - 1]) == {r.exitSelf}
    ensures r.final[e].dst.statement == Entry <==> e == r.entrySelf
    ensures r.final[e].src.statement == Exit <==> e == r.exitSelf
  {
    hide AllOf;
    assert r.final[e].dst == r.c.at[0] <==> e in In(r.final, r.c.at[0]);
    assert r.final[e].src == r.c.at[|r.c.at| - 1] <==> e in Out(r.final, r.c.at[|r.c.at| - 1]);
  }

  lemma DrawnBut(g: Arcs, a: Edge, b: Edge)
    requires forall e | e in g ::
               && !e.kind.FunctionCall? && !e.kind.Return?
               && (g[e].dst.statement == Entry <==> e == a) && (g[e].src.statement == Exit <==> e == b)
    ensures DepthFirst.Permitted(g, Drawable(g)) == g - {a, b}
  {
  }

  /** The file declares exactly the vertices that ENTRY reaches, and draws exactly the edges out of those, but for the
      two self edges. */
  lemma NewDrawing(r: Record, vs: set<Vertex>, lines: seq<Line>)
    requires NoEnds(r.c.prog) && EndsIn(vs, r.final) && vs <= AllOf(r)
    requires r.c.at != [] && DrawnWell(r.final, r.c.at[0], lines) && Created(r)
    ensures ReachableFrom(r.final, r.c.at[0], VerticesIn(lines))
    ensures EdgesIn(lines) == (set e | e in r.final && r.final[e].src in VerticesIn(lines)) - {r.entrySelf, r.exitSelf}
  {
    hide *;
    DrawableAre(r, vs);
    EntryOnlySelfEdge(r);
    OnlyExitSelf(r);
    ExitAloneIs(r);
    WithoutSelfEdges(r.final, r.entrySelf, r.exitSelf, r.c.at[0], lines);
  }

  lemma WithoutSelfEdges(g: Arcs, a: Edge, b: Edge, entry: Vertex, lines: seq<Line>)
    requires DepthFirst.Permitted(g, Drawable(g)) == g - {a, b} && DrawnWell(g, entry, lines)
    requires a in g && b in g && g[a].src == g[a].dst && g[b].src == g[b].dst
    ensures ReachableFrom(g, entry, VerticesIn(lines))
    ensures EdgesIn(lines) == (set e | e in g && g[e].src in VerticesIn(lines)) - {a, b}
  {
    hide Reaches, VerticesIn, EdgesIn;
    var h, vs := g - {a, b}, VerticesIn(lines);
    forall v | v in vs ensures Reaches(g, entry, v) {
      ReachesMonotone(h, g, entry, v);
    }
  }

  // ----- A linked graph -----

  lemma KeptEnds(b: Body, v: Vertex)
    requires RenOk(b)
    ensures Ren(b.ren, v).statement == Entry <==> v.statement == Entry
    ensures Ren(b.ren, v).statement == Exit <==> v.statement == Exit
  {
    hide OneToOne;
  }

  /** Of the edges of a function, all are drawn but the two self edges. */
  lemma DrawnOfBody(w: Whole, k: nat, e: Edge)
    requires k < |w.bodies| && e in w.bodies[k].r.final && NoEnds(w.bodies[k].r.c.prog) && WholeOk(w)
    ensures e in DepthFirst.Permitted(w.g, Drawable(w.g)) <==>
            e != w.bodies[k].r.entrySelf && e != w.bodies[k].r.exitSelf
    ensures e in w.g
  {
    hide *;
    WholeParts(w);
    var b := w.bodies[k];
    SameLength(w.functions, w.vs, w.g, w.bodies);
    BodyAt(w.functions, w.vs, w.g, w.bodies, k);
    BodyParts(b, w.functions[k], w.functions, w.g);
    MovedEdge(b, w.g, e);
    AllOfIs(b.r);
    DrawableAre(b.r, b.vs);
    KeptEnds(b, b.r.final[e].src);
    KeptEnds(b, b.r.final[e].dst);
    DrawnThere(b.r.final, e);
    DrawnThere(w.g, e);
    assert e in b.r.final - {b.r.entrySelf, b.r.exitSelf} <==> e != b.r.entrySelf && e != b.r.exitSelf;
  }

  lemma DrawnThere(g: Arcs, e: Edge)
    ensures e in DepthFirst.Permitted(g, Drawable(g)) <==>
            && e in g && !e.kind.FunctionCall? && !e.kind.Return?
            && g[e].dst.statement != Entry && g[e].src.statement != Exit
    ensures e in DepthFirst.Permitted(g, Drawable(g)) ==> DepthFirst.Permitted(g, Drawable(g))[e] == g[e]
  {
  }

  ghost function RenamedSet(ren: map<Vertex, Vertex>, vs: set<Vertex>): set<Vertex>
  {
    set v | v in vs :: Ren(ren, v)
  }

  /** An edge that is drawn from a vertex of the function belongs to the function. */
  lemma DrawnFrom(w: Whole, k: nat, v: Vertex, e: Edge)
    requires k < |w.bodies| && v in w.bodies[k].vs && e in DepthFirst.Permitted(w.g, Drawable(w.g))
    requires e in w.g && w.g[e].src == Ren(w.bodies[k].ren, v) && WholeOk(w)
    ensures e in w.bodies[k].r.final && w.bodies[k].r.final[e].src == v
    ensures w.g[e].dst == Ren(w.bodies[k].ren, w.bodies[k].r.final[e].dst)
  {
    hide *;
    WholeParts(w);
    DrawnThere(w.g, e);
    var b := w.bodies[k];
    var m := SomeBody(w.functions, w.vs, w.g, w.bodies, e);
    SameLength(w.functions, w.vs, w.g, w.bodies);
    BodyAt(w.functions, w.vs, w.g, w.bodies, m);
    BodyParts(w.bodies[m], w.functions[m], w.functions, w.g);
    MovedEdge(w.bodies[m], w.g, e);
    NowMeans(b, v);
    SameBody(w.functions, w.vs, w.g, w.bodies, m, k, w.g[e].src);
    RenOkMeans(b);
    RenInjective(b.ren, b.vs, b.r.final[e].src, v);
  }

  lemma {:induction false} WalkDrawn(w: Whole, k: nat, s: Vertex, q: seq<Edge>, t: Vertex)
    requires k < |w.bodies| && NoEnds(w.bodies[k].r.c.prog)
    requires IsWalk(w.bodies[k].r.final - {w.bodies[k].r.entrySelf, w.bodies[k].r.exitSelf}, s, q, t) && WholeOk(w)
    ensures IsWalk(DepthFirst.Permitted(w.g, Drawable(w.g)), Ren(w.bodies[k].ren, s), q, Ren(w.bodies[k].ren, t))
    decreases |q|
  {
    hide WholeOk, DepthFirst.Permitted, Drawable, Ren, NoEnds;
    if q != [] {
      DrawnOfBody(w, k, q[0]);
      BodyMoved(w, k, q[0]);
      DrawnThere(w.g, q[0]);
      WalkDrawn(w, k, w.bodies[k].r.final[q[0]].dst, q[1..], t);
    }
  }

  lemma BodyMoved(w: Whole, k: nat, e: Edge)
    requires k < |w.bodies| && e in w.bodies[k].r.final && WholeOk(w)
    ensures var b := w.bodies[k];
            && e in w.g && w.g[e] == Arc(Ren(b.ren, b.r.final[e].src), Ren(b.ren, b.r.final[e].dst))
            && b.r.final[e].src in b.vs && b.r.final[e].dst in b.vs
  {
    hide *;
    WholeParts(w);
    SameLength(w.functions, w.vs, w.g, w.bodies);
    BodyAt(w.functions, w.vs, w.g, w.bodies, k);
    BodyParts(w.bodies[k], w.functions[k], w.functions, w.g);
    MovedEdge(w.bodies[k], w.g, e);
  }

  /** The file of a linked function declares what ENTRY reached when the function was new, with replaced vertices
      replaced, and draws the same edges: neither calls nor returns nor the two self edges. */
  lemma LinkedDrawing(w: Whole, k: nat, inside: set<Vertex>, lines: seq<Line>)
    requires k < |w.bodies| && k < |w.functions| && NoEnds(w.bodies[k].r.c.prog)
    requires DrawnWell(w.g, w.functions[k].entry, lines)
    requires ReachableFrom(w.bodies[k].r.final, w.functions[k].entry, inside) && WholeOk(w)
    ensures VerticesIn(lines) == RenamedSet(w.bodies[k].ren, inside)
    ensures EdgesIn(lines) == (set e | e in w.bodies[k].r.final && w.bodies[k].r.final[e].src in inside)
                              - {w.bodies[k].r.entrySelf, w.bodies[k].r.exitSelf}
  {
    hide *;
    var b, h := w.bodies[k], DepthFirst.Permitted(w.g, Drawable(w.g));
    var entry := w.functions[k].entry;
    InsideOwn(w, k, inside);
    InsideReached(w, k, inside);
    InsideClosed(w, k, inside);
    EntryIsItself(w, k);
    ItIsReachable(h, b.ren, entry, inside);
    DrawnReachable(w.g, entry, lines);
    ReachableOnce(h, entry, VerticesIn(lines), RenamedSet(b.ren, inside));
    EdgesDrawn(w, k, inside, lines);
  }

  lemma EntryIsItself(w: Whole, k: nat)
    requires k < |w.bodies| && k < |w.functions| && WholeOk(w)
    ensures Ren(w.bodies[k].ren, w.functions[k].entry) == w.functions[k].entry
    ensures w.functions[k].entry in w.bodies[k].vs
    ensures w.bodies[k].r.c.at != [] && w.functions[k].entry == w.bodies[k].r.c.at[0]
  {
    hide *;
    WholeParts(w);
    EntryThere(w, k);
    ThereMeans(w, Place(k, 0), w.functions[k].entry);
    BodyAt(w.functions, w.vs, w.g, w.bodies, k);
    BodyParts(w.bodies[k], w.functions[k], w.functions, w.g);
  }

  lemma DrawnReachable(g: Arcs, entry: Vertex, lines: seq<Line>)
    requires DrawnWell(g, entry, lines)
    ensures ReachableFrom(DepthFirst.Permitted(g, Drawable(g)), entry, VerticesIn(lines))
    ensures EdgesIn(lines) == set e | e in DepthFirst.Permitted(g, Drawable(g)) && g[e].src in VerticesIn(lines)
  {
    hide Reaches, VerticesIn, EdgesIn, Drawable;
    var h := DepthFirst.Permitted(g, Drawable(g));
    assert forall e | e in h :: e in g && h[e] == g[e];
  }

  lemma ItIsReachable(h: Arcs, ren: map<Vertex, Vertex>, entry: Vertex, inside: set<Vertex>)
    requires entry in inside && Ren(ren, entry) == entry && Closed(h, RenamedSet(ren, inside))
    requires forall v | v in inside :: Reaches(h, entry, Ren(ren, v))
    ensures ReachableFrom(h, entry, RenamedSet(ren, inside))
  {
    hide Reaches, Ren, Closed;
  }

  lemma InsideOwn(w: Whole, k: nat, inside: set<Vertex>)
    requires k < |w.bodies| && k < |w.functions| && WholeOk(w)
    requires ReachableFrom(w.bodies[k].r.final, w.functions[k].entry, inside)
    ensures w.functions[k].entry in inside && Closed(w.bodies[k].r.final, inside) && inside <= w.bodies[k].vs
  {
    hide *;
    EntryIsItself(w, k);
    var b := w.bodies[k];
    ReachableMeans(b.r.final, w.functions[k].entry, inside);
    WholeParts(w);
    BodyAt(w.functions, w.vs, w.g, w.bodies, k);
    BodyParts(b, w.functions[k], w.functions, w.g);
    EndsClosed(b.vs, b.r.final);
    forall v | v in inside ensures v in b.vs {
      ClosedReaches(b.r.final, b.vs, w.functions[k].entry, v);
    }
  }

  lemma ReachableMeans(g: Arcs, s: Vertex, r: set<Vertex>)
    requires ReachableFrom(g, s, r)
    ensures s in r && Closed(g, r) && forall v | v in r :: Reaches(g, s, v)
  {
    hide Reaches, Closed;
  }

  lemma InsideReached(w: Whole, k: nat, inside: set<Vertex>)
    requires k < |w.bodies| && k < |w.functions| && NoEnds(w.bodies[k].r.c.prog) && WholeOk(w)
    requires ReachableFrom(w.bodies[k].r.final, w.functions[k].entry, inside)
    ensures forall v | v in inside ::
              Reaches(DepthFirst.Permitted(w.g, Drawable(w.g)), w.functions[k].entry, Ren(w.bodies[k].ren, v))
  {
    hide *;
    var b, entry, h := w.bodies[k], w.functions[k].entry, DepthFirst.Permitted(w.g, Drawable(w.g));
    EntryIsItself(w, k);
    ReachableMeans(b.r.final, entry, inside);
    BodySelfEdges(w, k);
    forall v | v in inside ensures Reaches(h, entry, Ren(b.ren, v)) {
      SelfEdgesIdle(b.r.final, b.r.entrySelf, b.r.exitSelf, entry, v);
      var q := WalkOf(b.r.final - {b.r.entrySelf, b.r.exitSelf}, entry, v);
      WalkDrawn(w, k, entry, q, v);
      RunReachesIn(h, entry, q, Ren(b.ren, v));
    }
  }

  lemma BodySelfEdges(w: Whole, k: nat)
    requires k < |w.bodies| && k < |w.functions| && WholeOk(w)
    ensures SelfEdges(w.bodies[k].r.final, w.bodies[k].r.entrySelf, w.bodies[k].r.exitSelf)
  {
    hide *;
    WholeParts(w);
    BodyAt(w.functions, w.vs, w.g, w.bodies, k);
    BodyParts(w.bodies[k], w.functions[k], w.functions, w.g);
    EntryOnlySelfEdge(w.bodies[k].r);
    OnlyExitSelf(w.bodies[k].r);
    ExitAloneIs(w.bodies[k].r);
    SelfEdgesAre(w.bodies[k].r.final, w.bodies[k].r.entrySelf, w.bodies[k].r.exitSelf);
  }

  ghost predicate SelfEdges(g: Arcs, a: Edge, b: Edge)
  {
    a in g && b in g && g[a].src == g[a].dst && g[b].src == g[b].dst
  }

  lemma SelfEdgesAre(g: Arcs, a: Edge, b: Edge)
    ensures SelfEdges(g, a, b) <==> a in g && b in g && g[a].src == g[a].dst && g[b].src == g[b].dst
  {
  }

  /** Self edges lead nowhere else. */
  lemma SelfEdgesIdle(g: Arcs, a: Edge, b: Edge, s: Vertex, t: Vertex)
    requires SelfEdges(g, a, b) && Reaches(g, s, t)
    ensures Reaches(g - {a, b}, s, t)
  {
    hide IsWalk;
    var q := WalkOf(g, s, t);
    IdleWalk(g, a, b, s, q, t);
  }

  lemma {:induction false} IdleWalk(g: Arcs, a: Edge, b: Edge, s: Vertex, q: seq<Edge>, t: Vertex)
    requires SelfEdges(g, a, b) && IsWalk(g, s, q, t)
    ensures Reaches(g - {a, b}, s, t)
    decreases |q|
  {
    hide Reaches;
    var h: Arcs := g - {a, b};
    ReachesRefl(h, s);
    if q != [] {
      IdleWalk(g, a, b, g[q[0]].dst, q[1..], t);
      if q[0] in h {
        ReachesStep(h, s, q[0]);
        ReachesTrans(h, s, g[q[0]].dst, t);
      }
    }
  }

  lemma InsideClosed(w: Whole, k: nat, inside: set<Vertex>)
    requires k < |w.bodies| && k < |w.functions| && WholeOk(w)
    requires Closed(w.bodies[k].r.final, inside) && inside <= w.bodies[k].vs
    ensures Closed(DepthFirst.Permitted(w.g, Drawable(w.g)), RenamedSet(w.bodies[k].ren, inside))
  {
    hide *;
    var b, h := w.bodies[k], DepthFirst.Permitted(w.g, Drawable(w.g));
    forall e | e in h && h[e].src in RenamedSet(b.ren, inside) ensures h[e].dst in RenamedSet(b.ren, inside) {
      DrawnThere(w.g, e);
      var v := RenamedFrom(b.ren, inside, h[e].src);
      DrawnFrom(w, k, v, e);
      ClosedAt(b.r.final, inside, e);
      RenamedHas(b.ren, inside, b.r.final[e].dst);
    }
    ItIsClosed(h, RenamedSet(b.ren, inside));
  }

  lemma RenamedFrom(ren: map<Vertex, Vertex>, vs: set<Vertex>, u: Vertex) returns (v: Vertex)
    requires u in RenamedSet(ren, vs)
    ensures v in vs && Ren(ren, v) == u
  {
    v :| v in vs && Ren(ren, v) == u;
  }

  lemma RenamedHas(ren: map<Vertex, Vertex>, vs: set<Vertex>, v: Vertex)
    requires v in vs
    ensures Ren(ren, v) in RenamedSet(ren, vs)
  {
  }

  lemma ClosedAt(g: Arcs, c: set<Vertex>, e: Edge)
    requires Closed(g, c) && e in g && g[e].src in c
    ensures g[e].dst in c
  {
  }

  lemma ItIsClosed(g: Arcs, c: set<Vertex>)
    requires forall e | e in g && g[e].src in c :: g[e].dst in c
    ensures Closed(g, c)
  {
  }

  lemma EdgesDrawn(w: Whole, k: nat, inside: set<Vertex>, lines: seq<Line>)
    requires k < |w.bodies| && k < |w.functions| && NoEnds(w.bodies[k].r.c.prog) && WholeOk(w)
    requires inside <= w.bodies[k].vs && VerticesIn(lines) == RenamedSet(w.bodies[k].ren, inside)
    requires EdgesIn(lines) == set e | e in DepthFirst.Permitted(w.g, Drawable(w.g)) && w.g[e].src in VerticesIn(lines)
    ensures EdgesIn(lines) == (set e | e in w.bodies[k].r.final && w.bodies[k].r.final[e].src in inside)
                              - {w.bodies[k].r.entrySelf, w.bodies[k].r.exitSelf}
  {
    hide *;
    var b, h := w.bodies[k], DepthFirst.Permitted(w.g, Drawable(w.g));
    var drawn := (set e | e in b.r.final && b.r.final[e].src in inside) - {b.r.entrySelf, b.r.exitSelf};
    forall e | e in EdgesIn(lines) ensures e in drawn {
      DrawnThere(w.g, e);
      var v := RenamedFrom(b.ren, inside, w.g[e].src);
      DrawnFrom(w, k, v, e);
      DrawnOfBody(w, k, e);
    }
    forall e | e in drawn ensures e in EdgesIn(lines) {
      DrawnOfBody(w, k, e);
      BodyMoved(w, k, e);
      RenamedHas(b.ren, inside, b.r.final[e].src);
    }
  }

  // ----- Drawing -----

  /** Draws the graph of a new function. */
  method DrawNew(g: Arcs, entry: Vertex, ghost r: Record, ghost vs: set<Vertex>) returns (lines: seq<Line>)
    requires g == r.final && EndsIn(vs, r.final) && vs <= AllOf(r) && NoEnds(r.c.prog)
    requires r.c.at != [] && entry == r.c.at[0] && Created(r)
    ensures ReachableFrom(g, entry, VerticesIn(lines))
    ensures EdgesIn(lines) == (set e | e in g && g[e].src in VerticesIn(lines)) - {r.entrySelf, r.exitSelf}
  {
    hide *;
    lines := PrintControlFlowGraphDot(g, entry);
    NewDrawing(r, vs, lines);
  }

  /** Draws a function of a linked program; `inside` are the vertices that its ENTRY reached when it was new. */
  method DrawLinked(g: Arcs, f: Function, ghost w: Whole, ghost k: nat, ghost inside: set<Vertex>)
    returns (lines: seq<Line>)
    requires g == w.g && k < |w.bodies| && k < |w.functions| && f == w.functions[k] && NoEnds(w.bodies[k].r.c.prog)
    requires ReachableFrom(w.bodies[k].r.final, f.entry, inside) && WholeOk(w)
    ensures VerticesIn(lines) == RenamedSet(w.bodies[k].ren, inside)
    ensures EdgesIn(lines) == (set e | e in w.bodies[k].r.final && w.bodies[k].r.final[e].src in inside)
                              - {w.bodies[k].r.entrySelf, w.bodies[k].r.exitSelf}
  {
    hide *;
    lines := PrintControlFlowGraphDot(g, f.entry);
    LinkedDrawing(w, k, inside, lines);
  }
}
