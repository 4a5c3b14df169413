/** Which vertices of a created graph are decisions, which are removed as redundant, and what that means for the marks:
    in terms of the statements of the list. */
module Decisions {
  import opened Basics
  import opened Walks
  import opened Graphs
  import opened Programs
  import opened Construction
  import opened Creation
  import opened BackEdges
  import opened Contraction
  import opened CfgAlgs
  import opened ControlFlowGraphs
  import opened Meaning
  import opened Entries
  import opened Jumps
  import opened Cycles

  // ----- What stands at a position -----

  /** The statement that stands for `s` in the graph, if the jump `s` found its labels. */
  function StandsAs(s: Statement): Statement
  {
    match s
    case GotoUnlinked(_) => Goto
    case ReturnUnlinked => Goto
    case IfUnlinked(_, _) => If
    case SwitchUnlinked(_) => Switch
    case _ => s
  }

  ghost predicate StandsAt(c: Building, p: nat)
  {
    && 0 < p <= |c.prog| && p < |c.at|
    && c.at[p].statement == if Ways(c.prog, p) != [] then StandsAs(c.prog[p - 1]) else c.prog[p - 1]
  }

  /** A jump that found its labels has been replaced, every other statement is as it was. */
  lemma StatementStands(r: Record, p: nat)
    requires 0 < p <= |r.c.prog| && Created(r)
    ensures StandsAt(r.c, p)
  {
    hide *;
    CreatedDrawn(r);
    DrawnLinked(r.c, r.orig, r.drawn, r.entrySelf, r.exitSelf);
    DrawnStatements(r.c, r.orig, r.drawn, r.entrySelf, r.exitSelf);
    LinkedStands(r.c, r.orig, p);
  }

  lemma LinkedStands(c: Building, orig: seq<Vertex>, p: nat)
    requires Linked(c, orig) && StatementsAt(c.prog, orig) && |c.at| == |orig| == |c.prog| + 2 && 0 < p <= |c.prog|
    ensures StandsAt(c, p)
  {
    hide Built, Complete, LabelMap;
    if c.prog[p - 1].CaseUnlinked? {
      CaseLeads(c.prog, p, c.prog[p - 1].name);
    }
    hide Ways;
  }

  lemma StandsMeans(c: Building, p: nat)
    ensures StandsAt(c, p) <==>
            && 0 < p <= |c.prog| && p < |c.at|
            && c.at[p].statement == if Ways(c.prog, p) != [] then StandsAs(c.prog[p - 1]) else c.prog[p - 1]
  {
    hide Ways, StandsAs;
  }

  /** The ifs and switches that found their labels are the decisions. */
  ghost predicate DecidesAt(prog: Program, p: nat)
  {
    && 0 < p <= |prog|
    && match prog[p - 1]
       case IfUnlinked(_, _) => Ways(prog, p) != []
       case SwitchUnlinked(_) => Ways(prog, p) != []
       case If => true
       case Switch => true
       case _ => false
  }

  lemma DecisionsAre(r: Record, p: nat)
    requires p < |r.c.at| && Created(r)
    ensures r.c.at[p].statement.IsDecision() <==> DecidesAt(r.c.prog, p)
  {
    hide *;
    CreatedDrawn(r);
    DrawnLinked(r.c, r.orig, r.drawn, r.entrySelf, r.exitSelf);
    EndsDecideNothing();
    if 0 < p <= |r.c.prog| {
      StatementStands(r, p);
    }
    DecidesIs(r.c, p);
  }

  lemma EndsDecideNothing()
    ensures !Entry.IsDecision() && !Exit.IsDecision()
  {
  }

  lemma DecidesIs(c: Building, p: nat)
    requires 0 < p <= |c.prog| ==> StandsAt(c, p)
    ensures 0 < p <= |c.prog| ==> (c.at[p].statement.IsDecision() <==> DecidesAt(c.prog, p))
    ensures !(0 < p <= |c.prog|) ==> !DecidesAt(c.prog, p)
  {
    hide Ways;
  }

  /** Only an if or a switch has more than one way on. */
  lemma SeveralWaysDecide(prog: Program, p: nat)
    requires p <= |prog| && |Ways(prog, p)| > 1
    ensures DecidesAt(prog, p)
  {
    hide Ways, LabelMap, Names, NamesNothing;
    if p == 0 {
      OthersFallThrough(prog, p);
    } else {
      match prog[p - 1] {
        case GotoUnlinked(l) =>
          SomethingNamed(prog, l);
          GotoLeads(prog, p, l);
        case ReturnUnlinked => ReturnLeads(prog, p);
        case CaseUnlinked(l) => CaseLeads(prog, p, l);
        case IfUnlinked(_, _) =>
        case SwitchUnlinked(_) =>
        case _ => OthersFallThrough(prog, p);
      }
    }
  }

  /** `o` is another way on than the edge `e`, from the same vertex. */
  ghost predicate OtherWay(g: Arcs, e: Edge, o: Edge)
  {
    e in g && o in g && o != e && !e.kind.Impossible? && !o.kind.Impossible? && g[o].src == g[e].src
  }

  /** A vertex with two ways on is a decision. */
  lemma TwoWaysDecide(r: Record, e: Edge, o: Edge)
    requires OtherWay(r.drawn, e, o) && Created(r)
    ensures e in r.drawn && r.drawn[e].src.statement.IsDecision()
  {
    hide *;
    OtherWayMeans(r.drawn, e, o);
    CreatedDrawn(r);
    DrawnLinked(r.c, r.orig, r.drawn, r.entrySelf, r.exitSelf);
    DrawnSolid(r.c, r.orig, r.drawn, r.entrySelf, r.exitSelf);
    SolidEdge(r.drawn, e);
    SolidEdge(r.drawn, o);
    var p := TwoSlots(r.c, e, o);
    SeveralWaysDecide(r.c.prog, p);
    DecisionsAre(r, p);
  }

  lemma OtherWayMeans(g: Arcs, e: Edge, o: Edge)
    requires OtherWay(g, e, o)
    ensures e in g && o in g && o != e && !e.kind.Impossible? && !o.kind.Impossible? && g[o].src == g[e].src
  {
  }

  lemma TwoSlots(c: Building, e: Edge, o: Edge) returns (p: nat)
    requires c.Ok() && e in c.g && o in c.g && e != o && c.g[o].src == c.g[e].src
    ensures p <= |c.prog| && p < |c.at| && c.at[p] == c.g[e].src && |Ways(c.prog, p)| > 1
  {
    hide Ways;
    assert IsBuilt(c.prog, c.at, c.g[e], e.kind, c.slots[e], c.ways);
    assert IsBuilt(c.prog, c.at, c.g[o], o.kind, c.slots[o], c.ways);
    p := c.slots[e].pos;
    assert c.slots[o].pos == p && c.slots[o] != c.slots[e];
  }

  // ----- Lost marks -----

  /** The edge is the one way out of an if or a switch, where the climb up the tree path stops in vain. */
  ghost predicate Barren(g: Arcs, e: Edge)
  {
    e in g && (g[e].src.statement == If || g[e].src.statement == Switch) && Out(g, g[e].src) == {e}
  }

  /** Along the tree path `p` from position `m` on, no vertex has a second way on, except above an if or a switch that
      has only one. */
  ghost predicate NoSecondWay(g: Arcs, p: seq<Edge>, m: nat)
  {
    forall j, o | m <= j < |p| && o in g && OtherWay(g, p[j], o) :: exists i :: j < i < |p| && Barren(g, p[i])
  }

  lemma DecisionByName(s: Statement)
    ensures s.IsDecision() <==> s == If || s == Switch
  {
  }

  lemma NoTargetNoSecondWay(r: Record, p: seq<Edge>, m: nat)
    requires InGraph(r.drawn, p) && IsForwardTarget(r.drawn, p, m, None) && Created(r)
    ensures NoSecondWay(r.drawn, p, m)
  {
    hide Created, Barren, OtherWay;
    forall j, o | m <= j < |p| && o in r.drawn && OtherWay(r.drawn, p[j], o)
      ensures exists i :: j < i < |p| && Barren(r.drawn, p[i])
    {
      TwoWaysDecide(r, p[j], o);
      assert LeavesDecision(r.drawn, p[j]);
      var k := ClimbEnds(r.drawn, p, m, j);
      NotTheOnly(r.drawn, p[j], o);
    }
  }

  lemma NotTheOnly(g: Arcs, e: Edge, o: Edge)
    requires OtherWay(g, e, o)
    ensures !Barren(g, e)
  {
    assert o in g ==> o in Out(g, g[o].src);
  }

  lemma ClimbEnds(g: Arcs, p: seq<Edge>, m: nat, j: nat) returns (k: nat)
    requires InGraph(g, p) && IsForwardTarget(g, p, m, None) && m <= j < |p| && LeavesDecision(g, p[j])
    ensures j <= k < |p| && Barren(g, p[k])
  {
    k :| FirstDecision(g, p, m, k) && OtherWayOut(g, p[k], None);
    assert p[k] in p;
    DecisionByName(g[p[k]].src.statement);
  }

  /** Where the marked edge is all that is left, there was no second way on the way round. */
  lemma MarkedOnlyWay(r: Record, b: Edge)
    requires b in r.marked && (b in r.drawn ==> Out(r.proxied, r.drawn[b].src) == {b}) && Created(r)
    ensures NoWayRound(r, b)
  {
    hide *;
    ProxyOrNone(r, b);
    NoWayOutLeft(r.drawn, r.proxied, r.t.path, b);
    if r.drawn[b].src != r.drawn[b].dst {
      NoTargetNoSecondWay(r, r.t.path[r.drawn[b].src], |r.t.path[r.drawn[b].dst]|);
    }
    NoWayRoundIs(r, b);
  }

  /** On the way round a loop that `b` closes, along the tree path from its target to its source, no vertex has a second
      way on, except above an if or a switch with only one. */
  ghost predicate NoWayRound(r: Record, b: Edge)
  {
    && b in r.drawn && r.drawn[b].src in r.t.path && r.drawn[b].dst in r.t.path
    && (r.drawn[b].src != r.drawn[b].dst ==>
          NoSecondWay(r.drawn, r.t.path[r.drawn[b].src], |r.t.path[r.drawn[b].dst]|))
  }

  lemma NoWayRoundIs(r: Record, b: Edge)
    ensures NoWayRound(r, b) <==>
            && b in r.drawn && r.drawn[b].src in r.t.path && r.drawn[b].dst in r.t.path
            && (r.drawn[b].src != r.drawn[b].dst ==>
                  NoSecondWay(r.drawn, r.t.path[r.drawn[b].src], |r.t.path[r.drawn[b].dst]|))
  {
    hide NoSecondWay;
  }

  /** A mark is only lost where the way round the loop offers no second way on. */
  lemma LostMarkNoWayRound(r: Record, b: Edge)
    requires LostMark(r, b) && Created(r)
    ensures NoWayRound(r, b)
  {
    hide *;
    LostMeans(r, b);
    LostIsGone(r, b);
    MarkedOnlyWay(r, b);
  }

  /** The edge `o` is the other way out of an if or a switch at position `j` of the tree path from the target of `b` to
      its source, the last such on the path. */
  ghost predicate NearestOtherWay(r: Record, b: Edge, j: nat, o: Edge)
  {
    && b in r.marked && b in r.drawn && r.drawn[b].src in r.t.path && r.drawn[b].dst in r.t.path
    && var p, m := r.t.path[r.drawn[b].src], |r.t.path[r.drawn[b].dst]|;
       && m <= j < |p| && p[j] in r.drawn && o in r.drawn && o != p[j] && r.drawn[o].src == r.drawn[p[j]].src
       && NoSecondWay(r.drawn, p, j + 1)
  }

  /** A proxy stands beside a marked edge that was the only way out, and leads to where the nearest if or switch on the
      way round leads otherwise. */
  lemma ProxyIsSecondWay(r: Record, e: Edge) returns (b: Edge, j: nat, o: Edge, p: nat)
    requires e in r.proxied && e !in r.drawn && Created(r)
    ensures e.kind.Impossible? && b in r.drawn && Out(r.drawn, r.drawn[b].src) == {b}
    ensures r.drawn[b].src == r.proxied[e].src && r.drawn[b].src != r.drawn[b].dst
    ensures NearestOtherWay(r, b, j, o) && o in r.drawn && r.drawn[o].dst == r.proxied[e].dst
    ensures p < |r.c.at| && r.drawn[o].src == r.c.at[p] && DecidesAt(r.c.prog, p)
  {
    hide *;
    ProxyHasEdge(r, e);
    b, j, o := ProxyEdges(r.drawn, r.t.path, r.marked, r.proxied[e]);
    p := DecisionPlace(r, o);
    DecisionsAre(r, p);
    NothingNearer(r, r.t.path[r.drawn[b].src], j);
    NearestIs(r, b, j, o);
  }

  lemma NearestIs(r: Record, b: Edge, j: nat, o: Edge)
    ensures NearestOtherWay(r, b, j, o) <==>
            && b in r.marked && b in r.drawn && r.drawn[b].src in r.t.path && r.drawn[b].dst in r.t.path
            && var p, m := r.t.path[r.drawn[b].src], |r.t.path[r.drawn[b].dst]|;
               && m <= j < |p| && p[j] in r.drawn && o in r.drawn && o != p[j] && r.drawn[o].src == r.drawn[p[j]].src
               && NoSecondWay(r.drawn, p, j + 1)
  {
    hide NoSecondWay;
  }

  lemma ProxyEdges(g: Arcs, path: map<Vertex, seq<Edge>>, marked: set<Edge>, arc: Arc<Vertex>)
    returns (b: Edge, j: nat, o: Edge)
    requires IsProxy(g, path, marked, arc)
    ensures b in marked && b in g && g[b].src == arc.src && g[b].src != g[b].dst && Out(g, g[b].src) == {b}
    ensures g[b].src in path && g[b].dst in path && InGraph(g, path[g[b].src])
    ensures |path[g[b].dst]| <= j < |path[g[b].src]|
    ensures var e := path[g[b].src][j];
            && e in g && o in g && o != e && g[o].src == g[e].src && g[o].src.statement.IsDecision()
            && g[o].dst == arc.dst
    ensures forall i | j < i < |path[g[b].src]| ::
              path[g[b].src][i] in g && !g[path[g[b].src][i]].src.statement.IsDecision()
  {
    b :| b in marked && ProxyFor(g, path, b, arc);
    var p, m := path[g[b].src], |path[g[b].dst]|;
    j :| FirstDecision(g, p, m, j) && OtherWayOut(g, p[j], Some(arc.dst));
    assert p[j] in p;
    o :| o in Out(g, g[p[j]].src) && o != p[j] && arc.dst == g[o].dst;
    forall i | j < i < |p| ensures p[i] in g && !g[p[i]].src.statement.IsDecision() {
      assert p[i] in p;
    }
  }

  lemma NothingNearer(r: Record, p: seq<Edge>, j: nat)
    requires forall i | j < i < |p| :: p[i] in r.drawn && !r.drawn[p[i]].src.statement.IsDecision()
    requires Created(r)
    ensures NoSecondWay(r.drawn, p, j + 1)
  {
    hide Created, Barren, OtherWay;
    forall i, o | j + 1 <= i < |p| && o in r.drawn ensures !OtherWay(r.drawn, p[i], o) {
      if OtherWay(r.drawn, p[i], o) {
        TwoWaysDecide(r, p[i], o);
      }
    }
  }

  lemma ProxyHasEdge(r: Record, e: Edge)
    requires e in r.proxied && e !in r.drawn && Created(r)
    ensures e.kind.Impossible? && IsProxy(r.drawn, r.t.path, r.marked, r.proxied[e])
  {
    hide Drawn, WellMarked, Contracted, OneWayIn, DegreesKept, RedundantIn, ProxyOrNoWayOut, IsProxy;
    assert e in r.proxied.Keys - r.drawn.Keys;
  }

  /** An edge out of a decision leaves a vertex of the list. */
  lemma DecisionPlace(r: Record, o: Edge) returns (p: nat)
    requires o in r.drawn && r.drawn[o].src.statement.IsDecision() && Created(r)
    ensures p < |r.c.at| && r.drawn[o].src == r.c.at[p]
  {
    hide *;
    CreatedDrawn(r);
    DrawnLinked(r.c, r.orig, r.drawn, r.entrySelf, r.exitSelf);
    DrawnStatements(r.c, r.orig, r.drawn, r.entrySelf, r.exitSelf);
    if r.drawn[o].src in Elements(r.c.at) {
      p := PlaceAmong(r.c.at, r.drawn[o].src);
    } else if o in r.c.g {
      DrawnSubgraph(r.c, r.orig, r.drawn, r.entrySelf, r.exitSelf);
      SubgraphAt(r.c.g, r.drawn, o);
      SourceListed(r.c, o);
    } else {
      UnlistedIsJump(r.c, r.orig, r.drawn, r.entrySelf, r.exitSelf, o);
    }
  }

  lemma PlaceAmong(at: seq<Vertex>, v: Vertex) returns (p: nat)
    requires v in Elements(at)
    ensures p < |at| && at[p] == v
  {
    p :| p < |at| && at[p] == v;
  }

  lemma UnlistedIsJump(c: Building, orig: seq<Vertex>, g: Arcs, entrySelf: Edge, exitSelf: Edge, e: Edge)
    requires Drawn(c, orig, g, entrySelf, exitSelf) && e in g && e !in c.g && g[e].src !in Elements(c.at)
    ensures !g[e].src.statement.IsDecision()
  {
    hide Linked, Placed, LeftWithoutWayIn;
    assert |c.at| == |c.prog| + 2;
    assert c.at[0] in c.at && c.at[|c.prog| + 1] in c.at;
    assert IsPatchIn(c, orig, g, e);
    var q :| 0 < q <= |c.prog| && q < |orig| && IsFlow(c.prog, q - 1) && g[e] == Arc(orig[q - 1], orig[q]);
    assert orig[q - 1].statement == c.prog[q - 2];
  }

  // ----- What is removed -----

  /** A goto, or a label whose name the compiler made up. */
  ghost predicate CanGo(s: Statement)
  {
    s == Goto || exists name: string :: s == Label("<" + name)
  }

  lemma CandidatesAre(s: Statement)
    ensures s.IsRedundancyCandidate() <==> CanGo(s)
  {
    if s.Label? && s.name != "" && s.name[0] == '<' {
      assert s.name == "<" + s.name[1..];
    }
  }

  /** Removed are exactly the gotos and made-up labels with one way in and one way out. */
  lemma GoneExactly(r: Record)
    requires Created(r)
    ensures r.gone == set v | v in Elements(r.c.at) && CanGo(v.statement)
                              && |In(r.proxied, v)| == 1 && |Out(r.proxied, v)| == 1
  {
    hide *;
    CreatedDrawn(r);
    RedundantAre(r.proxied, Elements(r.c.at));
  }

  lemma RedundantAre(g: Arcs, vertices: set<Vertex>)
    ensures RedundantIn(g, vertices) ==
            set v | v in vertices && CanGo(v.statement) && |In(g, v)| == 1 && |Out(g, v)| == 1
  {
    hide CanGo, Out, In;
    forall v: Vertex | v in vertices ensures v.statement.IsRedundancyCandidate() <==> CanGo(v.statement) {
      CandidatesAre(v.statement);
    }
  }

  /** A label of any other name stays, and no vertex is left that could still go. */
  lemma NothingLeftToGo(r: Record, v: Vertex)
    requires v in Elements(r.c.at) && Created(r)
    ensures v.statement.Label? && !CanGo(v.statement) ==> v !in r.gone
    ensures v !in r.gone && CanGo(v.statement) ==> |In(r.final, v)| != 1 || |Out(r.final, v)| != 1
  {
    hide *;
    GoneExactly(r);
    if v !in r.gone {
      DegreesStay(r, v);
    }
  }

  lemma DegreesStay(r: Record, v: Vertex)
    requires v in Elements(r.c.at) && v !in r.gone && Created(r)
    ensures |In(r.final, v)| == |In(r.proxied, v)| && Out(r.final, v) == Out(r.proxied, v)
  {
    hide Drawn, WellMarked, ProxiesOk, Contracted, OneWayIn, RedundantIn, In, Out;
  }
}
