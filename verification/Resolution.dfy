/** Linking the jumps of a function to their labels. */
module Resolution {
  import opened Graphs
  import opened Programs
  import opened Construction

  /** What takes the place of a flow control statement whose label was found. */
  function Resolved(s: Statement): Statement
  {
    match s
    case IfUnlinked(_, _) => If
    case SwitchUnlinked(_) => Switch
    case _ => Goto
  }

  predicate Resolves(prog: Program, p: nat)
  {
    IsFlow(prog, p) && Ways(prog, p) != []
  }

  /** `v` is the flow control statement at position `p`, and none of its ways on has an edge yet. */
  ghost predicate AtJump(c: Building, p: nat, v: Vertex, labelMap: map<string, Vertex>)
  {
    && c.Ok() && IsFlow(c.prog, p) && c.ways[p] == 0
    && v == c.at[p] && v.statement == c.prog[p - 1]
    && LabelsAgree(c.at, LabelMap(c.prog), labelMap)
  }

  /** All ways on from position `p` have their edges now, and nothing else does. */
  ghost predicate Went(c: Building, p: nat, c': Building)
  {
    && c'.Ok() && c'.prog == c.prog && c'.at == c.at
    && p < |c.ways| && p <= |c.prog| && c'.ways == c.ways[p := |Ways(c.prog, p)|]
  }

  lemma JumpNext(c: Building, p: nat, v: Vertex, labelMap: map<string, Vertex>, l: string)
    requires AtJump(c, p, v, labelMap)
    requires v.statement == GotoUnlinked(l) || (v.statement == ReturnUnlinked && l == "EXIT")
    ensures p <= |c.prog| && Ways(c.prog, p) == if l in labelMap then [Way(Fallthrough, LabelMap(c.prog)[l])] else []
    ensures l in labelMap ==> labelMap[l] in c.at && v in c.at && IsNextWay(c, p, Fallthrough, v, labelMap[l])
  {
    hide Labels, CaseWays;
  }

  lemma JumpKinds(c: Building, p: nat, v: Vertex, labelMap: map<string, Vertex>)
    requires AtJump(c, p, v, labelMap)
    ensures p <= |c.prog| && v.statement.IsFlowControlUnlinked() && c.Ok()
  {
  }

  lemma WentOne(c: Building, p: nat, v: Vertex, labelMap: map<string, Vertex>, c': Building)
    requires AtJump(c, p, v, labelMap) && |Ways(c.prog, p)| == 1
    requires c'.Ok() && c'.prog == c.prog && c'.at == c.at
    requires p < |c.ways| && c'.ways == c.ways[p := c.ways[p] + 1]
    ensures Went(c, p, c')
  {
  }

  lemma WentNowhere(c: Building, p: nat, v: Vertex, labelMap: map<string, Vertex>)
    requires AtJump(c, p, v, labelMap) && |Ways(c.prog, p)| == 0
    ensures Went(c, p, c)
  {
    assert c.ways == c.ways[p := 0];
  }

  /** The original returns a null pointer where the label is missing. */
  method ResolveJump(graph: Graph, v: Vertex, l: string, labelMap: map<string, Vertex>, ghost vs: set<Vertex>,
                     ghost c: Building, ghost p: nat)
    returns (replacement: Vertex?, ghost c': Building)
    requires Represents(vs, c.g) && graph.edges == c.g.Keys && Unmarked(c.g.Keys) && (forall u | u in c.at :: u in vs)
    requires AtJump(c, p, v, labelMap) && p <= |c.prog|
    requires v.statement == GotoUnlinked(l) || (v.statement == ReturnUnlinked && l == "EXIT")
    modifies graph`edges, vs`inEdges, vs`outEdges
    ensures Represents(vs, c'.g) && graph.edges == c'.g.Keys && Unmarked(c'.g.Keys) && fresh(c'.g.Keys - c.g.Keys)
    ensures Went(c, p, c') && (replacement == null <==> Ways(c.prog, p) == [])
    ensures replacement != null ==>
              && fresh(replacement) && replacement.statement == Goto && replacement.inEdges == {}
              && replacement.outEdges == {}
  {
    hide *;
    JumpKinds(c, p, v, labelMap);
    JumpNext(c, p, v, labelMap, l);
    if l !in labelMap {
      WentNowhere(c, p, v, labelMap);
      return null, c;
    }
    c' := AddWay(graph, v, labelMap[l], Fallthrough, vs, c, p);
    WentOne(c, p, v, labelMap, c');
    replacement := new Vertex(Goto);
  }

  lemma IfNext(c: Building, p: nat, v: Vertex, labelMap: map<string, Vertex>)
    requires AtJump(c, p, v, labelMap) && v.statement.IfUnlinked?
    ensures var t, f := v.statement.onTrue, v.statement.onFalse;
            && p <= |c.prog|
            && (t !in labelMap || f !in labelMap ==> Ways(c.prog, p) == [])
            && (t in labelMap && f in labelMap ==>
                  && |Ways(c.prog, p)| == 2 && v in c.at && labelMap[t] in c.at && labelMap[f] in c.at
                  && IsNextWay(c, p, IfTrue, v, labelMap[t]))
  {
    hide Labels, CaseWays;
  }

  lemma IfNextFalse(c: Building, p: nat, v: Vertex, labelMap: map<string, Vertex>, c1: Building)
    requires AtJump(c, p, v, labelMap) && v.statement.IfUnlinked?
    requires v.statement.onTrue in labelMap && v.statement.onFalse in labelMap
    requires c1.Ok() && c1.prog == c.prog && c1.at == c.at
    requires p < |c.ways| && c1.ways == c.ways[p := c.ways[p] + 1]
    ensures IsNextWay(c1, p, IfFalse, v, labelMap[v.statement.onFalse])
  {
    hide Labels, CaseWays, Built, Placed;
  }

  lemma WentTwo(c: Building, p: nat, v: Vertex, labelMap: map<string, Vertex>, c1: Building, c': Building)
    requires AtJump(c, p, v, labelMap) && |Ways(c.prog, p)| == 2
    requires c1.Ok() && c1.prog == c.prog && c1.at == c.at
    requires p < |c.ways| && c1.ways == c.ways[p := c.ways[p] + 1]
    requires c'.Ok() && c'.prog == c1.prog && c'.at == c1.at && c'.ways == c1.ways[p := c1.ways[p] + 1]
    ensures Went(c, p, c')
  {
    assert c'.ways == c.ways[p := 2];
  }

  method ResolveIf(graph: Graph, v: Vertex, labelMap: map<string, Vertex>, ghost vs: set<Vertex>, ghost c: Building,
                   ghost p: nat)
    returns (replacement: Vertex?, ghost c': Building)
    requires Represents(vs, c.g) && graph.edges == c.g.Keys && Unmarked(c.g.Keys) && (forall u | u in c.at :: u in vs)
    requires AtJump(c, p, v, labelMap) && p <= |c.prog| && v.statement.IfUnlinked?
    modifies graph`edges, vs`inEdges, vs`outEdges
    ensures Represents(vs, c'.g) && graph.edges == c'.g.Keys && Unmarked(c'.g.Keys) && fresh(c'.g.Keys - c.g.Keys)
    ensures Went(c, p, c') && (replacement == null <==> Ways(c.prog, p) == [])
    ensures replacement != null ==>
              && fresh(replacement) && replacement.statement == If && replacement.inEdges == {}
              && replacement.outEdges == {}
  {
    hide *;
    JumpKinds(c, p, v, labelMap);
    var t, f := v.statement.onTrue, v.statement.onFalse;
    IfNext(c, p, v, labelMap);
    if t !in labelMap || f !in labelMap {
      WentNowhere(c, p, v, labelMap);
      return null, c;
    }
    ghost var c1 := AddWay(graph, v, labelMap[t], IfTrue, vs, c, p);
    IfNextFalse(c, p, v, labelMap, c1);
    c' := AddWay(graph, v, labelMap[f], IfFalse, vs, c1, p);
    WentTwo(c, p, v, labelMap, c1, c');
    replacement := new Vertex(If);
  }

  lemma {:induction false} CaseWaysPrefix(labels: map<string, nat>, cases: seq<string>, i: nat)
    requires i <= |cases|
    ensures CaseWays(labels, cases[..i]) <= CaseWays(labels, cases)
    decreases |cases|
  {
    if i < |cases| {
      CaseWaysPrefix(labels, cases[..|cases| - 1], i);
      assert cases[..|cases| - 1][..i] == cases[..i];
    } else {
      assert cases[..i] == cases;
    }
  }

  /** The first `i` cases of the switch have been looked up. */
  ghost predicate SwitchedTo(c0: Building, p: nat, cases: seq<string>, i: nat, c: Building)
    requires i <= |cases|
  {
    && c.Ok() && c.prog == c0.prog && c.at == c0.at
    && p < |c0.ways| && c.ways == c0.ways[p := |CaseWays(LabelMap(c.prog), cases[..i])|]
  }

  lemma SwitchStart(c: Building, p: nat, v: Vertex, labelMap: map<string, Vertex>)
    requires AtJump(c, p, v, labelMap) && v.statement.SwitchUnlinked?
    ensures SwitchedTo(c, p, v.statement.cases, 0, c) && v in c.at
  {
    hide Labels;
    assert c.ways == c.ways[p := 0];
    assert v.statement.cases[..0] == [];
  }

  lemma CaseNext(c0: Building, p: nat, v: Vertex, labelMap: map<string, Vertex>, i: nat, c: Building)
    requires AtJump(c0, p, v, labelMap) && v.statement.SwitchUnlinked?
    requires i < |v.statement.cases| && SwitchedTo(c0, p, v.statement.cases, i, c)
    ensures var l := v.statement.cases[i];
            if l in labelMap then
              && labelMap[l] in c0.at && IsNextWay(c, p, Fallthrough, v, labelMap[l])
              && |CaseWays(LabelMap(c.prog), v.statement.cases[..i + 1])| ==
                 |CaseWays(LabelMap(c.prog), v.statement.cases[..i])| + 1
            else SwitchedTo(c0, p, v.statement.cases, i + 1, c)
  {
    hide Labels, Built, Placed;
    var cases, labels := v.statement.cases, LabelMap(c.prog);
    CaseWaysPrefix(labels, cases, i + 1);
    assert cases[..i + 1][..i] == cases[..i];
  }

  lemma CaseAdded(c0: Building, p: nat, cases: seq<string>, i: nat, c: Building, c': Building)
    requires i < |cases| && SwitchedTo(c0, p, cases, i, c)
    requires |CaseWays(LabelMap(c.prog), cases[..i + 1])| == |CaseWays(LabelMap(c.prog), cases[..i])| + 1
    requires c'.Ok() && c'.prog == c.prog && c'.at == c.at && p < |c.ways| && c'.ways == c.ways[p := c.ways[p] + 1]
    ensures SwitchedTo(c0, p, cases, i + 1, c')
  {
    hide Labels, CaseWays, Built, Placed;
    assert c'.ways == c0.ways[p := c.ways[p] + 1];
  }

  lemma SwitchDone(c0: Building, p: nat, v: Vertex, labelMap: map<string, Vertex>, c: Building)
    requires AtJump(c0, p, v, labelMap) && v.statement.SwitchUnlinked?
    requires SwitchedTo(c0, p, v.statement.cases, |v.statement.cases|, c)
    ensures Went(c0, p, c) && |CaseWays(LabelMap(c.prog), v.statement.cases)| == |Ways(c.prog, p)|
  {
    hide Labels, CaseWays, Built, Placed;
    assert v.statement.cases[..|v.statement.cases|] == v.statement.cases;
  }

  lemma SwitchMeans(c0: Building, p: nat, cases: seq<string>, i: nat, c: Building)
    requires i <= |cases| && SwitchedTo(c0, p, cases, i, c)
    ensures c.Ok() && c.prog == c0.prog && c.at == c0.at
  {
  }

  method ResolveSwitch(graph: Graph, v: Vertex, labelMap: map<string, Vertex>, ghost vs: set<Vertex>,
                       ghost c0: Building, ghost p: nat)
    returns (replacement: Vertex?, ghost c: Building)
    requires Represents(vs, c0.g) && graph.edges == c0.g.Keys && Unmarked(c0.g.Keys)
    requires (forall u | u in c0.at :: u in vs)
    requires AtJump(c0, p, v, labelMap) && p <= |c0.prog| && v.statement.SwitchUnlinked?
    modifies graph`edges, vs`inEdges, vs`outEdges
    ensures Represents(vs, c.g) && graph.edges == c.g.Keys && Unmarked(c.g.Keys) && fresh(c.g.Keys - c0.g.Keys)
    ensures Went(c0, p, c) && (replacement == null <==> Ways(c0.prog, p) == [])
    ensures replacement != null ==>
              && fresh(replacement) && replacement.statement == Switch && replacement.inEdges == {}
              && replacement.outEdges == {}
  {
    hide *;
    c := c0;
    SwitchStart(c, p, v, labelMap);
    NoCases(LabelMap(c0.prog), v.statement.cases);
    var resolvedAnyLinks := false;
    var i := 0;
    while i < |v.statement.cases|
      invariant i <= |v.statement.cases| && SwitchedTo(c0, p, v.statement.cases, i, c)
      invariant Represents(vs, c.g) && graph.edges == c.g.Keys && Unmarked(c.g.Keys) && fresh(c.g.Keys - c0.g.Keys)
      invariant resolvedAnyLinks <==> |CaseWays(LabelMap(c0.prog), v.statement.cases[..i])| > 0
    {
      var l := v.statement.cases[i];
      SwitchMeans(c0, p, v.statement.cases, i, c);
      CaseNext(c0, p, v, labelMap, i, c);
      CaseMissing(LabelMap(c0.prog), v.statement.cases, i);
      LabelsFound(c0, p, v, labelMap);
      if l in labelMap {
        ghost var before := c;
        c := AddWay(graph, v, labelMap[l], Fallthrough, vs, c, p);
        CaseAdded(c0, p, v.statement.cases, i, before, c);
        resolvedAnyLinks := true;
      }
      i := i + 1;
    }
    SwitchMeans(c0, p, v.statement.cases, i, c);
    SwitchDone(c0, p, v, labelMap, c);
    assert v.statement.cases[..i] == v.statement.cases;
    if resolvedAnyLinks {
      replacement := new Vertex(Switch);
    } else {
      replacement := null;
    }
  }

  lemma NoCases(labels: map<string, nat>, cases: seq<string>)
    ensures CaseWays(labels, cases[..0]) == []
  {
  }

  lemma CaseMissing(labels: map<string, nat>, cases: seq<string>, i: nat)
    requires i < |cases|
    ensures cases[i] !in labels ==> CaseWays(labels, cases[..i + 1]) == CaseWays(labels, cases[..i])
  {
    assert cases[..i + 1][..i] == cases[..i];
  }

  lemma LabelsFound(c: Building, p: nat, v: Vertex, labelMap: map<string, Vertex>)
    requires AtJump(c, p, v, labelMap)
    ensures labelMap.Keys == LabelMap(c.prog).Keys
  {
  }

  lemma CaseLeadsNowhere(c: Building, p: nat, v: Vertex, labelMap: map<string, Vertex>)
    requires AtJump(c, p, v, labelMap) && v.statement.CaseUnlinked?
    ensures p <= |c.prog| && Ways(c.prog, p) == []
  {
    hide Labels, CaseWays;
  }

  /** Gives a flow control statement its edges, and the vertex that is to replace it, unless it leads nowhere. */
  method ResolveLinks(graph: Graph, v: Vertex, labelMap: map<string, Vertex>, ghost vs: set<Vertex>, ghost c: Building,
                      ghost p: nat)
    returns (replacement: Vertex?, ghost c': Building)
    requires Represents(vs, c.g) && graph.edges == c.g.Keys && Unmarked(c.g.Keys) && (forall u | u in c.at :: u in vs)
    requires AtJump(c, p, v, labelMap)
    modifies graph`edges, vs`inEdges, vs`outEdges
    ensures Represents(vs, c'.g) && graph.edges == c'.g.Keys && Unmarked(c'.g.Keys) && fresh(c'.g.Keys - c.g.Keys)
    ensures p <= |c.prog| && Went(c, p, c') && (replacement == null <==> Ways(c.prog, p) == [])
    ensures replacement != null ==>
              && fresh(replacement) && replacement.statement == Resolved(v.statement)
              && replacement.inEdges == {} && replacement.outEdges == {}
  {
    hide *;
    JumpKinds(c, p, v, labelMap);
    match v.statement {
      case GotoUnlinked(l) =>
        replacement, c' := ResolveJump(graph, v, l, labelMap, vs, c, p);
      case ReturnUnlinked =>
        replacement, c' := ResolveJump(graph, v, "EXIT", labelMap, vs, c, p);
      case IfUnlinked(_, _) =>
        replacement, c' := ResolveIf(graph, v, labelMap, vs, c, p);
      case SwitchUnlinked(_) =>
        replacement, c' := ResolveSwitch(graph, v, labelMap, vs, c, p);
      case CaseUnlinked(_) =>
        CaseLeadsNowhere(c, p, v, labelMap);
        WentNowhere(c, p, v, labelMap);
        replacement, c' := null, c;
    }
    ResolvedIs(v.statement);
  }

  lemma ResolvedIs(s: Statement)
    ensures s.IfUnlinked? ==> Resolved(s) == If
    ensures s.SwitchUnlinked? ==> Resolved(s) == Switch
    ensures s.GotoUnlinked? || s.ReturnUnlinked? ==> Resolved(s) == Goto
  {
  }
}
