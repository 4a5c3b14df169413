/** Where each kind of statement leads, spelled out by the labels it names. */
module Jumps {
  import opened Graphs
  import opened Programs
  import opened Construction
  import opened ControlFlowGraphs
  import opened Meaning

  /** The name stands for this position: the last label of that name, or EXIT if no label is called that. */
  ghost predicate Names(prog: Program, l: string, q: nat)
  {
    || (IsLabelAt(prog, l, q) && forall p: nat | IsLabelAt(prog, l, p) :: p <= q)
    || (l == "EXIT" && q == |prog| + 1 && forall p: nat :: !IsLabelAt(prog, l, p))
  }

  ghost predicate NamesNothing(prog: Program, l: string)
  {
    forall q: nat :: !Names(prog, l, q)
  }

  lemma NamesIs(prog: Program, l: string, q: nat)
    ensures Names(prog, l, q) <==> l in LabelMap(prog) && LabelMap(prog)[l] == q
  {
    hide Labels;
    LabelsLastWins(prog, |prog|, l);
    LabelsInRange(prog, |prog|);
  }

  lemma NamesNothingIs(prog: Program, l: string)
    ensures NamesNothing(prog, l) <==> l !in LabelMap(prog)
  {
    hide Names, LabelMap;
    if l in LabelMap(prog) {
      NamesIs(prog, l, LabelMap(prog)[l]);
    }
    forall q: nat ensures Names(prog, l, q) ==> l in LabelMap(prog) {
      NamesIs(prog, l, q);
    }
  }

  // ----- Kind by kind -----

  lemma GotoLeads(prog: Program, p: nat, l: string)
    requires 0 < p <= |prog| && prog[p - 1] == GotoUnlinked(l)
    ensures forall q: nat | Names(prog, l, q) :: Ways(prog, p) == [Way(Fallthrough, q)]
    ensures NamesNothing(prog, l) ==> Ways(prog, p) == []
  {
    hide Names, LabelMap;
    forall q: nat ensures Names(prog, l, q) <==> l in LabelMap(prog) && LabelMap(prog)[l] == q {
      NamesIs(prog, l, q);
    }
    NamesNothingIs(prog, l);
  }

  /** A return leads to EXIT, unless a label took its name. */
  lemma ReturnLeads(prog: Program, p: nat)
    requires 0 < p <= |prog| && prog[p - 1] == ReturnUnlinked
    ensures |Ways(prog, p)| == 1 && Ways(prog, p)[0].kind == Fallthrough && Names(prog, "EXIT", Ways(prog, p)[0].to)
    ensures (forall q: nat :: !IsLabelAt(prog, "EXIT", q)) ==> Ways(prog, p) == [Way(Fallthrough, |prog| + 1)]
  {
    hide LabelMap;
    LabelMapIsAll(prog);
    LabelsInRange(prog, |prog|);
    NamesIs(prog, "EXIT", LabelMap(prog)["EXIT"]);
  }

  lemma LabelMapIsAll(prog: Program)
    ensures LabelMap(prog) == Labels(prog, |prog|)
  {
  }

  /** An if leads to both its labels, or is stuck. */
  lemma IfLeads(prog: Program, p: nat, t: string, f: string)
    requires 0 < p <= |prog| && prog[p - 1] == IfUnlinked(t, f)
    ensures forall a: nat, b: nat | Names(prog, t, a) && Names(prog, f, b) ::
              Ways(prog, p) == [Way(IfTrue, a), Way(IfFalse, b)]
    ensures NamesNothing(prog, t) || NamesNothing(prog, f) ==> Ways(prog, p) == []
  {
    hide Names, LabelMap;
    forall q: nat
      ensures Names(prog, t, q) <==> t in LabelMap(prog) && LabelMap(prog)[t] == q
      ensures Names(prog, f, q) <==> f in LabelMap(prog) && LabelMap(prog)[f] == q
    {
      NamesIs(prog, t, q);
      NamesIs(prog, f, q);
    }
    NamesNothingIs(prog, t);
    NamesNothingIs(prog, f);
  }

  /** A switch leads to the labels of its cases, case by case in their order; cases without a label are left out. */
  ghost predicate CasesLead(prog: Program, cases: seq<string>, ways: seq<Way>)
  {
    if cases == [] then ways == []
    else
      var n, last := |cases| - 1, cases[|cases| - 1];
      if NamesNothing(prog, last) then CasesLead(prog, cases[..n], ways)
      else
        && ways != [] && ways[|ways| - 1].kind == Fallthrough && Names(prog, last, ways[|ways| - 1].to)
        && CasesLead(prog, cases[..n], ways[..|ways| - 1])
  }

  lemma {:induction false} CaseWaysLead(prog: Program, cases: seq<string>)
    ensures CasesLead(prog, cases, CaseWays(LabelMap(prog), cases))
  {
    hide Names, NamesNothing, LabelMap;
    if cases != [] {
      var n, last, ways := |cases| - 1, cases[|cases| - 1], CaseWays(LabelMap(prog), cases);
      CaseWaysLead(prog, cases[..n]);
      NamesNothingIs(prog, last);
      if last in LabelMap(prog) {
        NamesIs(prog, last, LabelMap(prog)[last]);
        assert ways[..|ways| - 1] == CaseWays(LabelMap(prog), cases[..n]);
      } else {
        assert ways == CaseWays(LabelMap(prog), cases[..n]);
      }
    }
  }

  lemma SwitchLeads(prog: Program, p: nat, cases: seq<string>)
    requires 0 < p <= |prog| && prog[p - 1] == SwitchUnlinked(cases)
    ensures CasesLead(prog, cases, Ways(prog, p))
  {
    hide CasesLead, Labels;
    CaseWaysLead(prog, cases);
  }

  /** A case outside a switch leads nowhere. */
  lemma CaseLeads(prog: Program, p: nat, l: string)
    requires 0 < p <= |prog| && prog[p - 1] == CaseUnlinked(l)
    ensures Ways(prog, p) == []
  {
  }

  /** ENTRY, and every statement that is no jump, leads to the next position. */
  lemma OthersFallThrough(prog: Program, p: nat)
    requires p <= |prog|
    requires p > 0 ==> prog[p - 1].Entry? || prog[p - 1].Exit? || prog[p - 1].Plain? || prog[p - 1].Label?
                       || prog[p - 1].CallUnresolved? || prog[p - 1].CallResolved? || prog[p - 1].Goto?
                       || prog[p - 1].If? || prog[p - 1].Switch?
    ensures Ways(prog, p) == [Way(Fallthrough, p + 1)]
  {
  }

  // ----- In the graph -----

  /** The labels that a jump names; a return names EXIT. */
  function NamedBy(s: Statement): set<string>
  {
    match s
    case GotoUnlinked(l) => {l}
    case ReturnUnlinked => {"EXIT"}
    case IfUnlinked(t, f) => {t, f}
    case SwitchUnlinked(cases) => set l | l in cases
    case _ => {}
  }

  ghost predicate LeadsToNamed(prog: Program, s: Statement, q: nat)
  {
    exists l :: l in NamedBy(s) && Names(prog, l, q)
  }

  lemma {:induction false} CaseIsNamed(prog: Program, cases: seq<string>, ways: seq<Way>, j: nat)
    requires CasesLead(prog, cases, ways) && j < |ways|
    ensures exists l :: l in cases && Names(prog, l, ways[j].to)
  {
    hide Names, NamesNothing;
    var n := |cases| - 1;
    if NamesNothing(prog, cases[n]) {
      CaseIsNamed(prog, cases[..n], ways, j);
    } else if j < |ways| - 1 {
      CaseIsNamed(prog, cases[..n], ways[..|ways| - 1], j);
    }
  }

  /** Every way on from a jump leads to a label that it names. */
  lemma JumpLeadsToNamed(prog: Program, p: nat, j: nat)
    requires 0 < p <= |prog| && j < |Ways(prog, p)|
    requires var s := prog[p - 1];
             s.GotoUnlinked? || s.ReturnUnlinked? || s.IfUnlinked? || s.CaseUnlinked? || s.SwitchUnlinked?
    ensures LeadsToNamed(prog, prog[p - 1], Ways(prog, p)[j].to)
  {
    hide Names, Ways, CasesLead, Labels, LabelMap;
    match prog[p - 1] {
      case GotoUnlinked(l) =>
        GotoLeads(prog, p, l);
        SomethingNamed(prog, l);
      case ReturnUnlinked =>
        ReturnLeads(prog, p);
      case IfUnlinked(t, f) =>
        IfLeads(prog, p, t, f);
        SomethingNamed(prog, t);
        SomethingNamed(prog, f);
      case CaseUnlinked(l) =>
        CaseLeads(prog, p, l);
      case SwitchUnlinked(cases) =>
        SwitchLeads(prog, p, cases);
        CaseIsNamed(prog, cases, Ways(prog, p), j);
    }
  }

  lemma SomethingNamed(prog: Program, l: string)
    ensures NamesNothing(prog, l) || exists q: nat :: Names(prog, l, q)
  {
    hide Names;
  }

  /** In a created graph, every edge out of a jump that is not Impossible leads to the vertex of a label that the jump
      names; so none leads to the next position, unless that is such a label. */
  lemma JumpEdgeIsNamed(r: Record, p: nat, e: Edge) returns (q: nat)
    requires 0 < p <= |r.c.prog|
    requires var s := r.c.prog[p - 1];
             s.GotoUnlinked? || s.ReturnUnlinked? || s.IfUnlinked? || s.CaseUnlinked? || s.SwitchUnlinked?
    requires p < |r.c.at| && e in r.drawn && !e.kind.Impossible? && r.drawn[e].src == r.c.at[p] && Created(r)
    ensures q < |r.c.at| && r.drawn[e].dst == r.c.at[q] && LeadsToNamed(r.c.prog, r.c.prog[p - 1], q)
  {
    hide *;
    CreatedDrawn(r);
    DrawnLinked(r.c, r.orig, r.drawn, r.entrySelf, r.exitSelf);
    DrawnSolid(r.c, r.orig, r.drawn, r.entrySelf, r.exitSelf);
    SolidEdge(r.drawn, e);
    q := WayOfEdge(r.c, p, e);
  }

  lemma SolidEdge(g: Arcs, e: Edge)
    requires e in g && !e.kind.Impossible?
    ensures e in SolidArcs(g) && SolidArcs(g)[e] == g[e]
  {
  }

  lemma WayOfEdge(c: Building, p: nat, e: Edge) returns (q: nat)
    requires c.Ok() && 0 < p <= |c.prog| && p < |c.at| && e in c.g && c.g[e].src == c.at[p]
    requires var s := c.prog[p - 1];
             s.GotoUnlinked? || s.ReturnUnlinked? || s.IfUnlinked? || s.CaseUnlinked? || s.SwitchUnlinked?
    ensures q < |c.at| && c.g[e].dst == c.at[q] && LeadsToNamed(c.prog, c.prog[p - 1], q)
  {
    hide Ways, LeadsToNamed, NamedBy;
    assert IsBuilt(c.prog, c.at, c.g[e], e.kind, c.slots[e], c.ways);
    var s := c.slots[e];
    assert s.pos == p;
    q := Ways(c.prog, p)[s.way].to;
    JumpLeadsToNamed(c.prog, p, s.way);
  }
}
