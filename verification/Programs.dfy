/** What a statement list means, and when a graph over its statements represents it. Position 0 is ENTRY,
    position p > 0 the p-th statement, and the position after the last statement is EXIT. */
module Programs {
  import opened Walks
  import opened Graphs

  type Program = seq<Statement>

  function ExitPosition(prog: Program): nat
  {
    |prog| + 1
  }

  // ----- Labels -----

  /** Labels and their positions among the first `k` statements: a later label of the same name wins, and a label
      EXIT wins over the EXIT vertex. */
  function Labels(prog: Program, k: nat): map<string, nat>
    requires k <= |prog|
  {
    if k == 0 then map["EXIT" := ExitPosition(prog)]
    else
      var before := Labels(prog, k - 1);
      if prog[k - 1].Label? then before[prog[k - 1].name := k] else before
  }

  function LabelMap(prog: Program): map<string, nat>
  {
    Labels(prog, |prog|)
  }

  ghost predicate IsLabelAt(prog: Program, l: string, p: nat)
  {
    0 < p <= |prog| && prog[p - 1] == Label(l)
  }

  /** A name stands for the last label of that name; without one, only EXIT stands for anything. */
  lemma {:induction false} LabelsLastWins(prog: Program, k: nat, l: string)
    requires k <= |prog|
    ensures forall p: nat | IsLabelAt(prog, l, p) && p <= k :: l in Labels(prog, k) && p <= Labels(prog, k)[l]
    ensures l in Labels(prog, k) ==>
              || (IsLabelAt(prog, l, Labels(prog, k)[l]) && Labels(prog, k)[l] <= k)
              || (l == "EXIT" && Labels(prog, k)[l] == ExitPosition(prog)
                  && forall p: nat | IsLabelAt(prog, l, p) :: p > k)
  {
    if k > 0 {
      LabelsLastWins(prog, k - 1, l);
    }
  }

  // ----- The list machine -----

  /** A way on from a position: the kind of edge and the position it leads to. */
  datatype Way = Way(kind: EdgeKind, to: nat)

  predicate IsFlow(prog: Program, p: nat)
  {
    0 < p <= |prog| && prog[p - 1].IsFlowControlUnlinked()
  }

  function CaseWays(labels: map<string, nat>, cases: seq<string>): seq<Way>
  {
    if cases == [] then []
    else
      CaseWays(labels, cases[..|cases| - 1]) +
      if cases[|cases| - 1] in labels then [Way(Fallthrough, labels[cases[|cases| - 1]])] else []
  }

  /** Where control can go from position `p`. A jump without its label is stuck, an if needs both its labels, and a
      switch has the cases whose labels exist. */
  function Ways(prog: Program, p: nat): seq<Way>
    requires p <= |prog|
  {
    if !IsFlow(prog, p) then [Way(Fallthrough, p + 1)]
    else
      var labels := LabelMap(prog);
      match prog[p - 1]
      case GotoUnlinked(l) => if l in labels then [Way(Fallthrough, labels[l])] else []
      case ReturnUnlinked => if "EXIT" in labels then [Way(Fallthrough, labels["EXIT"])] else []
      case IfUnlinked(t, f) =>
        if t in labels && f in labels then [Way(IfTrue, labels[t]), Way(IfFalse, labels[f])] else []
      case SwitchUnlinked(cases) => CaseWays(labels, cases)
      case _ => []
  }

  /** One step of a run: the way taken from a position. */
  datatype Slot = Slot(pos: nat, way: nat)

  ghost predicate IsSlot(prog: Program, s: Slot)
  {
    s.pos <= |prog| && s.way < |Ways(prog, s.pos)|
  }

  /** The machine as a graph over positions. Its runs are the walks from position 0. */
  ghost function Machine(prog: Program): map<Slot, Arc<nat>>
  {
    map p: nat, j: nat | p <= |prog| && j < |Ways(prog, p)| :: Slot(p, j) := Arc(p, Ways(prog, p)[j].to)
  }

  lemma {:induction false} LabelsInRange(prog: Program, k: nat)
    requires k <= |prog|
    ensures forall l | l in Labels(prog, k) ::
              0 < Labels(prog, k)[l] <= ExitPosition(prog) && !IsFlow(prog, Labels(prog, k)[l])
    ensures "EXIT" in Labels(prog, k)
  {
    if k > 0 {
      LabelsInRange(prog, k - 1);
    }
  }

  /** Control stays inside the list, never comes back to ENTRY, and enters a flow control statement only from the
      statement before it. */
  lemma {:induction false} CaseWaysInRange(prog: Program, cases: seq<string>)
    ensures forall w | w in CaseWays(LabelMap(prog), cases) ::
              w.kind.Fallthrough? && 0 < w.to <= ExitPosition(prog) && !IsFlow(prog, w.to)
  {
    LabelsInRange(prog, |prog|);
    if cases != [] {
      CaseWaysInRange(prog, cases[..|cases| - 1]);
    }
  }

  lemma WaysInRange(prog: Program, p: nat, j: nat)
    requires p <= |prog| && j < |Ways(prog, p)|
    ensures 0 < Ways(prog, p)[j].to <= ExitPosition(prog)
    ensures Ways(prog, p)[j].kind in {Fallthrough, IfTrue, IfFalse}
    ensures IsFlow(prog, Ways(prog, p)[j].to) ==> !IsFlow(prog, p) && Ways(prog, p)[j].to == p + 1
  {
    LabelsInRange(prog, |prog|);
    if IsFlow(prog, p) && prog[p - 1].SwitchUnlinked? {
      CaseWaysInRange(prog, prog[p - 1].cases);
      assert Ways(prog, p)[j] in CaseWays(LabelMap(prog), prog[p - 1].cases);
    }
  }

  // ----- Graphs that represent a list -----


  /** The vertices of the positions: ENTRY, the statements and EXIT, no vertex twice. */
  ghost predicate Placed(prog: Program, at: seq<Vertex>)
  {
    && |at| == |prog| + 2
    && forall p, q | 0 <= p < q < |at| :: at[p] != at[q]
  }

  ghost predicate WaysWithin(prog: Program, ways: seq<nat>)
  {
    |ways| == |prog| + 1 && forall p | 0 <= p < |ways| :: ways[p] <= |Ways(prog, p)|
  }

  /** The edges of `g` are, one to one, the ways on from each position, of which the first `ways[p]` are there. */
  ghost predicate Built(prog: Program, at: seq<Vertex>, g: Arcs, slots: map<Edge, Slot>, ways: seq<nat>)
    requires Placed(prog, at)
  {
    && WaysWithin(prog, ways)
    && slots.Keys == g.Keys
    && (forall e | e in g :: IsBuilt(prog, at, g[e], e.kind, slots[e], ways))
    && (forall e, f | e in slots && f in slots && e != f :: slots[e] != slots[f])
    && (forall p: nat, j: nat | p < |ways| && j < ways[p] :: HasSlot(slots, Slot(p, j)))
  }

  ghost predicate HasSlot(slots: map<Edge, Slot>, s: Slot)
  {
    exists e :: e in slots && slots[e] == s
  }

  ghost predicate IsBuilt(prog: Program, at: seq<Vertex>, arc: Arc<Vertex>, kind: EdgeKind, s: Slot, ways: seq<nat>)
    requires |at| == |prog| + 2 && WaysWithin(prog, ways)
  {
    && s.pos <= |prog| && s.way < ways[s.pos]
    && var w := Ways(prog, s.pos)[s.way];
    w.to < |at| && kind == w.kind && arc == Arc(at[s.pos], at[w.to])
  }

  lemma BuiltNothing(prog: Program, at: seq<Vertex>) returns (ways: seq<nat>)
    requires Placed(prog, at)
    ensures ways == seq(|prog| + 1, i => 0)
    ensures Built(prog, at, map[], map[], ways)
  {
    ways := seq(|prog| + 1, i => 0);
  }

  /** The next way on from position `p` gets its edge. */
  lemma BuiltAdd(prog: Program, at: seq<Vertex>, g: Arcs, slots: map<Edge, Slot>, ways: seq<nat>, p: nat, e: Edge,
                 arc: Arc<Vertex>)
    requires Placed(prog, at) && Built(prog, at, g, slots, ways)
    requires e !in g && p <= |prog| && ways[p] < |Ways(prog, p)|
    requires var w := Ways(prog, p)[ways[p]]; w.to < |at| && e.kind == w.kind && arc == Arc(at[p], at[w.to])
    ensures Built(prog, at, g[e := arc], slots[e := Slot(p, ways[p])], ways[p := ways[p] + 1])
  {
    hide Ways, Placed, IsBuilt, HasSlot, WaysWithin;
    PlacedLength(prog, at);
    StillBuilt(prog, at, g, slots, ways, p);
    NewBuilt(prog, at, arc, e.kind, ways, p);
    AllSlotsMore(slots, ways, p, e);
  }

  lemma PlacedLength(prog: Program, at: seq<Vertex>)
    requires Placed(prog, at)
    ensures |at| == |prog| + 2
  {
  }

  lemma NewBuilt(prog: Program, at: seq<Vertex>, arc: Arc<Vertex>, kind: EdgeKind, ways: seq<nat>, p: nat)
    requires |at| == |prog| + 2 && WaysWithin(prog, ways) && p <= |prog| && ways[p] < |Ways(prog, p)|
    requires var w := Ways(prog, p)[ways[p]]; w.to < |at| && kind == w.kind && arc == Arc(at[p], at[w.to])
    ensures WaysWithin(prog, ways[p := ways[p] + 1])
    ensures IsBuilt(prog, at, arc, kind, Slot(p, ways[p]), ways[p := ways[p] + 1])
  {
    hide Ways;
  }

  lemma StillBuilt(prog: Program, at: seq<Vertex>, g: Arcs, slots: map<Edge, Slot>, ways: seq<nat>, p: nat)
    requires |at| == |prog| + 2 && Placed(prog, at) && Built(prog, at, g, slots, ways)
    requires p <= |prog| && ways[p] < |Ways(prog, p)|
    ensures |ways| == |prog| + 1 && WaysWithin(prog, ways[p := ways[p] + 1])
    ensures forall x | x in g ::
              slots[x] != Slot(p, ways[p]) && IsBuilt(prog, at, g[x], x.kind, slots[x], ways[p := ways[p] + 1])
  {
    hide Ways, Placed;
    forall x | x in g
      ensures slots[x] != Slot(p, ways[p]) && IsBuilt(prog, at, g[x], x.kind, slots[x], ways[p := ways[p] + 1])
    {
      assert IsBuilt(prog, at, g[x], x.kind, slots[x], ways);
    }
  }

  lemma AllSlotsMore(slots: map<Edge, Slot>, ways: seq<nat>, p: nat, e: Edge)
    requires p < |ways| && e !in slots
    requires forall q: nat, j: nat | q < |ways| && j < ways[q] :: HasSlot(slots, Slot(q, j))
    ensures var ways' := ways[p := ways[p] + 1];
            forall q: nat, j: nat | q < |ways'| && j < ways'[q] :: HasSlot(slots[e := Slot(p, ways[p])], Slot(q, j))
  {
    HasSlotMore(slots, e, Slot(p, ways[p]));
    hide HasSlot;
    forall q: nat, j: nat | q < |ways| && j < ways[p := ways[p] + 1][q]
      ensures HasSlot(slots[e := Slot(p, ways[p])], Slot(q, j))
    {
      assert (q == p && j == ways[p]) || HasSlot(slots, Slot(q, j));
    }
  }

  lemma HasSlotMore(slots: map<Edge, Slot>, e: Edge, s: Slot)
    requires e !in slots
    ensures HasSlot(slots[e := s], s)
    ensures forall r :: HasSlot(slots, r) ==> HasSlot(slots[e := s], r)
  {
    assert slots[e := s][e] == s;
    forall r | HasSlot(slots, r) ensures HasSlot(slots[e := s], r) {
      var x :| x in slots && slots[x] == r;
      assert slots[e := s][x] == r;
    }
  }

  /** Another vertex takes over a position and all its edges. */
  lemma BuiltReplace(prog: Program, at: seq<Vertex>, g: Arcs, slots: map<Edge, Slot>, ways: seq<nat>, p: nat, w: Vertex)
    requires Placed(prog, at) && Built(prog, at, g, slots, ways) && p < |at| && w !in at
    ensures Placed(prog, at[p := w]) && Built(prog, at[p := w], Renamed(g, at[p], w), slots, ways)
  {
    hide Ways, IsBuilt;
    PlacedReplace(prog, at, p, w);
    var at', g' := at[p := w], Renamed(g, at[p], w);
    forall x | x in g' ensures IsBuilt(prog, at', g'[x], x.kind, slots[x], ways) {
      IsBuiltReplace(prog, at, g[x], x.kind, slots[x], ways, p, w);
    }
    hide Placed;
  }

  lemma PlacedReplace(prog: Program, at: seq<Vertex>, p: nat, w: Vertex)
    requires Placed(prog, at) && p < |at| && w !in at
    ensures Placed(prog, at[p := w])
  {
    assert forall q | 0 <= q < |at| :: at[q] in at;
  }

  lemma IsBuiltReplace(prog: Program, at: seq<Vertex>, arc: Arc<Vertex>, kind: EdgeKind, s: Slot, ways: seq<nat>,
                       p: nat, w: Vertex)
    requires Placed(prog, at) && WaysWithin(prog, ways) && p < |at|
    requires IsBuilt(prog, at, arc, kind, s, ways)
    ensures var v := at[p];
            IsBuilt(prog, at[p := w],
                    Arc(if arc.src == v then w else arc.src, if arc.dst == v then w else arc.dst), kind, s, ways)
  {
    hide Ways;
  }

  /** All ways are there. */
  ghost predicate Complete(prog: Program, ways: seq<nat>)
  {
    |ways| == |prog| + 1 && forall p | 0 <= p < |ways| :: ways[p] == |Ways(prog, p)|
  }

  // ----- Runs are walks -----

  ghost function SlotsOf(slots: map<Edge, Slot>, q: seq<Edge>): seq<Slot>
    requires forall e | e in q :: e in slots
  {
    seq(|q|, i requires 0 <= i < |q| => slots[q[i]])
  }

  /** A walk from the vertex of a position is a run from that position. */
  lemma {:induction false} WalkIsRun(prog: Program, at: seq<Vertex>, g: Arcs, slots: map<Edge, Slot>, ways: seq<nat>,
                                     p: nat, q: seq<Edge>, v: Vertex)
    returns (t: nat)
    requires Placed(prog, at) && Built(prog, at, g, slots, ways) && Complete(prog, ways)
    requires p < |at| && IsWalk(g, at[p], q, v)
    ensures t < |at| && at[t] == v && (forall e | e in q :: e in slots)
    ensures IsWalk(Machine(prog), p, SlotsOf(slots, q), t)
    decreases |q|
  {
    if q == [] {
      t := p;
      assert SlotsOf(slots, q) == [];
    } else {
      var e := q[0];
      var next := EdgeIsWay(prog, at, g, slots, ways, p, e);
      t := WalkIsRun(prog, at, g, slots, ways, next, q[1..], v);
      assert forall x | x in q :: x == e || x in q[1..];
      hide *;
      SlotsOfCons(slots, q);
      ConsWalk(Machine(prog), p, slots[e], next, SlotsOf(slots, q[1..]), t);
    }
  }

  lemma SlotsOfCons(slots: map<Edge, Slot>, q: seq<Edge>)
    requires q != [] && forall e | e in q :: e in slots
    ensures forall e | e in q[1..] :: e in slots
    ensures SlotsOf(slots, q) == [slots[q[0]]] + SlotsOf(slots, q[1..])
  {
  }

  lemma ConsWalk<V, E>(g: map<E, Arc<V>>, s: V, e: E, u: V, p: seq<E>, t: V)
    requires e in g && g[e] == Arc(s, u)
    ensures IsWalk(g, u, p, t) <==> IsWalk(g, s, [e] + p, t)
  {
    assert ([e] + p)[1..] == p;
  }

  lemma EdgeIsWay(prog: Program, at: seq<Vertex>, g: Arcs, slots: map<Edge, Slot>, ways: seq<nat>, p: nat, e: Edge)
    returns (next: nat)
    requires Placed(prog, at) && Built(prog, at, g, slots, ways)
    requires p < |at| && e in g && g[e].src == at[p]
    ensures e in slots && slots[e] in Machine(prog) && Machine(prog)[slots[e]] == Arc(p, next)
    ensures next < |at| && g[e].dst == at[next]
  {
    assert IsBuilt(prog, at, g[e], e.kind, slots[e], ways);
    next := Ways(prog, p)[slots[e].way].to;
  }

  lemma WayIsEdge(prog: Program, at: seq<Vertex>, g: Arcs, slots: map<Edge, Slot>, ways: seq<nat>, s: Slot)
    returns (e: Edge)
    requires Placed(prog, at) && Built(prog, at, g, slots, ways) && Complete(prog, ways) && s in Machine(prog)
    ensures e in g && e in slots && slots[e] == s && s.pos < |at| && Machine(prog)[s].src == s.pos
    ensures Machine(prog)[s].dst < |at| && g[e] == Arc(at[s.pos], at[Machine(prog)[s].dst])
  {
    assert HasSlot(slots, Slot(s.pos, s.way));
    e :| e in slots && slots[e] == s;
    assert IsBuilt(prog, at, g[e], e.kind, slots[e], ways);
  }

  /** A run from a position is a walk from the vertex of that position. */
  lemma {:induction false} RunIsWalk(prog: Program, at: seq<Vertex>, g: Arcs, slots: map<Edge, Slot>, ways: seq<nat>,
                                     p: nat, r: seq<Slot>, t: nat)
    returns (q: seq<Edge>)
    requires Placed(prog, at) && Built(prog, at, g, slots, ways) && Complete(prog, ways)
    requires p < |at| && IsWalk(Machine(prog), p, r, t)
    ensures t < |at| && IsWalk(g, at[p], q, at[t]) && (forall e | e in q :: e in slots) && SlotsOf(slots, q) == r
    decreases |r|
  {
    hide *;
    if r == [] {
      NoSteps(prog, at, g, slots, p, t);
      q := [];
    } else {
      var e, next := RunStep(prog, at, g, slots, ways, p, r, t);
      var rest := RunIsWalk(prog, at, g, slots, ways, next, r[1..], t);
      q := [e] + rest;
      assert q[1..] == rest && r == [r[0]] + r[1..];
      assert forall x | x in q :: x == e || x in rest;
      SlotsOfCons(slots, q);
      ConsWalk(g, at[p], e, at[next], rest, at[t]);
    }
  }

  lemma NoSteps(prog: Program, at: seq<Vertex>, g: Arcs, slots: map<Edge, Slot>, p: nat, t: nat)
    requires IsWalk(Machine(prog), p, [], t) && p < |at|
    ensures p == t && IsWalk(g, at[p], [], at[t]) && SlotsOf(slots, []) == []
  {
  }

  lemma RunStep(prog: Program, at: seq<Vertex>, g: Arcs, slots: map<Edge, Slot>, ways: seq<nat>,
                p: nat, r: seq<Slot>, t: nat)
    returns (e: Edge, next: nat)
    requires Placed(prog, at) && Built(prog, at, g, slots, ways) && Complete(prog, ways)
    requires p < |at| && r != [] && IsWalk(Machine(prog), p, r, t)
    ensures e in g && e in slots && slots[e] == r[0] && next < |at| && g[e] == Arc(at[p], at[next])
    ensures IsWalk(Machine(prog), next, r[1..], t)
  {
    hide Ways, Built, Complete, Placed;
    e := WayIsEdge(prog, at, g, slots, ways, r[0]);
    next := Machine(prog)[r[0]].dst;
  }
}
