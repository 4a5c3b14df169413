/** Programs on which a traversal always ends: those without recursion whose functions have no cycle of edges that a
    traversal steps along. */
module Finishing {
  import opened Walks
  import opened Graphs
  import opened Programs
  import opened Construction
  import opened Creation
  import opened Contraction
  import opened ControlFlowGraphs
  import opened Meaning
  import opened Entries
  import opened Looks
  import opened Reachability
  import opened Linking
  import opened LinkedPrograms
  import opened Executions
  import opened ProgramRuns

  /** An edge within a function along which a traversal gets on: one that it follows, or one that a linked call falls
      through by, since the call returns there. */
  ghost predicate StepsAlong(g: Arcs, back: set<Edge>, e: Edge)
    requires e in g
  {
    Possible(e) && !e.kind.FunctionCall? && (e in back ==> g[e].src.statement.CallResolved?)
  }

  ghost function StepArcs(g: Arcs, back: set<Edge>): Arcs
  {
    map e | e in g && StepsAlong(g, back, e) :: g[e]
  }

  /** The functions can be ranked so that each calls only functions of smaller rank. */
  ghost predicate CallsRanked(code: Code, ranks: seq<nat>)
  {
    && |ranks| == |code|
    && forall i, p | 0 <= i < |code| && p in code[i].calls ::
         code[i].calls[p] < |ranks| && ranks[code[i].calls[p]] < ranks[i]
  }

  // ----- Ranks of vertices -----

  ghost predicate Owns(w: Whole, k: nat, v: Vertex)
  {
    k < |w.bodies| && v in Now(w.bodies[k])
  }

  /** The function that a vertex belongs to. */
  ghost function OwnerOf(w: Whole, v: Vertex): nat
  {
    if exists k: nat :: Owns(w, k, v) then (var k: nat :| Owns(w, k, v); k) else 0
  }

  lemma OwnerIs(w: Whole, k: nat, v: Vertex)
    requires Owns(w, k, v) && WholeOk(w)
    ensures OwnerOf(w, v) == k
  {
    hide *;
    WholeParts(w);
    OwnerFound(w, k, v);
    OwnsMeans(w, k, v);
    OwnsMeans(w, OwnerOf(w, v), v);
    SameBody(w.functions, w.vs, w.g, w.bodies, k, OwnerOf(w, v), v);
  }

  lemma OwnerFound(w: Whole, k: nat, v: Vertex)
    requires Owns(w, k, v)
    ensures Owns(w, OwnerOf(w, v), v)
  {
  }

  lemma OwnsMeans(w: Whole, k: nat, v: Vertex)
    ensures Owns(w, k, v) <==> k < |w.bodies| && v in Now(w.bodies[k])
  {
  }

  /** The vertices that can be stepped to. */
  ghost function Ahead(g: Arcs, vs: set<Vertex>, v: Vertex): set<Vertex>
  {
    set u | u in vs && Reaches(g, v, u)
  }

  lemma FewerAhead(g: Arcs, vs: set<Vertex>, e: Edge)
    requires Acyclic(g) && e in g && g[e].src in vs
    ensures |Ahead(g, vs, g[e].dst)| < |Ahead(g, vs, g[e].src)| <= |vs|
  {
    hide Reaches;
    var before, after := Ahead(g, vs, g[e].src), Ahead(g, vs, g[e].dst);
    forall u | u in after ensures u in before {
      ReachesRefl(g, g[e].src);
      ReachesStep(g, g[e].src, e);
      ReachesTrans(g, g[e].src, g[e].dst, u);
    }
    ReachesRefl(g, g[e].src);
    assert after <= before - {g[e].src};
    Smaller(after, before - {g[e].src});
    Smaller(before, vs);
  }

  lemma Smaller<T>(a: set<T>, b: set<T>)
    requires a <= b
    ensures |a| <= |b|
  {
    assert b == a + (b - a);
  }

  ghost function RankAt(w: Whole, back: set<Edge>, ranks: seq<nat>, v: Vertex): nat
  {
    (if OwnerOf(w, v) < |ranks| then ranks[OwnerOf(w, v)] else 0) * (|w.vs| + 1)
    + |Ahead(StepArcs(w.g, back), w.vs, v)|
  }

  ghost function Ranks(w: Whole, back: set<Edge>, ranks: seq<nat>): map<Vertex, nat>
  {
    map v | v in w.vs :: RankAt(w, back, ranks, v)
  }

  lemma RanksAre(w: Whole, back: set<Edge>, ranks: seq<nat>, v: Vertex)
    ensures v in Ranks(w, back, ranks) <==> v in w.vs
    ensures v in w.vs ==> Ranks(w, back, ranks)[v] == RankAt(w, back, ranks, v)
  {
    hide RankAt;
  }

  lemma AheadSize(g: Arcs, vs: set<Vertex>, v: Vertex)
    ensures |Ahead(g, vs, v)| <= |vs|
  {
    hide Reaches;
    Smaller(Ahead(g, vs, v), vs);
  }

  lemma Lexicographic(a: nat, b: nat, n: nat, x: nat, y: nat)
    requires (a < b && x <= n) || (a == b && x < y)
    ensures a * (n + 1) + x < b * (n + 1) + y
  {
    if a < b {
      assert (a + 1) * (n + 1) <= b * (n + 1);
      assert (a + 1) * (n + 1) == a * (n + 1) + n + 1;
    }
  }

  // ----- Every edge goes down -----

  /** An edge along which a traversal steps belongs to one function, and both its ends do. */
  lemma StepOwned(w: Whole, e: Edge) returns (k: nat)
    requires e in w.g && !e.kind.FunctionCall? && !e.kind.Return? && WholeOk(w)
    ensures Owns(w, k, w.g[e].src) && Owns(w, k, w.g[e].dst) && w.g[e].src in w.vs && w.g[e].dst in w.vs
    ensures k < |w.bodies| && e in w.bodies[k].r.final
  {
    hide *;
    WholeParts(w);
    k := SomeBody(w.functions, w.vs, w.g, w.bodies, e);
    BodyAt(w.functions, w.vs, w.g, w.bodies, k);
    BodyParts(w.bodies[k], w.functions[k], w.functions, w.g);
    MovedEdge(w.bodies[k], w.g, e);
    OwnsMeans(w, k, w.g[e].src);
    OwnsMeans(w, k, w.g[e].dst);
  }

  lemma StepGoesDown(w: Whole, back: set<Edge>, ranks: seq<nat>, e: Edge)
    requires e in w.g && StepsAlong(w.g, back, e) && Acyclic(StepArcs(w.g, back)) && WholeOk(w)
    ensures RanksDown(w, back, ranks, w.g[e].src, w.g[e].dst)
  {
    hide *;
    StepKind(w.g, back, e);
    var k := StepOwned(w, e);
    OwnerIs(w, k, w.g[e].src);
    OwnerIs(w, k, w.g[e].dst);
    FewerAhead(StepArcs(w.g, back), w.vs, e);
    RankIs(w, back, ranks, w.g[e].src);
    RankIs(w, back, ranks, w.g[e].dst);
    var a := if k < |ranks| then ranks[k] else 0;
    Lexicographic(a, a, |w.vs|, |Ahead(StepArcs(w.g, back), w.vs, w.g[e].dst)|,
                  |Ahead(StepArcs(w.g, back), w.vs, w.g[e].src)|);
    GoesDownSo(w, back, ranks, w.g[e].src, w.g[e].dst);
  }

  lemma StepKind(g: Arcs, back: set<Edge>, e: Edge)
    requires e in g && StepsAlong(g, back, e)
    ensures !e.kind.FunctionCall? && !e.kind.Return? && e in StepArcs(g, back) && StepArcs(g, back)[e] == g[e]
  {
  }

  lemma RankIs(w: Whole, back: set<Edge>, ranks: seq<nat>, v: Vertex)
    ensures RankAt(w, back, ranks, v) ==
            (if OwnerOf(w, v) < |ranks| then ranks[OwnerOf(w, v)] else 0) * (|w.vs| + 1)
            + |Ahead(StepArcs(w.g, back), w.vs, v)|
  {
    hide OwnerOf, StepArcs, Ahead;
  }

  /** Both are vertices of the program, and the second has the smaller rank. */
  ghost predicate RanksDown(w: Whole, back: set<Edge>, ranks: seq<nat>, u: Vertex, v: Vertex)
  {
    u in w.vs && v in w.vs && RankAt(w, back, ranks, v) < RankAt(w, back, ranks, u)
  }

  lemma GoesDownSo(w: Whole, back: set<Edge>, ranks: seq<nat>, u: Vertex, v: Vertex)
    ensures RanksDown(w, back, ranks, u, v) <==>
            u in w.vs && v in w.vs && RankAt(w, back, ranks, v) < RankAt(w, back, ranks, u)
  {
    hide RankAt;
  }

  /** A resolved call has a place in a list. */
  lemma CallHasPlace(w: Whole, c: Vertex, f: Edge) returns (k: nat, p: nat)
    requires f in w.g && f.kind == Fallthrough && w.g[f].src == c && c.statement.CallResolved? && WholeOk(w)
    ensures Owns(w, k, c) && c in w.vs && k < |w.bodies| && p in w.bodies[k].calls
    ensures w.bodies[k].calls[p] < |w.functions| && |w.functions| == |w.bodies|
    ensures c.statement.target == w.functions[w.bodies[k].calls[p]]
  {
    hide *;
    WholeParts(w);
    FallthroughKind(f);
    k := StepOwned(w, f);
    var b := w.bodies[k];
    SameLength(w.functions, w.vs, w.g, w.bodies);
    BodyAt(w.functions, w.vs, w.g, w.bodies, k);
    BodyParts(b, w.functions[k], w.functions, w.g);
    MovedEdge(b, w.g, f);
    var v := b.r.final[f].src;
    NoneResolved(b.r, v);
    RenStatement(b, v);
    RenOkMeans(b);
    p := PlaceIn(b.r.c.at, v);
    CallRecorded(b, w.functions, p);
    CallHolds(b, w.functions, p);
  }

  lemma FallthroughKind(e: Edge)
    requires e.kind == Fallthrough
    ensures Possible(e) && !e.kind.FunctionCall? && !e.kind.Return?
  {
  }

  lemma PlaceIn(at: seq<Vertex>, v: Vertex) returns (p: nat)
    requires v in Elements(at)
    ensures p < |at| && at[p] == v
  {
    p :| p < |at| && at[p] == v;
  }

  lemma LinkedEdges(w: Whole, e: Edge) returns (c: Vertex, f: Edge)
    requires ProgramLinked(Elements(w.functions), w.vs, w.g, w.links)
    requires e in w.g && (e.kind.FunctionCall? || e.kind.Return?)
    ensures c == e.kind.call && c.statement.CallResolved? && f in w.g && f.kind == Fallthrough && w.g[f].src == c
    ensures e.kind.FunctionCall? ==> w.g[e] == Arc(c, c.statement.target.entry)
    ensures e.kind.Return? ==> w.g[e].dst == w.g[f].dst
  {
    hide FunctionsOk, EntriesOk, UnresolvedOk, EndsIn;
    c := e.kind.call;
    assert CallLinked(w.g, w.links, c);
    f :| f in w.g && f.kind == Fallthrough && w.g[f] == Arc(c, w.g[w.links.returnEdge[c]].dst);
  }

  lemma CallGoesDown(w: Whole, back: set<Edge>, ranks: seq<nat>, e: Edge)
    requires e in w.g && e.kind.FunctionCall? && CallsRanked(CodeOf(w.bodies), ranks) && WholeOk(w)
    ensures e.kind.call == w.g[e].src && RanksDown(w, back, ranks, w.g[e].src, w.g[e].dst)
  {
    hide *;
    WholeParts(w);
    var c, f := LinkedEdges(w, e);
    var k, p := CallHasPlace(w, c, f);
    var h := w.bodies[k].calls[p];
    var v := w.functions[h].entry;
    EntryOwned(w, h);
    OwnerIs(w, k, c);
    OwnerIs(w, h, v);
    CodeIs(w.bodies);
    RankedCall(CodeOf(w.bodies), ranks, k, p);
    RankIs(w, back, ranks, c);
    RankIs(w, back, ranks, v);
    AheadSize(StepArcs(w.g, back), w.vs, v);
    Lexicographic(ranks[h], ranks[k], |w.vs|, |Ahead(StepArcs(w.g, back), w.vs, v)|,
                  |Ahead(StepArcs(w.g, back), w.vs, c)|);
    GoesDownSo(w, back, ranks, c, v);
  }

  lemma RankedCall(code: Code, ranks: seq<nat>, k: nat, p: nat)
    requires CallsRanked(code, ranks) && k < |code| && p in code[k].calls
    ensures |ranks| == |code| && code[k].calls[p] < |ranks| && ranks[code[k].calls[p]] < ranks[k]
  {
  }

  lemma EntryOwned(w: Whole, k: nat)
    requires k < |w.functions| && WholeOk(w)
    ensures Owns(w, k, w.functions[k].entry) && w.functions[k].entry in w.vs
  {
    hide *;
    WholeParts(w);
    EntryThere(w, k);
    ThereMeans(w, Place(k, 0), w.functions[k].entry);
    NowMeans(w.bodies[k], w.bodies[k].r.c.at[0]);
    BodyAt(w.functions, w.vs, w.g, w.bodies, k);
    OwnsMeans(w, k, w.functions[k].entry);
  }

  /** A return leads to where its call falls through to, which has a smaller rank than the call. */
  lemma ReturnGoesDown(w: Whole, back: set<Edge>, ranks: seq<nat>, e: Edge)
    requires e in w.g && e.kind.Return? && Acyclic(StepArcs(w.g, back)) && WholeOk(w)
    ensures RanksDown(w, back, ranks, e.kind.call, w.g[e].dst)
  {
    hide *;
    WholeParts(w);
    var c, f := LinkedEdges(w, e);
    CallFallsThrough(w.g, back, f);
    StepGoesDown(w, back, ranks, f);
  }

  lemma CallFallsThrough(g: Arcs, back: set<Edge>, f: Edge)
    requires f in g && f.kind == Fallthrough && g[f].src.statement.CallResolved?
    ensures StepsAlong(g, back, f)
  {
  }

  lemma UsableKinds(g: Arcs, back: set<Edge>, e: Edge)
    requires e in g && e !in back && !e.kind.Impossible? && !e.kind.FunctionCallBypass?
    ensures e.kind.FunctionCall? || e.kind.Return? || StepsAlong(g, back, e)
  {
  }

  /** Without recursion and without a cycle of steps, a traversal goes downhill. */
  lemma GoesDownhill(w: Whole, back: set<Edge>, ranks: seq<nat>)
    requires CallsRanked(CodeOf(w.bodies), ranks) && Acyclic(StepArcs(w.g, back)) && WholeOk(w)
    ensures Downhill(w.g, back, Ranks(w, back, ranks))
  {
    hide *;
    var rank := Ranks(w, back, ranks);
    forall e | e in w.g && e !in back && !e.kind.Impossible? && !e.kind.FunctionCallBypass?
      ensures w.g[e].dst in rank
      ensures e.kind.Return? ==> e.kind.call in rank && rank[w.g[e].dst] < rank[e.kind.call]
      ensures !e.kind.Return? ==> w.g[e].src in rank && rank[w.g[e].dst] < rank[w.g[e].src]
      ensures e.kind.FunctionCall? ==> e.kind.call == w.g[e].src
    {
      UsableKinds(w.g, back, e);
      if e.kind.FunctionCall? {
        CallGoesDown(w, back, ranks, e);
      } else if e.kind.Return? {
        ReturnGoesDown(w, back, ranks, e);
      } else {
        StepGoesDown(w, back, ranks, e);
      }
      var u := if e.kind.Return? then e.kind.call else w.g[e].src;
      GoesDownSo(w, back, ranks, u, w.g[e].dst);
      RanksAre(w, back, ranks, u);
      RanksAre(w, back, ranks, w.g[e].dst);
    }
    ItIsDownhill(w.g, back, rank);
  }

  lemma ItIsDownhill(g: Arcs, back: set<Edge>, rank: map<Vertex, nat>)
    requires forall e | e in g && e !in back && !e.kind.Impossible? && !e.kind.FunctionCallBypass? ::
               && g[e].dst in rank
               && (e.kind.Return? ==> e.kind.call in rank && rank[g[e].dst] < rank[e.kind.call])
               && (!e.kind.Return? ==> g[e].src in rank && rank[g[e].dst] < rank[g[e].src])
               && (e.kind.FunctionCall? ==> e.kind.call == g[e].src)
    ensures Downhill(g, back, rank)
  {
  }

  /** A budget with which every traversal from function `i` ends. */
  ghost function Enough(w: Whole, ranks: seq<nat>, i: nat): nat
  {
    1 + |w.g| * Weight(|w.g|, (if i < |ranks| then ranks[i] else 0) * (|w.vs| + 1) + |w.vs|)
  }

  /** Without recursion and without a cycle of steps, every traversal ends. */
  lemma NonRecursiveEnds(w: Whole, back: set<Edge>, ranks: seq<nat>, i: nat, j: nat, n: nat)
    requires i < |w.functions| && j < |w.functions| && n >= Enough(w, ranks, i)
    requires CallsRanked(CodeOf(w.bodies), ranks) && Acyclic(StepArcs(w.g, back)) && WholeOk(w)
    ensures !CanLookFor(ProblemOf(w.g, back, w.functions[i], w.functions[j]), n)
  {
    hide *;
    var p := ProblemOf(w.g, back, w.functions[i], w.functions[j]);
    ProblemIs(w.g, back, w.functions[i], w.functions[j]);
    GoesDownhill(w, back, ranks);
    EntryOwned(w, i);
    OwnerIs(w, i, p.source);
    RankIs(w, back, ranks, p.source);
    RanksAre(w, back, ranks, p.source);
    AheadSize(StepArcs(w.g, back), w.vs, p.source);
    RankOfIs(Ranks(w, back, ranks), p.source);
    EnoughIs(w, ranks, i);
    var r, q := RankOf(Ranks(w, back, ranks), p.source), (if i < |ranks| then ranks[i] else 0) * (|w.vs| + 1) + |w.vs|;
    BeyondGrows(|w.g|, r, q);
    MulBoth(|w.g|, |w.g|, Weight(|w.g|, r), Weight(|w.g|, q));
    EndsInTime(p, Ranks(w, back, ranks), n);
  }

  lemma ProblemIs(g: Arcs, back: set<Edge>, f: Function, h: Function)
    ensures var p := ProblemOf(g, back, f, h); p.g == g && p.back == back && p.source == f.entry && p.sink == h.entry
  {
  }

  lemma RankOfIs(rank: map<Vertex, nat>, v: Vertex)
    ensures v in rank ==> RankOf(rank, v) == rank[v]
  {
  }

  lemma EnoughIs(w: Whole, ranks: seq<nat>, i: nat)
    ensures Enough(w, ranks, i) ==
            1 + |w.g| * Weight(|w.g|, (if i < |ranks| then ranks[i] else 0) * (|w.vs| + 1) + |w.vs|)
  {
    hide Weight;
  }

  // ----- Lists that only go forward -----

  /** Every way on leads further down the list. */
  ghost predicate GoesForward(prog: Program)
  {
    forall s | s in Machine(prog) :: Machine(prog)[s].src < Machine(prog)[s].dst
  }

  lemma {:induction false} ForwardRun(prog: Program, p: nat, run: seq<Slot>, t: nat)
    requires GoesForward(prog) && IsWalk(Machine(prog), p, run, t)
    ensures p <= t
    decreases |run|
  {
    hide Machine;
    if run != [] {
      ForwardRun(prog, Machine(prog)[run[0]].dst, run[1..], t);
    }
  }

  lemma ForwardStep(prog: Program, p: nat, step: Slot, t: nat)
    requires GoesForward(prog) && step in Machine(prog) && Machine(prog)[step].src == p
    requires Reaches(Machine(prog), Machine(prog)[step].dst, t)
    ensures p < t
  {
    hide Machine, IsWalk;
    var run: seq<Slot> :| IsWalk(Machine(prog), Machine(prog)[step].dst, run, t);
    ForwardRun(prog, Machine(prog)[step].dst, run, t);
  }

  /** An edge that is not Impossible leaves the vertex of a position. */
  lemma SolidSource(r: Record, e: Edge) returns (p: nat)
    requires e in r.final && Possible(e) && Created(r)
    ensures p < |r.c.at| && r.c.at[p] == r.final[e].src && r.c.at[p] !in r.gone
  {
    hide *;
    PossibleIsSolid(r.final, e);
    SolidContracted(r);
    SurvivingEdges(r.c.g, SolidArcs(r.final), r.gone, r.chain);
    WaysHaveKinds(r.c, e);
    HasSlotOf(r.c, e);
    p := r.c.slots[e].pos;
  }

  lemma HasSlotOf(c: Building, e: Edge)
    requires StandsFor(c, e)
    ensures e in c.slots
  {
  }

  lemma StepPlaces(w: Whole, e: Edge) returns (x: Place, y: Place)
    requires e in w.g && Possible(e) && !e.kind.FunctionCall? && WholeOk(w)
    requires forall k | 0 <= k < |w.bodies| :: GoesForward(w.bodies[k].r.c.prog)
    ensures IsThere(w, x, w.g[e].src) && IsThere(w, y, w.g[e].dst) && x.fn == y.fn && x.pos < y.pos
  {
    hide *;
    WholeParts(w);
    PossibleMeans(e);
    var k := StepOwned(w, e);
    var b := w.bodies[k];
    SameLength(w.functions, w.vs, w.g, w.bodies);
    BodyAt(w.functions, w.vs, w.g, w.bodies, k);
    BodyParts(b, w.functions[k], w.functions, w.g);
    MovedEdge(b, w.g, e);
    var p := SolidSource(b.r, e);
    var t, step := EdgeRuns(b.r, p, e);
    ForwardStep(b.r.c.prog, p, step, t);
    PlaceOfVertex(w, k, p);
    PlaceOfVertex(w, k, t);
    x, y := Place(k, p), Place(k, t);
  }

  /** The place at which a vertex stands. */
  ghost function PlaceOf(w: Whole, v: Vertex): Place
  {
    if exists x :: IsThere(w, x, v) then (var x :| IsThere(w, x, v); x) else Place(0, 0)
  }

  lemma PlaceIs(w: Whole, x: Place, v: Vertex)
    requires IsThere(w, x, v) && WholeOk(w)
    ensures PlaceOf(w, v) == x
  {
    hide *;
    PlaceFound(w, x, v);
    PlaceUnique(w, x, PlaceOf(w, v), v);
  }

  lemma PlaceFound(w: Whole, x: Place, v: Vertex)
    requires IsThere(w, x, v)
    ensures IsThere(w, PlaceOf(w, v), v)
  {
    hide IsThere;
  }

  ghost function Remaining(w: Whole, v: Vertex): nat
  {
    var x := PlaceOf(w, v);
    if x.fn < |w.bodies| && x.pos < |w.bodies[x.fn].r.c.at| then |w.bodies[x.fn].r.c.at| - x.pos else 0
  }

  lemma ForwardDown(w: Whole, e: Edge)
    requires e in w.g && Possible(e) && !e.kind.FunctionCall? && WholeOk(w)
    requires forall k | 0 <= k < |w.bodies| :: GoesForward(w.bodies[k].r.c.prog)
    ensures Remaining(w, w.g[e].dst) < Remaining(w, w.g[e].src)
  {
    hide *;
    var x, y := StepPlaces(w, e);
    PlaceIs(w, x, w.g[e].src);
    PlaceIs(w, y, w.g[e].dst);
    ThereMeans(w, x, w.g[e].src);
    ThereMeans(w, y, w.g[e].dst);
    RemainingIs(w, w.g[e].src, x);
    RemainingIs(w, w.g[e].dst, y);
  }

  lemma RemainingIs(w: Whole, v: Vertex, x: Place)
    requires PlaceOf(w, v) == x && x.fn < |w.bodies| && x.pos < |w.bodies[x.fn].r.c.at|
    ensures Remaining(w, v) == |w.bodies[x.fn].r.c.at| - x.pos
  {
    hide PlaceOf;
  }

  /** Where all lists only go forward, there is no cycle of steps. */
  lemma ForwardHasNoCycle(w: Whole, back: set<Edge>)
    requires forall k | 0 <= k < |w.bodies| :: GoesForward(w.bodies[k].r.c.prog)
    requires WholeOk(w)
    ensures Acyclic(StepArcs(w.g, back))
  {
    hide *;
    var g := StepArcs(w.g, back);
    forall e | e in g
      ensures g[e].src in w.vs && g[e].dst in w.vs && Remaining(w, g[e].dst) < Remaining(w, g[e].src)
    {
      StepMeans(w.g, back, e);
      PossibleMeans(e);
      ForwardDown(w, e);
      var k := StepOwned(w, e);
    }
    RankedByRemaining(w, g);
  }

  lemma StepMeans(g: Arcs, back: set<Edge>, e: Edge)
    requires e in StepArcs(g, back)
    ensures e in g && Possible(e) && !e.kind.FunctionCall? && StepArcs(g, back)[e] == g[e]
  {
  }

  lemma RankedByRemaining(w: Whole, g: Arcs)
    requires forall e | e in g ::
               g[e].src in w.vs && g[e].dst in w.vs && Remaining(w, g[e].dst) < Remaining(w, g[e].src)
    ensures Acyclic(g)
  {
    hide Remaining, Acyclic;
    RankedIsAcyclic(g, map v | v in w.vs :: Remaining(w, v));
  }

  // ----- One call -----

  /** `f: g();` and an empty `g`. */
  function OneCall(): Code
  {
    [Listing([CallUnresolved("g")], map[1 := 1]), Listing([], map[])]
  }

  lemma OneCallReaches(code: Code)
    requires code == OneCall()
    ensures Reaches(Over(code, Called(code)), Place(0, 0), Place(1, 0))
  {
    hide *;
    OneCallIs(code);
    var g, x, y := Over(code, Called(code)), Place(0, 0), Place(0, 1);
    CalledThere(code, x);
    GosAre(code, Called(code), x, 0, y);
    ItIsCall(code, y);
    ItIsCall(code, x);
    EntersAre(code, y);
    OverParts(code, Called(code));
    SubgraphHas(Gos(code, Called(code)), g, Go(x, 0));
    SubgraphHas(Executions.Enters(code), g, Enter(y));
    ReachesRefl(g, x);
    ReachesStep(g, x, Go(x, 0));
    ReachesStep(g, x, Enter(y));
  }

  lemma OneCallIs(code: Code)
    requires code == OneCall()
    ensures |code| == 2 && CodeOk(code) && code[0].calls == map[1 := 1]
    ensures IsWay(code, Place(0, 0), 0, Place(0, 1))
  {
  }

  lemma OneCallForward(code: Code)
    requires code == OneCall()
    ensures CallsRanked(code, [1, 0]) && forall k | 0 <= k < |code| :: GoesForward(code[k].prog)
  {
    forall k | 0 <= k < |code| ensures GoesForward(code[k].prog) {
      forall p | 0 <= p <= |code[k].prog| ensures Ways(code[k].prog, p) == [Way(Fallthrough, p + 1)] {
      }
      hide Ways;
    }
  }

  /** In every program with these lists, every traversal from the first function ends. */
  lemma OneCallEnds(w: Whole, back: set<Edge>, n: nat)
    requires CodeOf(w.bodies) == OneCall() && |w.functions| == 2 && n >= Enough(w, [1, 0], 0) && WholeOk(w)
    ensures !CanLookFor(ProblemOf(w.g, back, w.functions[0], w.functions[1]), n)
  {
    hide *;
    CodeIs(w.bodies);
    OneCallForward(CodeOf(w.bodies));
    ForwardHasNoCycle(w, back);
    NonRecursiveEnds(w, back, [1, 0], 0, 1, n);
  }
}
