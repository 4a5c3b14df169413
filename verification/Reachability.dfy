/** The rule "f() -x g()": is there a path in the control flow graph from f's ENTRY to g's ENTRY? */
module Reachability {
  import opened Walks
  import opened Graphs
  import opened Looks
  import opened Traversals

  /** An edge a running program can take, back edges too, where every call comes back: a call can be stepped over. */
  predicate Possible(e: Edge)
  {
    !e.kind.Impossible? && !e.kind.Return? && !e.kind.FunctionCallBypass?
  }

  function PossibleArcs(g: Arcs): Arcs
  {
    map e | e in g && Possible(e) :: g[e]
  }

  function WithoutCalls(g: Arcs): Arcs
  {
    map e | e in g && !e.kind.FunctionCall? :: g[e]
  }

  /** Within one function, leaving out the marked back edges makes no vertex unreachable from the entry. */
  ghost predicate MarksLoseNothing(g: Arcs, back: set<Edge>, entry: Vertex)
  {
    forall e | e in g && Possible(e) && !e.kind.FunctionCall?
      && Reaches(WithoutCalls(FollowedArcs(g, back)), entry, g[e].src) ::
      Reaches(WithoutCalls(FollowedArcs(g, back)), entry, g[e].dst)
  }

  /** Call edges lead to entries and are not back edges; a return leads where its call falls through to. */
  ghost predicate CallsAndReturnsMatch(g: Arcs, back: set<Edge>, entries: set<Vertex>)
  {
    && CallsLeaveTheirVertex(g)
    && (forall e | e in g && e.kind.FunctionCall? :: g[e].dst in entries && e !in back)
    && (forall e | e in g && e.kind.Return? :: ReturnsToFallthrough(g, e))
  }

  ghost predicate ReturnsToFallthrough(g: Arcs, r: Edge)
    requires r in g && r.kind.Return?
  {
    exists f :: f in g && f.kind.Fallthrough? && g[f] == Arc(r.kind.call, g[r].dst)
  }

  ghost predicate ProgramOk(g: Arcs, back: set<Edge>, entries: set<Vertex>)
  {
    CallsAndReturnsMatch(g, back, entries) && forall v | v in entries :: MarksLoseNothing(g, back, v)
  }

  lemma {:induction false} EntryCovers(g: Arcs, back: set<Edge>, entries: set<Vertex>, s: Vertex, p: seq<Edge>,
                                       v: Vertex)
    returns (entry: Vertex)
    requires ProgramOk(g, back, entries) && s in entries && IsWalk(PossibleArcs(g), s, p, v)
    ensures entry in entries && Reaches(FollowedArcs(g, back), s, entry)
    ensures Reaches(WithoutCalls(FollowedArcs(g, back)), entry, v)
    decreases |p|
  {
    if p == [] {
      ReachesRefl(FollowedArcs(g, back), s);
      ReachesRefl(WithoutCalls(FollowedArcs(g, back)), s);
      return s;
    }
    var n := |p| - 1;
    var e := p[n];
    var u := WalkSplitLast(PossibleArcs(g), s, p, v);
    entry := EntryCovers(g, back, entries, s, p[..n], u);
    if e.kind.FunctionCall? {
      ReachesMonotone(WithoutCalls(FollowedArcs(g, back)), FollowedArcs(g, back), entry, u);
      ReachesTrans(FollowedArcs(g, back), s, entry, u);
      ReachesStep(FollowedArcs(g, back), s, e);
      ReachesRefl(WithoutCalls(FollowedArcs(g, back)), v);
      entry := v;
    }
  }

  /** Skipping back edges loses no vertex of the whole program. */
  lemma BackEdgesLoseNothing(g: Arcs, back: set<Edge>, entries: set<Vertex>, s: Vertex, t: Vertex)
    requires ProgramOk(g, back, entries) && s in entries
    ensures Reaches(FollowedArcs(g, back), s, t) <==> Reaches(PossibleArcs(g), s, t)
  {
    if Reaches(FollowedArcs(g, back), s, t) {
      ReachesMonotone(FollowedArcs(g, back), PossibleArcs(g), s, t);
    }
    if Reaches(PossibleArcs(g), s, t) {
      var p: seq<Edge> :| IsWalk(PossibleArcs(g), s, p, t);
      var entry := EntryCovers(g, back, entries, s, p, t);
      ReachesMonotone(WithoutCalls(FollowedArcs(g, back)), FollowedArcs(g, back), entry, t);
      ReachesTrans(FollowedArcs(g, back), s, entry, t);
    }
  }

  /** In a linked program, return edges add nothing to what is reachable. */
  lemma ReturnsAddNothing(g: Arcs, back: set<Edge>, entries: set<Vertex>, s: Vertex)
    requires ProgramOk(g, back, entries) && s in entries
    ensures ReturnsCovered(g, back, s)
  {
    forall e | e in g && e.kind.Return? && e !in back && Reaches(FollowedArcs(g, back), s, e.kind.call)
      ensures Reaches(FollowedArcs(g, back), s, g[e].dst)
    {
      assert ReturnsToFallthrough(g, e);
      var f :| f in g && f.kind.Fallthrough? && g[f] == Arc(e.kind.call, g[e].dst);
      BackEdgesLoseNothing(g, back, entries, s, e.kind.call);
      ReachesStep(PossibleArcs(g), s, f);
      BackEdgesLoseNothing(g, back, entries, s, g[e].dst);
    }
  }

  /** Nothing but calls leads into `entry` from elsewhere. */
  ghost predicate OnlyCalled(g: Arcs, back: set<Edge>, entry: Vertex)
  {
    forall e | e in g && g[e].dst == entry && Usable(e, back) :: e.kind.FunctionCall?
  }

  /** The violating statement of a report, the source of the last edge, is a resolved call; its edge leads to the
      sink. */
  lemma WitnessEndsInCall(g: Arcs, back: set<Edge>, source: Vertex, seed: Edge, predecessors: seq<Edge>, sink: Vertex)
    requires Witness(g, back, source, seed, predecessors, sink) && source != sink
    requires CallsLeaveTheirVertex(g) && OnlyCalled(g, back, sink)
    ensures |predecessors| > 1
    ensures var e := predecessors[|predecessors| - 1];
            && e in g && g[e].dst == sink && e.kind == FunctionCall(g[e].src)
            && g[e].src.statement.CallResolved?
  {
    var p := predecessors[1..];
    var u := WalkSplitLast(UsableArcs(g, back), source, p, sink);
    assert p[|p| - 1] == predecessors[|predecessors| - 1];
  }

  /** What the rule traverses for: from one ENTRY, by way of its self edge, to the other. */
  function ProblemOf(g: Arcs, back: set<Edge>, source: Function, sink: Function): Problem
  {
    Problem(g, back, source.entry, sink.entry, source.entrySelfEdge)
  }

  /** How matters stand when the rule is done. */
  function EndingOf(finished: bool, predecessors: seq<Edge>): Ending
  {
    if !finished then Open else if predecessors == [] then Exhausted([]) else Found(predecessors)
  }

  class RuleReachability {
    const source: Function
    const sink: Function
    var predecessors: seq<Edge>

    constructor (source: Function, sink: Function)
      ensures this.source == source && this.sink == sink && predecessors == []
    {
      this.source, this.sink := source, sink;
      predecessors := [];
    }

    /** Reports a violation exactly when the predecessors are not empty afterwards. A function is never
        reported to reach itself. The original has no budget: see `Traverse`. */
    method RunRule(g: Arcs, back: set<Edge>, budget: nat)
      returns (finished: bool, violation: bool, ghost looks: seq<Edge>)
      requires predecessors == [] && CallsLeaveTheirVertex(g)
      modifies this`predecessors
      ensures |looks| <= budget && (!finished ==> |looks| == budget)
      ensures Plays(ProblemOf(g, back, source, sink), StartOf(ProblemOf(g, back, source, sink)), looks,
                    EndingOf(finished, predecessors))
      ensures CallFree(g) && budget >= |g| ==> finished
      ensures violation <==> predecessors != []
      ensures finished && violation ==>
                && source.entry != sink.entry
                && Witness(g, back, source.entry, source.entrySelfEdge, predecessors, sink.entry)
      ensures finished && !violation && source.entry != sink.entry ==>
                !Reaches(FollowedArcs(g, back), source.entry, sink.entry)
      ensures finished && ReturnsCovered(g, back, source.entry) ==>
                (violation <==> source.entry != sink.entry
                                && Reaches(FollowedArcs(g, back), source.entry, sink.entry))
    {
      hide Plays;
      predecessors := predecessors + [source.entrySelfEdge];
      var visitor := new ReachabilityVisitor(sink.entry, back, predecessors);
      var traversal := new ControlFlowGraphTraversalDFS(g, back);
      finished, looks := traversal.Traverse(source.entry, visitor, budget);
      predecessors := visitor.predecessors;
      violation := predecessors != [];
    }
  }

  /** What the verdict means on a linked program: a path over edges that enter a call or step over it, back edges and
      all. */
  lemma VerdictIsExact(g: Arcs, back: set<Edge>, entries: set<Vertex>, source: Vertex, sink: Vertex)
    requires ProgramOk(g, back, entries) && source in entries
    ensures ReturnsCovered(g, back, source)
    ensures Reaches(FollowedArcs(g, back), source, sink) <==> Reaches(PossibleArcs(g), source, sink)
  {
    ReturnsAddNothing(g, back, entries, source);
    BackEdgesLoseNothing(g, back, entries, source, sink);
  }
}
