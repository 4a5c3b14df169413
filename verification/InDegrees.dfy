/** Counting the ways into a vertex: is a function called, and how many edges does the topological visit wait for? */
module InDegrees {
  import opened Walks
  import opened Graphs
  import opened Linking

  ghost function Image<A, B>(s: set<A>, m: map<A, B>): set<B>
    requires s <= m.Keys
  {
    set a | a in s :: m[a]
  }

  lemma {:induction false} ImageSize<A, B>(s: set<A>, m: map<A, B>)
    requires s <= m.Keys && forall a, b | a in s && b in s && a != b :: m[a] != m[b]
    ensures |Image(s, m)| == |s|
    decreases |s|
  {
    if s != {} {
      var x :| x in s;
      var rest := s - {x};
      ImageSize(rest, m);
      assert Image(s, m) == Image(rest, m) + {m[x]};
    }
  }

  lemma CallEdgeIs(fs: set<Function>, vs: set<Vertex>, g: Arcs, links: Links, c: Vertex)
    requires LinksOk(fs, vs, g, links) && c in links.callEdge
    ensures links.callEdge[c] in g && links.callEdge[c].kind == FunctionCall(c)
  {
    assert CallLinked(g, links, c);
  }

  lemma CallEdgesAre(fs: set<Function>, vs: set<Vertex>, g: Arcs, links: Links, f: Function)
    requires LinksOk(fs, vs, g, links)
    ensures |CallEdgesTo(links, f)| == |CallsTo(links, f)|
    ensures forall e | e in CallEdgesTo(links, f) :: e in g && e.kind.FunctionCall?
  {
    hide LinksOk;
    var s := CallsTo(links, f);
    forall c | c in s ensures links.callEdge[c] in g && links.callEdge[c].kind == FunctionCall(c) {
      CallEdgeIs(fs, vs, g, links, c);
    }
    ImageSize(s, links.callEdge);
    EdgesOfCalls(links, f);
    forall e | e in CallEdgesTo(links, f) ensures e in g && e.kind.FunctionCall? {
      var c :| c in CallsTo(links, f) && links.callEdge[c] == e;
    }
  }

  lemma EdgesOfCalls(links: Links, f: Function)
    ensures CallEdgesTo(links, f) == Image(CallsTo(links, f), links.callEdge)
  {
    forall e | e in CallEdgesTo(links, f) ensures e in Image(CallsTo(links, f), links.callEdge) {
      var c :| c in links.callEdge && c.statement == CallResolved(f) && links.callEdge[c] == e;
      assert c in CallsTo(links, f);
    }
  }

  /** An ENTRY has its self edge and one edge for each linked call. */
  lemma EntryInDegree(fs: set<Function>, vs: set<Vertex>, g: Arcs, links: Links, f: Function)
    requires ProgramLinked(fs, vs, g, links) && f in fs
    ensures |In(g, f.entry)| == 1 + |CallsTo(links, f)|
    ensures In(g, f.entry) - {f.entrySelfEdge} == CallEdgesTo(links, f)
    ensures |CallEdgesTo(links, f)| == |CallsTo(links, f)|
    ensures f.entrySelfEdge in In(g, f.entry) && forall e | e in CallEdgesTo(links, f) :: e.kind.FunctionCall?
  {
    hide LinksOk, UnresolvedOk, EndsIn;
    CallEdgesAre(fs, vs, g, links, f);
    assert f.entrySelfEdge !in CallEdgesTo(links, f);
  }

  /** A function is called if its ENTRY has an in-edge besides its self edge, and exactly if a call of it was linked. */
  method IsCalled(f: Function, ghost fs: set<Function>, ghost vs: set<Vertex>, ghost g: Arcs,
                  ghost links: Links) returns (called: bool)
    requires Represents(vs, g) && ProgramLinked(fs, vs, g, links) && f in fs
    ensures called <==> exists c :: c in links.callEdge && c.statement == CallResolved(f)
  {
    hide Represents, ProgramLinked;
    EntryInDegree(fs, vs, g, links, f);
    LinkedParts(fs, vs, g, links);
    TargetEnds(fs, vs, g, f);
    EdgeSets(vs, g, f.entry);
    called := |f.entry.inEdges| > 1;
    assert called <==> CallsTo(links, f) != {};
    assert forall c | c in links.callEdge && c.statement == CallResolved(f) :: c in CallsTo(links, f);
  }

  /** The in-edges that are counted at all. */
  ghost predicate Counts(e: Edge, g: Arcs, onlyDecisionPredecessors: bool)
    requires e in g
    reads e`isBackEdge
  {
    !e.isBackEdge && (onlyDecisionPredecessors ==> g[e].src.statement == If || g[e].src.statement == Switch)
  }

  ghost function Counted(g: Arcs, v: Vertex, onlyDecisionPredecessors: bool): set<Edge>
    reads g.Keys`isBackEdge
  {
    set e | e in g && g[e].dst == v && Counts(e, g, onlyDecisionPredecessors)
  }

  ghost predicate NoCalls(es: set<Edge>)
  {
    forall e | e in es :: !e.kind.FunctionCall?
  }

  ghost predicate OnlyCalls(es: set<Edge>)
  {
    forall e | e in es :: e.kind.FunctionCall?
  }

  ghost function NotReturns(es: set<Edge>): set<Edge>
  {
    set e | e in es && !e.kind.Return?
  }

  ghost function NeitherCallsNorReturns(es: set<Edge>): set<Edge>
  {
    set e | e in es && !e.kind.Return? && !e.kind.FunctionCall?
  }

  /** What the count can be, once the edges `seen` have been looked at in some order. */
  ghost predicate CountOk(seen: set<Edge>, i: int, sawFunctionCall: bool)
  {
    && (sawFunctionCall <==> !NoCalls(seen))
    && (!sawFunctionCall ==> i == |NotReturns(seen)|)
    && (sawFunctionCall ==> 1 <= i <= 1 + |NeitherCallsNorReturns(seen)|)
    && (OnlyCalls(seen) ==> i == if seen == {} then 0 else 1)
  }

  lemma CountMore(seen: set<Edge>, i: int, sawFunctionCall: bool, e: Edge)
    requires CountOk(seen, i, sawFunctionCall) && e !in seen
    ensures CountOk(seen + {e}, if !e.kind.Return? && !sawFunctionCall then i + 1 else i,
                    sawFunctionCall || e.kind.FunctionCall?)
  {
    SetsMore(seen, e);
    hide NotReturns, NeitherCallsNorReturns, NoCalls, OnlyCalls;
  }

  lemma SetsMore(seen: set<Edge>, e: Edge)
    requires e !in seen
    ensures |NotReturns(seen + {e})| == |NotReturns(seen)| + if e.kind.Return? then 0 else 1
    ensures |NeitherCallsNorReturns(seen + {e})| ==
            |NeitherCallsNorReturns(seen)| + if e.kind.Return? || e.kind.FunctionCall? then 0 else 1
    ensures NoCalls(seen) ==> NotReturns(seen) == NeitherCallsNorReturns(seen)
    ensures NoCalls(seen + {e}) <==> NoCalls(seen) && !e.kind.FunctionCall?
    ensures OnlyCalls(seen + {e}) <==> OnlyCalls(seen) && e.kind.FunctionCall?
    ensures OnlyCalls(seen) && seen != {} ==> !NoCalls(seen)
    ensures seen == {} ==> NoCalls(seen)
  {
    NotReturnsMore(seen, e);
    PlainMore(seen, e);
    hide NotReturns, NeitherCallsNorReturns;
    assert e in seen + {e} && forall x | x in seen :: x in seen + {e};
  }

  lemma NotReturnsMore(seen: set<Edge>, e: Edge)
    requires e !in seen
    ensures |NotReturns(seen + {e})| == |NotReturns(seen)| + if e.kind.Return? then 0 else 1
    ensures NoCalls(seen) ==> NotReturns(seen) == NeitherCallsNorReturns(seen)
  {
    assert NotReturns(seen + {e}) == NotReturns(seen) + if e.kind.Return? then {} else {e};
  }

  lemma PlainMore(seen: set<Edge>, e: Edge)
    requires e !in seen
    ensures |NeitherCallsNorReturns(seen + {e})| ==
            |NeitherCallsNorReturns(seen)| + if e.kind.Return? || e.kind.FunctionCall? then 0 else 1
  {
    assert NeitherCallsNorReturns(seen + {e}) ==
           NeitherCallsNorReturns(seen) + if e.kind.Return? || e.kind.FunctionCall? then {} else {e};
  }

  /** Counts the in-edges of `v` that are not marked, in any order: no Return edge, and nothing after the first call.
      So the result depends on the order where calls and other edges meet, and nowhere else. */
  method FilteredInDegree(v: Vertex, onlyDecisionPredecessors: bool, ghost vs: set<Vertex>,
                          ghost g: Arcs) returns (i: int)
    requires Represents(vs, g) && v in vs
    ensures var es := Counted(g, v, onlyDecisionPredecessors);
            && (NoCalls(es) ==> i == |NotReturns(es)|)
            && (!NoCalls(es) ==> 1 <= i <= 1 + |NeitherCallsNorReturns(es)|)
            && (OnlyCalls(es) ==> i == if es == {} then 0 else 1)
  {
    hide Represents, CountOk;
    EdgeSets(vs, g, v);
    i := 0;
    var sawFunctionCallAlready := false;
    var todo := v.inEdges;
    ghost var seen := {};
    CountNothing();
    while todo != {}
      invariant todo <= v.inEdges && v.inEdges == In(g, v)
      invariant forall e :: e in seen <==> e in v.inEdges - todo && Counts(e, g, onlyDecisionPredecessors)
      invariant CountOk(seen, i, sawFunctionCallAlready)
    {
      var e :| e in todo;
      EdgeEnds(vs, g, e);
      if !e.isBackEdge && (!onlyDecisionPredecessors || e.source.statement.IsDecision()) {
        CountMore(seen, i, sawFunctionCallAlready, e);
        seen := seen + {e};
        if !e.kind.Return? && !sawFunctionCallAlready {
          i := i + 1;
        }
        if e.kind.FunctionCall? {
          sawFunctionCallAlready := true;
        }
      }
      todo := todo - {e};
    }
    assert seen == Counted(g, v, onlyDecisionPredecessors);
    CountMeans(seen, i, sawFunctionCallAlready);
  }

  lemma CountNothing()
    ensures CountOk({}, 0, false)
  {
    assert NotReturns({}) == {};
  }

  lemma CountMeans(seen: set<Edge>, i: int, sawFunctionCall: bool)
    requires CountOk(seen, i, sawFunctionCall)
    ensures NoCalls(seen) ==> i == |NotReturns(seen)|
    ensures !NoCalls(seen) ==> 1 <= i <= 1 + |NeitherCallsNorReturns(seen)|
    ensures OnlyCalls(seen) ==> i == if seen == {} then 0 else 1
  {
  }

  /** However many calls there are, an ENTRY is waited for once, and only if it is called: its self edge is marked,
      the call edges are not. */
  lemma EntryCountsOnce(fs: set<Function>, vs: set<Vertex>, g: Arcs, links: Links, f: Function)
    requires ProgramLinked(fs, vs, g, links) && f in fs && f.entrySelfEdge.isBackEdge
    requires forall e | e in g && e.kind.FunctionCall? :: !e.isBackEdge
    ensures OnlyCalls(Counted(g, f.entry, false))
    ensures Counted(g, f.entry, false) == {} <==> CallsTo(links, f) == {}
  {
    hide ProgramLinked;
    EntryInDegree(fs, vs, g, links, f);
    var es := Counted(g, f.entry, false);
    forall e | e in es ensures e in CallEdgesTo(links, f) {
      assert e in In(g, f.entry);
    }
    forall e | e in CallEdgesTo(links, f) ensures e in es {
      assert e in In(g, f.entry);
    }
    assert es == CallEdgesTo(links, f);
  }
}
