/** A program from its statement lists to the verdicts on its constraints. */
module Analysis {
  import opened Walks
  import opened Graphs
  import opened Programs
  import opened Resolution
  import opened Creation
  import opened Contraction
  import opened CfgAlgs
  import opened ControlFlowGraphs
  import opened Looks
  import opened Traversals
  import opened Reachability
  import opened Entries
  import opened Linking
  import opened LinkedPrograms
  import opened Executions
  import opened ProgramRuns
  import opened BodiesKept
  import opened Finishing

  /** What there is to know about all the functions of a program. */
  datatype State = State(vs: set<Vertex>, g: Arcs, links: Links, back: set<Edge>, bodies: seq<Body>)

  ghost predicate Sound(fs: set<Function>, s: State)
    reads s.vs`inEdges, s.vs`outEdges, s.vs`index, s.g.Keys`source, s.g.Keys`target, s.g.Keys`isBackEdge
    reads Cfgs(fs)`vertices, Cfgs(fs)`nextVertexId
  {
    && Represents(s.vs, s.g) && ProgramLinked(fs, s.vs, s.g, s.links) && CfgsOk(fs, s.vs)
    && MarkedAre(s.g.Keys, s.back) && MarksOk(fs, s.g, s.back)
  }

  lemma SoundParts(fs: set<Function>, s: State)
    requires Sound(fs, s)
    ensures Represents(s.vs, s.g) && ProgramLinked(fs, s.vs, s.g, s.links) && CfgsOk(fs, s.vs)
    ensures MarkedAre(s.g.Keys, s.back) && MarksOk(fs, s.g, s.back)
  {
  }

  lemma EmptyProgram()
    ensures Sound({}, State({}, map[], Links(map[], map[]), {}, [])) && NothingLost({}, map[], {})
  {
  }

  // ----- One more function -----

  lemma RepresentsJoin(vs: set<Vertex>, g: Arcs, vs1: set<Vertex>, h: Arcs)
    requires Represents(vs, g) && Represents(vs1, h) && vs !! vs1 && g.Keys !! h.Keys
    ensures Represents(vs + vs1, g + h)
  {
    forall v | v in vs ensures Out(g + h, v) == Out(g, v) && In(g + h, v) == In(g, v) {
      NoEndsOutside(vs1, h, v);
    }
    forall v | v in vs1 ensures Out(g + h, v) == Out(h, v) && In(g + h, v) == In(h, v) {
      NoEndsOutside(vs, g, v);
    }
  }

  lemma MarkedJoin(g: Arcs, h: Arcs, back: set<Edge>, marked: set<Edge>)
    requires MarkedAre(g.Keys, back) && MarkedAre(h.Keys, marked) && back <= g.Keys && g.Keys !! h.Keys
    ensures MarkedAre((g + h).Keys, back + marked * h.Keys)
  {
  }

  lemma CfgsJoin(fs: set<Function>, vs: set<Vertex>, f: Function, vs1: set<Vertex>)
    requires CfgsOk(fs, vs) && f.cfg !in Cfgs(fs) && f.cfg.vertices <= vs1 && vs !! vs1 && f.cfg.IndicesUnique()
    ensures CfgsOk(fs + {f}, vs + vs1)
  {
  }

  ghost function Joined(s: State, vs1: set<Vertex>, r: Record): State
  {
    State(s.vs + vs1, s.g + r.final, s.links, s.back + r.marked * r.final.Keys, s.bodies + [NewBody(r, vs1)])
  }

  lemma SoundJoin(fs: set<Function>, s: State, f: Function, vs1: set<Vertex>, r: Record)
    requires Sound(fs, s) && IsNew(fs, s.vs, s.g, f, vs1, r)
    requires Represents(vs1, r.final) && MarkedAre(r.final.Keys, r.marked)
    requires f.cfg !in Cfgs(fs) && f.cfg.vertices <= vs1 && f.cfg.IndicesUnique()
    ensures Sound(fs + {f}, Joined(s, vs1, r))
    ensures NothingHidden(r.c.prog) && NothingLost(fs, s.g, s.back) ==>
              NothingLost(fs + {f}, Joined(s, vs1, r).g, Joined(s, vs1, r).back)
  {
    hide Represents, ProgramLinked, CfgsOk, MarkedAre, MarksOk, NothingLost, IsNew, Created, NothingHidden;
    hide NoResolvedCalls;
    SoundParts(fs, s);
    NewMeans(fs, s.vs, s.g, f, vs1, r);
    RepresentsJoin(s.vs, s.g, vs1, r.final);
    FunctionJoins(fs, s.vs, s.g, s.links, f, vs1, r);
    CfgsJoin(fs, s.vs, f, vs1);
    BackWithin(fs, s.g, s.back);
    MarkedJoin(s.g, r.final, s.back, r.marked);
    MarksJoin(fs, s.vs, s.g, s.back, f, vs1, r);
    LinkedParts(fs, s.vs, s.g, s.links);
    if NothingHidden(r.c.prog) && NothingLost(fs, s.g, s.back) {
      NothingLostJoin(fs, s.vs, s.g, s.back, f, vs1, r);
    }
  }

  lemma BackWithin(fs: set<Function>, g: Arcs, back: set<Edge>)
    requires MarksOk(fs, g, back)
    ensures back <= g.Keys
  {
  }

  lemma ExitStays(r: Record)
    requires Created(r)
    ensures r.c.at != [] && r.c.at[|r.c.at| - 1] in Elements(r.c.at) - r.gone && r.c.at[0] in Elements(r.c.at) - r.gone
  {
    hide Drawn, WellMarked, Contracted, OneWayIn, DegreesKept;
  }

  lemma CreatedIsNew(fs: set<Function>, vs: set<Vertex>, g: Arcs, f: Function, vs1: set<Vertex>, r: Record)
    requires Created(r) && NoResolvedCalls(r.c.prog) && f !in fs && |r.c.at| == |r.c.prog| + 2
    requires f.entry == r.c.at[0] && f.exit == r.c.at[|r.c.prog| + 1] && f.entrySelfEdge == r.entrySelf
    requires Elements(r.c.at) - r.gone <= vs1 && Represents(vs1, r.final) && vs1 <= Elements(r.orig) + Elements(r.c.at)
    requires vs !! vs1 && g.Keys !! r.final.Keys
    ensures IsNew(fs, vs, g, f, vs1, r)
  {
    hide Created, NoResolvedCalls;
    ExitStays(r);
  }

  // ----- Linking all functions -----

  lemma NothingResolvable(ren: map<Vertex, Vertex>, functionMap: map<string, Function>, vertices: set<Vertex>)
    requires ren.Keys == ResolvableIn(vertices, functionMap) && ReplacementsOk(ren, functionMap)
    ensures ResolvableIn(vertices - ren.Keys + ren.Values, functionMap) == {}
  {
    forall w | w in ren.Values ensures !Resolvable(w, functionMap) {
      var v :| v in ren && ren[v] == w;
    }
  }

  lemma SoundLinked(fs: set<Function>, s: State, functionMap: map<string, Function>, ren: map<Vertex, Vertex>,
                    s': State)
    requires ProgramLinked(fs, s.vs, s.g, s.links) && MarksOk(fs, s.g, s.back)
    requires CallsLinked(s.vs, s.g, s.links, ren, s'.vs, s'.g, s'.links) && ReplacementsOk(ren, functionMap)
    requires ren.Values !! s.vs
    requires Represents(s'.vs, s'.g) && ProgramLinked(fs, s'.vs, s'.g, s'.links) && CfgsOk(fs, s'.vs)
    requires MarkedAre(s'.g.Keys, s.back) && s'.back == s.back
    ensures Sound(fs, s') && (NothingLost(fs, s.g, s.back) ==> NothingLost(fs, s'.g, s'.back))
  {
    hide Represents, ProgramLinked, CfgsOk, MarkedAre, NothingLost, ReplacementsOk, CallsLinked;
    LinkedVertices(s.vs, s.g, s.links, ren, s'.vs, s'.g, s'.links);
    if NothingLost(fs, s.g, s.back) {
      NothingLostLinked(fs, s.vs, s.g, s.links, functionMap, ren, s'.vs, s'.g, s'.links, s.back);
    }
  }

  lemma MarkedStill(g: Arcs, h: Arcs, back: set<Edge>)
    requires MarkedAre(g.Keys, back) && back <= g.Keys && forall e | e in h && e !in g :: !e.isBackEdge
    ensures MarkedAre(h.Keys, back)
  {
  }

  ghost function UnresolvedIn(vertices: set<Vertex>): set<Vertex>
  {
    set v | v in vertices && v.statement.CallUnresolved?
  }

  lemma UnresolvedLeft(ren: map<Vertex, Vertex>, functionMap: map<string, Function>, vertices: set<Vertex>)
    requires ren.Keys == ResolvableIn(vertices, functionMap) && ReplacementsOk(ren, functionMap)
    ensures UnresolvedIn(vertices - ren.Keys + ren.Values)
              == set v | v in vertices && v.statement.CallUnresolved? && v.statement.name !in functionMap
  {
    forall w | w in ren.Values ensures w.statement.CallResolved? {
      var v :| v in ren && ren[v] == w;
    }
  }

  /** The graphs of the functions list the vertices that their bodies say. */
  ghost predicate CfgsListed(functions: seq<Function>, bodies: seq<Body>)
    reads Cfgs(Elements(functions))`vertices
  {
    && |bodies| == |functions|
    && forall k | 0 <= k < |functions| ::
         functions[k] in Elements(functions) && functions[k].cfg.vertices == Listed(bodies[k])
  }

  /** The program is sound, and so are the bodies of its functions. */
  ghost predicate Modelled(functions: seq<Function>, s: State)
    reads s.vs`inEdges, s.vs`outEdges, s.vs`index, s.g.Keys`source, s.g.Keys`target, s.g.Keys`isBackEdge
    reads Cfgs(Elements(functions))`vertices, Cfgs(Elements(functions))`nextVertexId
  {
    Sound(Elements(functions), s) && BodiesOk(functions, s.vs, s.g, s.bodies) && CfgsListed(functions, s.bodies)
  }

  lemma ModelledParts(functions: seq<Function>, s: State)
    requires Modelled(functions, s)
    ensures Sound(Elements(functions), s) && BodiesOk(functions, s.vs, s.g, s.bodies) && CfgsListed(functions, s.bodies)
  {
    hide Sound, BodiesOk, CfgsListed;
  }

  lemma ListedAt(functions: seq<Function>, bodies: seq<Body>, k: nat)
    requires CfgsListed(functions, bodies) && k < |functions|
    ensures |bodies| == |functions| && functions[k] in Elements(functions)
    ensures functions[k].cfg.vertices == Listed(bodies[k])
  {
  }

  ghost function LinkedState(s: State, k: nat, functions: seq<Function>, functionMap: map<string, Function>,
                             ren: map<Vertex, Vertex>, vs: set<Vertex>, g: Arcs, links: Links): State
    requires k < |s.bodies|
  {
    State(vs, g, links, s.back, s.bodies[k := Relinked(s.bodies[k], functions, functionMap, ren)])
  }

  lemma ItReplaces(b: Body, functions: seq<Function>, functionMap: map<string, Function>, ren: map<Vertex, Vertex>,
                   vs: set<Vertex>)
    requires ren.Keys == ResolvableIn(Listed(b), functionMap) && ReplacementsOk(ren, functionMap)
    requires ren.Values !! vs && ren.Values !! b.vs && functionMap.Values <= Elements(functions)
    ensures Replaces(b, functions, functionMap, ren, vs)
  {
  }

  /** What has become of the bodies and the code. */
  ghost predicate LinkedSo(functions: seq<Function>, s: State, k: nat, functionMap: map<string, Function>,
                           ren: map<Vertex, Vertex>, s': State)
  {
    && BodiesOk(functions, s'.vs, s'.g, s'.bodies) && k < |s.bodies| && |s'.bodies| == |s.bodies|
    && Listed(s'.bodies[k]) == Listed(s.bodies[k]) - ren.Keys + ren.Values && k < |CodeOf(s.bodies)|
    && CodeOf(s'.bodies) == CodeOf(s.bodies)[k := LinkedListing(CodeOf(s.bodies)[k], functions, functionMap)]
  }

  lemma LinkedSoMeans(functions: seq<Function>, s: State, k: nat, functionMap: map<string, Function>,
                      ren: map<Vertex, Vertex>, s': State)
    ensures LinkedSo(functions, s, k, functionMap, ren, s') <==>
            && BodiesOk(functions, s'.vs, s'.g, s'.bodies) && k < |s.bodies| && |s'.bodies| == |s.bodies|
            && Listed(s'.bodies[k]) == Listed(s.bodies[k]) - ren.Keys + ren.Values && k < |CodeOf(s.bodies)|
            && CodeOf(s'.bodies) == CodeOf(s.bodies)[k := LinkedListing(CodeOf(s.bodies)[k], functions, functionMap)]
  {
    hide BodiesOk, Listed, CodeOf, LinkedListing;
  }

  lemma BodiesAfter(functions: seq<Function>, s: State, k: nat, functionMap: map<string, Function>,
                    ren: map<Vertex, Vertex>, vs: set<Vertex>, g: Arcs, links: Links)
    requires k < |s.bodies| && CallsLinked(s.vs, s.g, s.links, ren, vs, g, links)
    requires Replaces(s.bodies[k], functions, functionMap, ren, s.vs) && BodiesOk(functions, s.vs, s.g, s.bodies)
    ensures LinkedSo(functions, s, k, functionMap, ren, LinkedState(s, k, functions, functionMap, ren, vs, g, links))
  {
    hide *;
    BodyAt(functions, s.vs, s.g, s.bodies, k);
    BodyParts(s.bodies[k], functions[k], functions, s.g);
    BodiesLinked(functions, s.vs, s.g, s.links, s.bodies, k, functionMap, ren, vs, g, links);
    ListedRelinked(s.bodies[k], functions, functionMap, ren, s.vs);
    CodeIs(s.bodies);
    CodeRelinked(s.bodies, k, functions, functionMap, ren);
    StateIs(s, k, functions, functionMap, ren, vs, g, links);
    LinkedSoMeans(functions, s, k, functionMap, ren, LinkedState(s, k, functions, functionMap, ren, vs, g, links));
  }

  lemma StateIs(s: State, k: nat, functions: seq<Function>, functionMap: map<string, Function>,
                ren: map<Vertex, Vertex>, vs: set<Vertex>, g: Arcs, links: Links)
    requires k < |s.bodies|
    ensures var s' := LinkedState(s, k, functions, functionMap, ren, vs, g, links);
            && s'.bodies == s.bodies[k := Relinked(s.bodies[k], functions, functionMap, ren)]
            && s'.vs == vs && s'.g == g && s'.links == links && s'.back == s.back
  {
  }

  /** The graphs of the other functions still list the same vertices. */
  lemma ListedStill(functions: seq<Function>, bodies: seq<Body>, k: nat, b: Body, lists: map<Function, set<Vertex>>)
    requires k < |functions| && |bodies| == |functions|
    requires ListedBy(functions, bodies, lists) && SameVertices(Elements(functions) - {functions[k]}, lists)
    requires forall i, j | 0 <= i < j < |functions| :: functions[i] != functions[j]
    requires functions[k].cfg.vertices == Listed(b)
    ensures CfgsListed(functions, bodies[k := b])
  {
    hide Listed;
  }

  ghost predicate ListedBy(functions: seq<Function>, bodies: seq<Body>, lists: map<Function, set<Vertex>>)
  {
    && |bodies| == |functions|
    && forall m | 0 <= m < |functions| ::
         functions[m] in Elements(functions) && functions[m] in lists && lists[functions[m]] == Listed(bodies[m])
  }

  /** Links one function of the program. */
  method LinkFunction(functions: seq<Function>, k: nat, functionMap: map<string, Function>, ghost s: State)
    returns (unresolved: set<Vertex>, ghost s': State)
    requires k < |functions| && functionMap.Values <= Elements(functions) && Modelled(functions, s)
    requires forall i, j | 0 <= i < j < |functions| :: functions[i] != functions[j]
    modifies functions[k].cfg, Cfgs(Elements(functions))`edges
    modifies s.vs`inEdges, s.vs`outEdges, s.g.Keys`source, s.g.Keys`target
    ensures Modelled(functions, s')
    ensures NothingLost(Elements(functions), s.g, s.back) ==> NothingLost(Elements(functions), s'.g, s'.back)
    ensures ResolvableIn(functions[k].cfg.vertices, functionMap) == {}
    ensures unresolved == UnresolvedIn(functions[k].cfg.vertices)
    ensures k < |CodeOf(s.bodies)|
    ensures CodeOf(s'.bodies) == CodeOf(s.bodies)[k := LinkedListing(CodeOf(s.bodies)[k], functions, functionMap)]
    ensures fresh(s'.vs - s.vs) && forall e | e in s'.g && e !in s.g :: fresh(e)
  {
    hide Modelled, Sound, BodiesOk, CfgsListed, Represents, ProgramLinked, CfgsOk, MarkedAre, MarksOk;
    hide NothingLost, Listed;
    hide CallsLinked, ReplacementsOk, ResolvableIn, Replaces, LinkedSo, LinkedState, LinkedListing, CodeOf;
    hide SameVertices;
    hide ListedBy, VertexSets, Disjoint, AllUnique, UnresolvedIn, Graph.IndicesUnique, EndsIn;
    var f := functions[k];
    ghost var fs := Elements(functions);
    ModelledParts(functions, s);
    SoundParts(fs, s);
    BackWithin(fs, s.g, s.back);
    ListedAt(functions, s.bodies, k);
    ghost var vertices := f.cfg.vertices;
    ghost var lists := VertexSets(fs);
    ghost var others := fs - {f};
    OthersListed(functions, s.bodies);
    CfgsParts(fs, s.vs, f, others);
    ghost var vs', g', links', ren;
    unresolved, vs', g', links', ren := Link(f, functionMap, fs, s.vs, s.g, s.links);
    ItReplaces(s.bodies[k], functions, functionMap, ren, s.vs);
    s' := LinkedState(s, k, functions, functionMap, ren, vs', g', links');
    StateIs(s, k, functions, functionMap, ren, vs', g', links');
    BodiesAfter(functions, s, k, functionMap, ren, vs', g', links');
    LinkedSoMeans(functions, s, k, functionMap, ren, s');
    MarkedStill(s.g, g', s.back);
    NothingResolvable(ren, functionMap, vertices);
    UnresolvedLeft(ren, functionMap, vertices);
    LinkedVertices(s.vs, s.g, s.links, ren, vs', g', links');
    SoundLinked(fs, s, functionMap, ren, s');
    ListedStill(functions, s.bodies, k, s'.bodies[k], lists);
    ModelledSo(functions, s');
  }

  lemma ModelledSo(functions: seq<Function>, s: State)
    requires Sound(Elements(functions), s) && BodiesOk(functions, s.vs, s.g, s.bodies)
    requires CfgsListed(functions, s.bodies)
    ensures Modelled(functions, s)
  {
    hide Sound, BodiesOk, CfgsListed;
  }

  lemma OthersListed(functions: seq<Function>, bodies: seq<Body>)
    requires CfgsListed(functions, bodies)
    ensures ListedBy(functions, bodies, VertexSets(Elements(functions)))
  {
    hide Listed;
  }

  // ----- The program -----

  lemma NotAmong(fs: set<Function>, f: Function)
    requires forall h | h in fs :: h.cfg != f.cfg
    ensures f.cfg !in Cfgs(fs) && f !in fs
  {
  }

  lemma NewCreatedBody(r: Record, vs: set<Vertex>, f: Function)
    requires |r.c.at| == |r.c.prog| + 2 && f.entry == r.c.at[0] && f.exit == r.c.at[|r.c.at| - 1]
    requires NoResolvedCalls(r.c.prog)
    requires Elements(r.c.at) - r.gone <= vs <= Elements(r.orig) + Elements(r.c.at) && EndsIn(vs, r.final) && Created(r)
    ensures CreatedBody(NewBody(r, vs), f)
    ensures Listed(NewBody(r, vs)) == Elements(r.c.at) - r.gone
  {
    hide Created, NoResolvedCalls;
    assert forall v | v in Elements(r.c.at) - r.gone :: Ren(map[], v) == v;
  }

  lemma ItsEnds(vs: set<Vertex>, g: Arcs)
    requires Represents(vs, g)
    ensures EndsIn(vs, g)
  {
  }

  lemma JoinedIs(s: State, vs1: set<Vertex>, r: Record)
    ensures var s' := Joined(s, vs1, r);
            && s'.vs == s.vs + vs1 && s'.g == s.g + r.final && s'.links == s.links
            && s'.back == s.back + r.marked * r.final.Keys && s'.bodies == s.bodies + [NewBody(r, vs1)]
  {
  }

  lemma ListedMore(functions: seq<Function>, bodies: seq<Body>, f: Function, b: Body)
    requires CfgsListed(functions, bodies) && f.cfg.vertices == Listed(b)
    ensures CfgsListed(functions + [f], bodies + [b])
  {
    hide Listed;
    assert forall h | h in functions + [f] :: h in Elements(functions + [f]);
  }

  /** Creates one more function for the program. */
  method BuildFunction(statements: seq<Vertex>, ghost functions: seq<Function>, ghost s: State)
    returns (f: Function, warned: bool, ghost s': State)
    requires Modelled(functions, s)
    requires Distinct(statements) && EdgeFree(Elements(statements)) && Elements(statements) !! s.vs
    requires NoResolvedCalls(StatementsOf(statements))
    modifies statements`index, statements`inEdges, statements`outEdges
    ensures Modelled(functions + [f], s') && f !in Elements(functions) && !warned
    ensures CodeOf(s'.bodies) == CodeOf(s.bodies) + [Listing(StatementsOf(statements), map[])]
    ensures NothingHidden(StatementsOf(statements)) && NothingLost(Elements(functions), s.g, s.back) ==>
              NothingLost(Elements(functions + [f]), s'.g, s'.back)
  {
    hide Sound, Distinct, EdgeFree, NoResolvedCalls, StatementsOf, NothingHidden, NothingLost, Represents;
    hide Created, MarkedAre, IsNew, Joined, Graph.IndicesUnique, Modelled, CfgsListed, BodiesOk, CreatedBody;
    hide Listed, CodeOf;
    hide EndsIn, NewBody, Searched;
    ElementsAre(statements);
    ghost var fs := Elements(functions);
    ModelledParts(functions, s);
    ghost var vs, r;
    f, warned, vs, r := CreateControlFlowGraph(statements);
    NotAmong(fs, f);
    CreatedIsNew(fs, s.vs, s.g, f, vs, r);
    SoundJoin(fs, s, f, vs, r);
    s' := Joined(s, vs, r);
    JoinedIs(s, vs, r);
    NewMember(functions, f);
    ItsEnds(vs, r.final);
    NewCreatedBody(r, vs, f);
    BodiesJoin(functions, s.vs, s.g, s.bodies, f, vs, r);
    CodeJoin(s.bodies, r, vs);
    ListedMore(functions, s.bodies, f, NewBody(r, vs));
    ModelledSo(functions + [f], s');
  }

  /** All lists with their calls linked. */
  ghost function LinkedCode(code: Code, n: nat, functions: seq<Function>, functionMap: map<string, Function>): Code
  {
    seq(|code|, k requires 0 <= k < |code| => if k < n then LinkedListing(code[k], functions, functionMap) else code[k])
  }

  lemma LinkedCodeStart(code: Code, functions: seq<Function>, functionMap: map<string, Function>)
    ensures LinkedCode(code, 0, functions, functionMap) == code
  {
  }

  lemma LinkedCodeMore(code: Code, n: nat, functions: seq<Function>, functionMap: map<string, Function>)
    requires n < |code|
    ensures var before := LinkedCode(code, n, functions, functionMap);
            && n < |before|
            && LinkedCode(code, n + 1, functions, functionMap) ==
               before[n := LinkedListing(before[n], functions, functionMap)]
  {
  }

  class Program {
    var functions: seq<Function>
    var functionMap: map<string, Function>
    ghost var state: State

    constructor ()
      ensures Valid() && functions == [] && functionMap == map[] && NothingIsLost() && TheCode() == []
    {
      functions, functionMap := [], map[];
      state := State({}, map[], Links(map[], map[]), {}, []);
      new;
      EmptyProgram();
    }

    ghost predicate Valid()
      reads this, state.vs`inEdges, state.vs`outEdges, state.vs`index
      reads state.g.Keys`source, state.g.Keys`target, state.g.Keys`isBackEdge
      reads Cfgs(Elements(functions))`vertices, Cfgs(Elements(functions))`nextVertexId
    {
      && functionMap.Values <= Elements(functions) && Modelled(functions, state)
      && forall i, j | 0 <= i < j < |functions| :: functions[i] != functions[j]
    }

    ghost predicate NothingIsLost()
      reads this
    {
      NothingLost(Elements(functions), state.g, state.back)
    }

    /** The statement lists of the program, with the calls that have been linked. */
    ghost function TheCode(): Code
      reads this
    {
      CodeOf(state.bodies)
    }

    /** The program with its graph and with how its functions came about. */
    ghost function TheWhole(): Whole
      reads this
    {
      WholeOf(functions, state)
    }

    /** Builds a function from its statement list. A later function of the same name takes over the name. */
    method AddFunction(identifier: string, statements: seq<Vertex>) returns (warned: bool)
      requires Valid() && Distinct(statements) && EdgeFree(Elements(statements)) && Elements(statements) !! state.vs
      requires NoResolvedCalls(StatementsOf(statements))
      modifies this, statements`index, statements`inEdges, statements`outEdges
      ensures Valid() && |functions| == |old(functions)| + 1 && old(functions) == functions[..|old(functions)|]
      ensures functionMap == old(functionMap)[identifier := functions[|old(functions)|]]
      ensures TheCode() == old(TheCode()) + [Listing(StatementsOf(statements), map[])]
      ensures old(NothingIsLost()) && NothingHidden(StatementsOf(statements)) ==> NothingIsLost()
      ensures !warned
    {
      hide Modelled, NothingLost, NothingHidden, Distinct, EdgeFree, Elements, NoResolvedCalls, StatementsOf, CodeOf;
      var f;
      ghost var s;
      f, warned, s := BuildFunction(statements, functions, state);
      NewMember(functions, f);
      MembersAre(functions);
      ValuesMore(functionMap, identifier, f);
      functions := functions + [f];
      functionMap := functionMap[identifier := f];
      state := s;
    }

    /** Links all functions, in the order in which they were built. No call that could be resolved is left. */
    method Link() returns (unresolved: set<Vertex>)
      requires Valid()
      modifies this`state, Cfgs(Elements(functions)), state.vs`inEdges, state.vs`outEdges
      modifies state.g.Keys`source, state.g.Keys`target
      ensures Valid() && (old(NothingIsLost()) ==> NothingIsLost())
      ensures TheCode() == LinkedCode(old(TheCode()), |functions|, functions, functionMap)
      ensures forall f | f in functions :: ResolvableIn(f.cfg.vertices, functionMap) == {}
      ensures unresolved == set f, v | f in functions && v in UnresolvedIn(f.cfg.vertices) :: v
    {
      hide Modelled, NothingLost, ResolvableIn, Elements, UnresolvedIn, CodeOf, LinkedCode;
      ghost var s;
      unresolved, s := LinkFunctions(functions, functionMap, state);
      state := s;
    }

    /** The verdict on the constraint that no path leads from the ENTRY of one function to that of another: `found` is
        false where the original complains that a function does not exist. */
    method Check(source: string, sink: string, g: Arcs, back: set<Edge>, budget: nat)
      returns (found: bool, finished: bool, violation: bool, path: seq<Edge>, ghost looks: seq<Edge>)
      requires Valid() && g == state.g && back == state.back
      ensures found <==> source in functionMap && sink in functionMap
      ensures found ==>
                var p := ProblemOf(g, back, functionMap[source], functionMap[sink]);
                && Plays(p, StartOf(p), looks, EndingOf(finished, path))
                && (!finished ==> |looks| == budget && CanLookFor(p, budget))
      ensures forall ranks: seq<nat> | found && CallsRanked(TheCode(), ranks) && Acyclic(StepArcs(g, back)) ::
                budget >= Enough(TheWhole(), ranks, NumberOf(functions, functionMap[source])) ==> finished
      ensures found && CallFree(g) && budget >= |g| ==> finished
      ensures found && finished ==> (violation <==> path != [])
      ensures found && finished && violation ==>
                var f, h := functionMap[source], functionMap[sink];
                && f != h && Witness(g, back, f.entry, f.entrySelfEdge, path, h.entry)
                && |path| > 1 && path[|path| - 1] in g && g[path[|path| - 1]].src.statement == CallResolved(h)
      ensures found && finished && NothingIsLost() ==>
                var i, j := NumberOf(functions, functionMap[source]), NumberOf(functions, functionMap[sink]);
                RightVerdict(TheCode(), i, j, violation)
    {
      hide Modelled, Plays, CanLookFor, CallsRanked, Acyclic, StepArcs, Enough, RightVerdict, NothingLost, Witness;
      hide CodeOf, CallFree, NumberOf, WholeOf, ProblemOf;
      found, finished, violation, path := source in functionMap && sink in functionMap, false, false, [];
      looks := [];
      if found {
        var f, h := functionMap[source], functionMap[sink];
        assert f in functionMap.Values && h in functionMap.Values;
        InTime(functions, state, f, h, back, budget);
        finished, violation, path, looks := RunRuleOn(f, h, g, back, budget, functions, state);
        if !finished {
          StillLooking(ProblemOf(g, back, f, h), looks, path);
        }
      }
    }
  }

  ghost function WholeOf(functions: seq<Function>, s: State): Whole
  {
    Whole(functions, s.vs, s.g, s.links, s.bodies)
  }

  lemma WholeOfIs(functions: seq<Function>, s: State)
    requires Modelled(functions, s)
    ensures WholeOk(WholeOf(functions, s)) && WholeOf(functions, s) == Whole(functions, s.vs, s.g, s.links, s.bodies)
  {
    hide *;
    ModelledParts(functions, s);
    SoundParts(Elements(functions), s);
    assert WholeOf(functions, s) == Whole(functions, s.vs, s.g, s.links, s.bodies) by {
      WholeOfMeans(functions, s);
    }
    WholeIsOk(WholeOf(functions, s));
  }

  lemma WholeOfMeans(functions: seq<Function>, s: State)
    ensures WholeOf(functions, s) == Whole(functions, s.vs, s.g, s.links, s.bodies)
  {
  }

  lemma StillLooking(p: Problem, looks: seq<Edge>, path: seq<Edge>)
    requires Plays(p, StartOf(p), looks, EndingOf(false, path))
    ensures CanLookFor(p, |looks|)
  {
    hide Plays;
  }

  /** Without recursion and without a cycle of steps, a large budget is never used up. */
  lemma InTime(functions: seq<Function>, s: State, source: Function, sink: Function, back: set<Edge>, budget: nat)
    requires source in Elements(functions) && sink in Elements(functions) && Modelled(functions, s)
    ensures forall ranks: seq<nat> | CallsRanked(CodeOf(s.bodies), ranks) && Acyclic(StepArcs(s.g, back)) ::
              budget >= Enough(WholeOf(functions, s), ranks, NumberOf(functions, source)) ==>
                !CanLookFor(ProblemOf(s.g, back, source, sink), budget)
  {
    hide *;
    WholeOfIs(functions, s);
    FunctionsAre(functions);
    var i, j := NumberOf(functions, source), NumberOf(functions, sink);
    forall ranks: seq<nat> | CallsRanked(CodeOf(s.bodies), ranks) && Acyclic(StepArcs(s.g, back))
                             && budget >= Enough(WholeOf(functions, s), ranks, i)
      ensures !CanLookFor(ProblemOf(s.g, back, source, sink), budget)
    {
      NonRecursiveEnds(WholeOf(functions, s), back, ranks, i, j, budget);
    }
  }

  /** A violation is reported exactly if the sink can be reached from the source by stepping over calls and entering
      them. So none is missed that a run could show; and if all that is called can return, some run shows it. */
  ghost predicate RightVerdict(code: Code, i: nat, j: nat, violation: bool)
  {
    && (violation <==> i != j && Reaches(Over(code, Called(code)), Place(i, 0), Place(j, 0)))
    && (i != j && RunsInto(code, i, j) ==> violation)
    && (violation && Called(code) <= Returning(code) ==> RunsInto(code, i, j))
  }

  lemma VerdictIsRight(code: Code, i: nat, j: nat, violation: bool)
    requires CodeOk(code)
    requires violation <==> i != j && Reaches(Over(code, Called(code)), Place(i, 0), Place(j, 0))
    ensures RightVerdict(code, i, j, violation)
  {
    hide CodeOk, RunsInto, Reaches, Called, Returning, Over;
    RunsIntoIfAllReturn(code, i, j);
  }

  lemma MembersAre(functions: seq<Function>)
    ensures forall i | 0 <= i < |functions| :: functions[i] in Elements(functions)
  {
  }

  method LinkFunctions(functions: seq<Function>, functionMap: map<string, Function>, ghost s0: State)
    returns (unresolved: set<Vertex>, ghost s: State)
    requires functionMap.Values <= Elements(functions) && Modelled(functions, s0)
    requires forall i, j | 0 <= i < j < |functions| :: functions[i] != functions[j]
    modifies Cfgs(Elements(functions)), s0.vs`inEdges, s0.vs`outEdges, s0.g.Keys`source, s0.g.Keys`target
    ensures Modelled(functions, s)
    ensures NothingLost(Elements(functions), s0.g, s0.back) ==> NothingLost(Elements(functions), s.g, s.back)
    ensures CodeOf(s.bodies) == LinkedCode(CodeOf(s0.bodies), |functions|, functions, functionMap)
    ensures forall f | f in functions :: ResolvableIn(f.cfg.vertices, functionMap) == {}
    ensures unresolved == set f, v | f in functions && v in UnresolvedIn(f.cfg.vertices) :: v
  {
    hide Modelled, NothingLost, ResolvableIn, UnresolvedIn, CodeOf, LinkedCode, LinkedListing, AllLinked;
    unresolved, s := {}, s0;
    ghost var code, lists := CodeOf(s0.bodies), [];
    LinkedCodeStart(code, functions, functionMap);
    NoneLinked(functionMap);
    var i := 0;
    while i < |functions|
      invariant i == |lists| <= |functions| && Modelled(functions, s)
      invariant NothingLost(Elements(functions), s0.g, s0.back) ==> NothingLost(Elements(functions), s.g, s.back)
      invariant CodeOf(s.bodies) == LinkedCode(code, i, functions, functionMap)
      invariant AllLinked(lists, functionMap, unresolved)
      invariant forall j | 0 <= j < i :: functions[j].cfg.vertices == lists[j]
      invariant fresh(s.vs - s0.vs) && forall e | e in s.g && e !in s0.g :: fresh(e)
    {
      MembersAre(functions);
      CfgsApart(functions, s, functions[i]);
      CodeLength(code, i, functions, functionMap);
      var more;
      more, s := LinkFunction(functions, i, functionMap, s);
      LinkedCodeMore(code, i, functions, functionMap);
      OneMoreLinked(lists, functionMap, unresolved, functions[i].cfg.vertices);
      lists := lists + [functions[i].cfg.vertices];
      unresolved := unresolved + more;
      i := i + 1;
    }
    AllLinkedMeans(functions, lists, functionMap, unresolved);
  }

  /** The graphs that list the vertices `lists` have no call left that could be resolved, and these that could not. */
  ghost predicate AllLinked(lists: seq<set<Vertex>>, functionMap: map<string, Function>, unresolved: set<Vertex>)
  {
    && (forall j | 0 <= j < |lists| :: ResolvableIn(lists[j], functionMap) == {})
    && unresolved == set j, v | 0 <= j < |lists| && v in UnresolvedIn(lists[j]) :: v
  }

  lemma NoneLinked(functionMap: map<string, Function>)
    ensures AllLinked([], functionMap, {})
  {
  }

  lemma OneMoreLinked(lists: seq<set<Vertex>>, functionMap: map<string, Function>, unresolved: set<Vertex>,
                      vertices: set<Vertex>)
    requires AllLinked(lists, functionMap, unresolved) && ResolvableIn(vertices, functionMap) == {}
    ensures AllLinked(lists + [vertices], functionMap, unresolved + UnresolvedIn(vertices))
  {
    hide ResolvableIn, UnresolvedIn;
    var lists' := lists + [vertices];
    forall v | v in unresolved + UnresolvedIn(vertices)
      ensures exists j :: 0 <= j < |lists'| && v in UnresolvedIn(lists'[j])
    {
      if v in UnresolvedIn(vertices) {
        assert lists'[|lists|] == vertices;
      } else {
        var j :| 0 <= j < |lists| && v in UnresolvedIn(lists[j]);
        assert lists'[j] == lists[j];
      }
    }
  }

  lemma AllLinkedMeans(functions: seq<Function>, lists: seq<set<Vertex>>, functionMap: map<string, Function>,
                       unresolved: set<Vertex>)
    requires |lists| == |functions| && AllLinked(lists, functionMap, unresolved)
    requires forall j | 0 <= j < |functions| :: functions[j].cfg.vertices == lists[j]
    ensures forall f | f in functions :: ResolvableIn(f.cfg.vertices, functionMap) == {}
    ensures unresolved == set f, v | f in functions && v in UnresolvedIn(f.cfg.vertices) :: v
  {
    hide ResolvableIn, UnresolvedIn;
  }

  lemma CodeLength(code: Code, n: nat, functions: seq<Function>, functionMap: map<string, Function>)
    ensures |LinkedCode(code, n, functions, functionMap)| == |code|
  {
  }

  lemma CfgsApart(functions: seq<Function>, s: State, f: Function)
    requires Modelled(functions, s) && f in Elements(functions)
    ensures forall h | h in Elements(functions) && h != f :: h.cfg != f.cfg
  {
    hide BodiesOk, CfgsListed;
  }

  lemma CallsAndEntry(fs: set<Function>, s: State, source: Function, sink: Function)
    requires ProgramLinked(fs, s.vs, s.g, s.links) && MarksOk(fs, s.g, s.back) && source in fs && sink in fs
    ensures CallsLeaveTheirVertex(s.g) && OnlyCalled(s.g, s.back, sink.entry)
    ensures (source.entry == sink.entry <==> source == sink)
  {
    hide ProgramLinked, MarksOk;
    LinkedParts(fs, s.vs, s.g, s.links);
    TargetsDiffer(fs, s.vs, s.g, source, sink);
    CallsMatch(fs, s.vs, s.g, s.links, s.back);
    EntryOnlyCalled(fs, s.vs, s.g, s.links, s.back, sink);
  }

  /** Into an ENTRY leads only a call of its function. */
  lemma WitnessCalls(fs: set<Function>, s: State, source: Function, sink: Function, path: seq<Edge>)
    requires ProgramLinked(fs, s.vs, s.g, s.links) && MarksOk(fs, s.g, s.back) && source in fs && sink in fs
    requires source != sink
    requires Witness(s.g, s.back, source.entry, source.entrySelfEdge, path, sink.entry)
    ensures |path| > 1 && path[|path| - 1] in s.g && s.g[path[|path| - 1]].src.statement == CallResolved(sink)
  {
    hide ProgramLinked, MarksOk, Witness, OnlyCalled, FunctionsOk, EntriesOk, UnresolvedOk, EndsIn;
    CallsAndEntry(fs, s, source, sink);
    WitnessEndsInCall(s.g, s.back, source.entry, source.entrySelfEdge, path, sink.entry);
    LinkedParts(fs, s.vs, s.g, s.links);
    var e := path[|path| - 1];
    assert CallLinked(s.g, s.links, e.kind.call);
    TargetsDiffer(fs, s.vs, s.g, s.g[e].src.statement.target, sink);
  }

  method RunRuleOn(source: Function, sink: Function, g: Arcs, back: set<Edge>, budget: nat,
                   ghost functions: seq<Function>, ghost s: State)
    returns (finished: bool, violation: bool, path: seq<Edge>, ghost looks: seq<Edge>)
    requires Modelled(functions, s) && g == s.g && back == s.back
    requires source in Elements(functions) && sink in Elements(functions)
    ensures |looks| <= budget && (!finished ==> |looks| == budget)
    ensures var p := ProblemOf(g, back, source, sink); Plays(p, StartOf(p), looks, EndingOf(finished, path))
    ensures CallFree(g) && budget >= |g| ==> finished
    ensures violation <==> path != []
    ensures finished && violation ==>
              && source != sink && Witness(g, back, source.entry, source.entrySelfEdge, path, sink.entry)
              && |path| > 1 && path[|path| - 1] in g && g[path[|path| - 1]].src.statement == CallResolved(sink)
    ensures finished && NothingLost(Elements(functions), g, back) ==>
              RightVerdict(CodeOf(s.bodies), NumberOf(functions, source), NumberOf(functions, sink), violation)
  {
    hide Sound, ProgramLinked, MarksOk, NothingLost, Witness, Reaches, CallsLeaveTheirVertex, OnlyCalled;
    hide CallFree, ReturnsCovered, Plays;
    hide Modelled, BodiesOk, CfgsListed, Elements, NumberOf, RightVerdict, CodeOf, PossibleArcs, FollowedArcs;
    ghost var fs := Elements(functions);
    ModelledParts(functions, s);
    SoundParts(fs, s);
    CallsAndEntry(fs, s, source, sink);
    var rule := new RuleReachability(source, sink);
    finished, violation, looks := rule.RunRule(g, back, budget);
    path := rule.predecessors;
    if finished && violation {
      WitnessCalls(fs, s, source, sink, path);
    }
    if NothingLost(fs, g, back) {
      Exactly(fs, s, source, sink);
      if finished {
        InTheLists(functions, s, source, sink, violation);
      }
    }
  }

  lemma InTheLists(functions: seq<Function>, s: State, source: Function, sink: Function, violation: bool)
    requires ProgramLinked(Elements(functions), s.vs, s.g, s.links) && BodiesOk(functions, s.vs, s.g, s.bodies)
    requires source in Elements(functions) && sink in Elements(functions)
    requires violation <==> source != sink && Reaches(PossibleArcs(s.g), source.entry, sink.entry)
    ensures RightVerdict(CodeOf(s.bodies), NumberOf(functions, source), NumberOf(functions, sink), violation)
  {
    hide *;
    FunctionsAre(functions);
    var i, j := NumberOf(functions, source), NumberOf(functions, sink);
    var w := Whole(functions, s.vs, s.g, s.links, s.bodies);
    WholeIsOk(w);
    GraphMeansLists(w, i, j);
    LeadsMeans(w, i, j);
    ItGets(w, Place(i, 0), Place(j, 0));
    CodeIsOk(functions, s.vs, s.g, s.bodies);
    VerdictIsRight(CodeOf(s.bodies), i, j, violation);
  }

  lemma WholeIsOk(w: Whole)
    requires ProgramLinked(Elements(w.functions), w.vs, w.g, w.links) && BodiesOk(w.functions, w.vs, w.g, w.bodies)
    ensures WholeOk(w)
  {
    hide ProgramLinked, BodiesOk;
  }

  lemma Exactly(fs: set<Function>, s: State, source: Function, sink: Function)
    requires ProgramLinked(fs, s.vs, s.g, s.links) && MarksOk(fs, s.g, s.back) && NothingLost(fs, s.g, s.back)
    requires source in fs && sink in fs
    ensures ReturnsCovered(s.g, s.back, source.entry)
    ensures Reaches(FollowedArcs(s.g, s.back), source.entry, sink.entry) <==>
              Reaches(PossibleArcs(s.g), source.entry, sink.entry)
  {
    hide *;
    VerdictOnLinkedProgram(fs, s.vs, s.g, s.links, s.back, source, sink);
  }

  lemma NewMember(functions: seq<Function>, f: Function)
    ensures Elements(functions + [f]) == Elements(functions) + {f}
  {
  }

  lemma ValuesMore(functionMap: map<string, Function>, identifier: string, f: Function)
    ensures functionMap[identifier := f].Values <= functionMap.Values + {f}
  {
  }

  // ----- A violation that no run shows -----

  /** The three lists of `NeverBack`, before linking. */
  ghost function NeverBackLists(): Code
  {
    [Listing([CallUnresolved("g"), CallUnresolved("h")], map[]),
     Listing([Label("L"), GotoUnlinked("L")], map[]),
     Listing([], map[])]
  }

  lemma NumbersOf(functions: seq<Function>)
    requires |functions| == 3 && functions[0] != functions[1] && functions[0] != functions[2]
    requires functions[1] != functions[2]
    ensures forall k | 0 <= k < 3 :: NumberOf(functions, functions[k]) == k
  {
    assert functions[1..][1..] == [functions[2]];
    assert NumberOf(functions[1..], functions[1]) == 0 && NumberOf([functions[2]], functions[2]) == 0;
    assert NumberOf(functions[1..], functions[2]) == 1;
  }

  /** Linking them links both calls. */
  lemma NeverBackLinked(functions: seq<Function>, functionMap: map<string, Function>)
    requires |functions| == 3 && functions[0] != functions[1] && functions[0] != functions[2]
    requires functions[1] != functions[2]
    requires functionMap == map["f" := functions[0], "g" := functions[1], "h" := functions[2]]
    ensures LinkedCode(NeverBackLists(), 3, functions, functionMap) == NeverBack()
  {
    NumbersOf(functions);
    hide NumberOf;
    var lists := NeverBackLists();
    assert functionMap["g"] == functions[1] && functionMap["h"] == functions[2] by {
      assert "g"[0] != "f"[0] && "h"[0] != "f"[0] && "g"[0] != "h"[0];
    }
    assert LinkedListing(lists[0], functions, functionMap).calls == map[1 := 1, 2 := 2];
    assert LinkedListing(lists[1], functions, functionMap).calls == map[];
    assert LinkedListing(lists[2], functions, functionMap).calls == map[];
  }

  lemma NeverBackNotHidden(code: Code)
    requires code == NeverBack()
    ensures forall k | 0 <= k < |code| :: NothingHidden(code[k].prog)
  {
    hide NothingHidden, Ways, Reaches, NeverBack;
    NeverBackWays();
    forall k | 0 <= k < |code| ensures NothingHidden(code[k].prog) {
      NeverBackFlow(code, k);
      NeverStuckNothingHidden(code[k].prog);
    }
  }

  lemma NeverBackFlow(code: Code, k: nat)
    requires code == NeverBack() && k < |code|
    ensures forall p: nat | p <= |code[k].prog| && IsFlow(code[k].prog, p) :: Resolves(code[k].prog, p)
  {
    NeverBackWays();
    hide Ways;
  }

  /** In this program, in which nothing is hidden, the verdict is a violation that no run shows. */
  lemma ReportedButNeverRun(violation: bool)
    requires RightVerdict(NeverBack(), 0, 2, violation)
    ensures violation && !RunsInto(NeverBack(), 0, 2)
    ensures forall k | 0 <= k < |NeverBack()| :: NothingHidden(NeverBack()[k].prog)
  {
    hide NothingHidden, RunsInto, Over, Reaches, NeverBack;
    CanBeReachedButNotRun();
    NeverBackNotHidden(NeverBack());
  }

  // ----- A violation that is always reported -----

  lemma OneCallLinked(functions: seq<Function>, functionMap: map<string, Function>)
    requires |functions| == 2 && functions[0] != functions[1]
    requires functionMap == map["f" := functions[0], "g" := functions[1]]
    ensures LinkedCode([Listing([CallUnresolved("g")], map[]), Listing([], map[])], 2, functions, functionMap) ==
            OneCall()
  {
    assert functions[1..][0] == functions[1];
    assert NumberOf(functions, functions[1]) == 1;
    hide NumberOf;
    assert functionMap["g"] == functions[1] by {
      assert "g"[0] != "f"[0];
    }
    var lists := [Listing([CallUnresolved("g")], map[]), Listing([], map[])];
    assert LinkedListing(lists[0], functions, functionMap).calls == map[1 := 1];
    assert LinkedListing(lists[1], functions, functionMap).calls == map[];
  }

  /** For `f: g();` what `Check` promises, with a large enough budget, is that it finishes with a violation. */
  lemma OneCallIsReported(w: Whole, back: set<Edge>, budget: nat, finished: bool, violation: bool)
    requires !finished ==>
               |w.functions| == 2 && CanLookFor(ProblemOf(w.g, back, w.functions[0], w.functions[1]), budget)
    requires finished ==> RightVerdict(OneCall(), 0, 1, violation)
    requires CodeOf(w.bodies) == OneCall() && |w.functions| == 2 && budget >= Enough(w, [1, 0], 0) && WholeOk(w)
    ensures finished && violation
  {
    hide *;
    if !finished {
      OneCallEnds(w, back, budget);
    }
    OneCallReaches(OneCall());
    VerdictMeans(OneCall(), 0, 1, violation);
  }

  lemma VerdictMeans(code: Code, i: nat, j: nat, violation: bool)
    requires RightVerdict(code, i, j, violation)
    ensures violation <==> i != j && Reaches(Over(code, Called(code)), Place(i, 0), Place(j, 0))
  {
    hide RunsInto, Reaches, Over, Called, Returning;
  }
}
