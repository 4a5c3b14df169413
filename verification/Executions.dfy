/** Running a whole program of statement lists, with a call stack; and what a run can get to, as reachability in a
    graph that steps over the calls which can return. */
module Executions {
  import opened Walks
  import opened Graphs
  import opened Programs

  /** A statement list and its linked calls: the function called at each of their positions. */
  datatype Listing = Listing(prog: Program, calls: map<nat, nat>)

  /** The functions of a program, by number. */
  type Code = seq<Listing>

  datatype Place = Place(fn: nat, pos: nat)

  /** The calls are at call statements, and lead to functions that there are. */
  ghost predicate CodeOk(code: Code)
  {
    forall i | 0 <= i < |code| :: ListingOk(code[i], |code|)
  }

  ghost predicate ListingOk(l: Listing, n: nat)
  {
    forall p | p in l.calls :: IsCallAt(l.prog, p) && l.calls[p] < n
  }

  predicate IsCallAt(prog: Program, p: nat)
  {
    0 < p <= |prog| && prog[p - 1].CallUnresolved?
  }

  // ----- Runs -----

  /** The call stack: where each active function is, the running one last. */
  type Config = seq<Place>

  ghost predicate IsCall(code: Code, x: Place)
  {
    x.fn < |code| && x.pos in code[x.fn].calls
  }

  ghost predicate IsExit(code: Code, x: Place)
  {
    x.fn < |code| && x.pos == ExitPosition(code[x.fn].prog)
  }

  /** A way on from a place. */
  ghost predicate IsWay(code: Code, x: Place, j: nat, y: Place)
  {
    && x.fn < |code| && x.pos <= |code[x.fn].prog| && j < |Ways(code[x.fn].prog, x.pos)|
    && y == Place(x.fn, Ways(code[x.fn].prog, x.pos)[j].to)
  }

  /** A call enters its function, a way on is taken anywhere else, and at EXIT the run goes on after the call. */
  ghost predicate Step(code: Code, s: Config, t: Config)
  {
    && s != []
    && var below, x := s[..|s| - 1], s[|s| - 1];
       if IsCall(code, x) then t == s + [Place(code[x.fn].calls[x.pos], 0)]
       else if IsExit(code, x) then below != [] && t == below[..|below| - 1] + [After(below[|below| - 1])]
       else exists j, y :: IsWay(code, x, j, y) && t == below + [y]
  }

  function After(x: Place): Place
  {
    Place(x.fn, x.pos + 1)
  }

  ghost predicate IsRun(code: Code, s: Config, run: seq<Config>, t: Config)
    decreases |run|
  {
    if run == [] then s == t else Step(code, s, run[0]) && IsRun(code, run[0], run[1..], t)
  }

  ghost predicate Runs(code: Code, s: Config, t: Config)
  {
    exists run: seq<Config> :: IsRun(code, s, run, t)
  }

  /** A run that starts with function `i` gets to the ENTRY of function `j`. */
  ghost predicate RunsInto(code: Code, i: nat, j: nat)
  {
    exists below: Config :: Runs(code, [Place(i, 0)], below + [Place(j, 0)])
  }

  /** A call of function `h` can come back. */
  ghost predicate CanReturn(code: Code, h: nat)
  {
    h < |code| && Runs(code, [Place(h, 0)], [Place(h, ExitPosition(code[h].prog))])
  }

  ghost function Returning(code: Code): set<nat>
  {
    set h | 0 <= h < |code| && CanReturn(code, h)
  }

  /** The functions that are called anywhere. */
  ghost function Called(code: Code): set<nat>
  {
    set i, p | 0 <= i < |code| && p in code[i].calls :: code[i].calls[p]
  }

  lemma RunsRefl(code: Code, s: Config)
    ensures Runs(code, s, s)
  {
    assert IsRun(code, s, [], s);
  }

  lemma StepRuns(code: Code, s: Config, t: Config)
    requires Step(code, s, t)
    ensures Runs(code, s, t)
  {
    assert [t][1..] == [];
    assert IsRun(code, s, [t], t);
  }

  lemma {:induction false} RunConcat(code: Code, s: Config, a: seq<Config>, t: Config, b: seq<Config>, u: Config)
    requires IsRun(code, s, a, t) && IsRun(code, t, b, u)
    ensures IsRun(code, s, a + b, u)
    decreases |a|
  {
    hide Step;
    if a == [] {
      assert a + b == b;
    } else {
      assert (a + b)[1..] == a[1..] + b;
      RunConcat(code, a[0], a[1..], t, b, u);
    }
  }

  lemma RunsTrans(code: Code, s: Config, t: Config, u: Config)
    requires Runs(code, s, t) && Runs(code, t, u)
    ensures Runs(code, s, u)
  {
    var a: seq<Config> :| IsRun(code, s, a, t);
    var b: seq<Config> :| IsRun(code, t, b, u);
    RunConcat(code, s, a, t, b, u);
  }

  /** What is further down on the stack makes no difference. */
  lemma StepLifts(code: Code, base: Config, s: Config, t: Config)
    requires Step(code, s, t)
    ensures Step(code, base + s, base + t)
  {
    hide IsWay, IsCall, IsExit;
    var below, x := s[..|s| - 1], s[|s| - 1];
    assert (base + s)[|base + s| - 1] == x && (base + s)[..|base + s| - 1] == base + below;
    if IsCall(code, x) {
      assert base + t == (base + s) + t[|s|..];
    } else if IsExit(code, x) {
      assert (base + below)[..|base + below| - 1] == base + below[..|below| - 1];
    } else {
      var j, y :| IsWay(code, x, j, y) && t == below + [y];
      assert base + t == (base + below) + [y];
    }
  }

  lemma {:induction false} RunLifts(code: Code, base: Config, s: Config, run: seq<Config>, t: Config)
    requires IsRun(code, s, run, t)
    ensures Runs(code, base + s, base + t)
    decreases |run|
  {
    hide Step;
    if run == [] {
      RunsRefl(code, base + s);
    } else {
      StepLifts(code, base, s, run[0]);
      StepRuns(code, base + s, base + run[0]);
      RunLifts(code, base, run[0], run[1..], t);
      RunsTrans(code, base + s, base + run[0], base + t);
    }
  }

  lemma RunsLift(code: Code, base: Config, s: Config, t: Config)
    requires Runs(code, s, t)
    ensures Runs(code, base + s, base + t)
  {
    var run: seq<Config> :| IsRun(code, s, run, t);
    RunLifts(code, base, s, run, t);
  }

  // ----- Reachability -----

  /** To go on by a way, which steps over the call if there is one; or to enter the function that is called. */
  datatype Move = Go(at: Place, way: nat) | Enter(at: Place)

  /** The ways on, where a call can only be stepped over if its function is among `ret`. */
  ghost function Gos(code: Code, ret: set<nat>): map<Move, Arc<Place>>
  {
    map i: nat, p: nat, j: nat | i < |code| && p <= |code[i].prog| && j < |Ways(code[i].prog, p)|
                                 && (p in code[i].calls ==> code[i].calls[p] in ret) ::
      Go(Place(i, p), j) := Arc(Place(i, p), Place(i, Ways(code[i].prog, p)[j].to))
  }

  ghost function Enters(code: Code): map<Move, Arc<Place>>
  {
    map i: nat, p: nat | i < |code| && p <= |code[i].prog| && p in code[i].calls ::
      Enter(Place(i, p)) := Arc(Place(i, p), Place(code[i].calls[p], 0))
  }

  ghost function Over(code: Code, ret: set<nat>): map<Move, Arc<Place>>
  {
    Gos(code, ret) + Enters(code)
  }

  lemma GosAre(code: Code, ret: set<nat>, x: Place, j: nat, y: Place)
    ensures IsWay(code, x, j, y) && (IsCall(code, x) ==> code[x.fn].calls[x.pos] in ret) <==>
            Go(x, j) in Gos(code, ret) && Gos(code, ret)[Go(x, j)] == Arc(x, y)
  {
    hide Ways;
  }

  lemma GoMeans(code: Code, ret: set<nat>, m: Move)
    requires m in Gos(code, ret)
    ensures m.Go? && Gos(code, ret)[m].src == m.at && IsWay(code, m.at, m.way, Gos(code, ret)[m].dst)
    ensures IsCall(code, m.at) ==> code[m.at.fn].calls[m.at.pos] in ret
  {
    hide Ways;
  }

  lemma EntersAre(code: Code, x: Place)
    requires CodeOk(code)
    ensures IsCall(code, x) <==> Enter(x) in Enters(code)
    ensures IsCall(code, x) ==> Enters(code)[Enter(x)] == Arc(x, Place(code[x.fn].calls[x.pos], 0))
  {
    if IsCall(code, x) {
      assert ListingOk(code[x.fn], |code|);
    }
  }

  lemma EnterMeans(code: Code, m: Move)
    requires m in Enters(code)
    ensures m.Enter? && IsCall(code, m.at) && Enters(code)[m] == Arc(m.at, Place(code[m.at.fn].calls[m.at.pos], 0))
  {
  }

  lemma OverParts(code: Code, ret: set<nat>)
    ensures Subgraph(Gos(code, ret), Over(code, ret)) && Subgraph(Enters(code), Over(code, ret))
    ensures forall m | m in Over(code, ret) :: m in Gos(code, ret) || m in Enters(code)
    ensures forall m | m in Enters(code) :: m.Enter?
    ensures forall m | m in Gos(code, ret) :: m.Go?
  {
    hide Ways;
  }

  /** At a call there is one way on. */
  lemma CallGoesOn(code: Code, x: Place, j: nat, y: Place)
    requires CodeOk(code) && IsCall(code, x)
    ensures IsWay(code, x, j, y) <==> j == 0 && y == After(x)
    ensures code[x.fn].calls[x.pos] < |code|
  {
    assert ListingOk(code[x.fn], |code|);
  }

  lemma ExitHasNoWay(code: Code, x: Place, j: nat, y: Place)
    requires IsExit(code, x)
    ensures !IsWay(code, x, j, y)
  {
  }

  // ----- From reachability to runs -----

  lemma GoRuns(code: Code, x: Place, j: nat, y: Place)
    requires CodeOk(code) && IsWay(code, x, j, y)
    requires IsCall(code, x) ==> code[x.fn].calls[x.pos] in Returning(code)
    ensures Runs(code, [x], [y])
  {
    hide IsWay, CodeOk, Ways;
    if IsCall(code, x) {
      var h := code[x.fn].calls[x.pos];
      CallGoesOn(code, x, j, y);
      var exit := Place(h, ExitPosition(code[h].prog));
      assert Step(code, [x], [x] + [Place(h, 0)]);
      StepRuns(code, [x], [x] + [Place(h, 0)]);
      RunsLift(code, [x], [Place(h, 0)], [exit]);
      RunsTrans(code, [x], [x] + [Place(h, 0)], [x] + [exit]);
      ReturnStep(code, x, exit);
      StepRuns(code, [x] + [exit], [After(x)]);
      RunsTrans(code, [x], [x] + [exit], [After(x)]);
    } else {
      if IsExit(code, x) {
        ExitHasNoWay(code, x, j, y);
      }
      assert [] + [y] == [y];
      assert Step(code, [x], [y]);
      StepRuns(code, [x], [y]);
    }
  }

  lemma ReturnStep(code: Code, x: Place, exit: Place)
    requires CodeOk(code) && IsExit(code, exit)
    ensures Step(code, [x] + [exit], [After(x)])
  {
    assert ListingOk(code[exit.fn], |code|);
    assert ([x] + [exit])[..1] == [x] && [x][..0] + [After(x)] == [After(x)];
  }

  /** Where one can go on, a run gets with the same stack. */
  lemma {:induction false} LevelRuns(code: Code, x: Place, q: seq<Move>, y: Place)
    requires CodeOk(code) && IsWalk(Gos(code, Returning(code)), x, q, y)
    ensures Runs(code, [x], [y])
    decreases |q|
  {
    hide CodeOk, Gos, Returning, Runs;
    var h := Gos(code, Returning(code));
    if q == [] {
      RunsRefl(code, [x]);
    } else {
      GoMeans(code, Returning(code), q[0]);
      GoRuns(code, x, q[0].way, h[q[0]].dst);
      LevelRuns(code, h[q[0]].dst, q[1..], y);
      RunsTrans(code, [x], [h[q[0]].dst], [y]);
    }
  }

  lemma {:induction false} OverRuns(code: Code, x: Place, q: seq<Move>, y: Place) returns (below: Config)
    requires CodeOk(code) && IsWalk(Over(code, Returning(code)), x, q, y)
    ensures Runs(code, [x], below + [y])
    decreases |q|
  {
    hide CodeOk, Gos, Enters, Over, Returning, Runs, Step;
    if q == [] {
      RunsRefl(code, [x]);
      below := [];
      assert [] + [y] == [y];
    } else {
      OverParts(code, Returning(code));
      var m, next := q[0], Over(code, Returning(code))[q[0]].dst;
      var rest := OverRuns(code, next, q[1..], y);
      if m in Gos(code, Returning(code)) {
        GoMeans(code, Returning(code), m);
        GoRuns(code, x, m.way, next);
        below := rest;
        RunsTrans(code, [x], [next], below + [y]);
      } else {
        EnterMeans(code, m);
        EnterStep(code, x, next);
        StepRuns(code, [x], [x] + [next]);
        RunsLift(code, [x], [next], rest + [y]);
        below := [x] + rest;
        assert [x] + (rest + [y]) == below + [y];
        RunsTrans(code, [x], [x] + [next], below + [y]);
      }
    }
  }

  lemma EnterStep(code: Code, x: Place, y: Place)
    requires IsCall(code, x) && y == Place(code[x.fn].calls[x.pos], 0)
    ensures Step(code, [x], [x] + [y])
  {
  }

  // ----- From runs to reachability -----

  /** Each active function has got from its ENTRY to where it is, its ENTRY can be reached from the start, and it has
      called the next one. */
  ghost predicate Reached(code: Code, start: Place, s: Config, k: nat)
    requires k < |s|
  {
    && Reaches(Gos(code, Returning(code)), Place(s[k].fn, 0), s[k])
    && Reaches(Over(code, Returning(code)), start, Place(s[k].fn, 0))
    && (k + 1 < |s| ==> IsCall(code, s[k]) && s[k + 1].fn == code[s[k].fn].calls[s[k].pos])
  }

  ghost predicate AllReached(code: Code, start: Place, s: Config)
  {
    s != [] && forall k | 0 <= k < |s| :: Reached(code, start, s, k)
  }

  lemma ReachedMeans(code: Code, start: Place, s: Config, k: nat)
    requires k < |s| && Reached(code, start, s, k)
    ensures Reaches(Over(code, Returning(code)), start, s[k])
  {
    hide Reaches, Gos, Over, Returning;
    OverParts(code, Returning(code));
    ReachesMonotone(Gos(code, Returning(code)), Over(code, Returning(code)), Place(s[k].fn, 0), s[k]);
    ReachesTrans(Over(code, Returning(code)), start, Place(s[k].fn, 0), s[k]);
  }

  lemma StaysReached(code: Code, start: Place, s: Config, t: Config, k: nat)
    requires k < |s| && k + 1 < |t| && k + 1 < |s| && t[k] == s[k] && t[k + 1].fn == s[k + 1].fn
    requires Reached(code, start, s, k)
    ensures Reached(code, start, t, k)
  {
    hide Reaches, Gos, Over, Returning;
  }

  /** The running function goes on. */
  lemma ReachedOn(code: Code, start: Place, s: Config, x: Place, j: nat, y: Place, t: Config)
    requires s != [] && s[|s| - 1] == x && IsWay(code, x, j, y)
    requires Reaches(Gos(code, Returning(code)), Place(x.fn, 0), x)
    requires Reaches(Over(code, Returning(code)), start, Place(x.fn, 0))
    requires IsCall(code, x) ==> code[x.fn].calls[x.pos] in Returning(code)
    requires t != [] && t[|t| - 1] == y
    ensures Reached(code, start, t, |t| - 1)
  {
    hide Reaches, Gos, Over, Returning;
    GosAre(code, Returning(code), x, j, y);
    ReachesStep(Gos(code, Returning(code)), Place(x.fn, 0), Go(x, j));
  }

  lemma ReachedInto(code: Code, start: Place, s: Config, t: Config)
    requires CodeOk(code) && AllReached(code, start, s) && IsCall(code, s[|s| - 1])
    requires t == s + [Place(code[s[|s| - 1].fn].calls[s[|s| - 1].pos], 0)]
    ensures AllReached(code, start, t)
  {
    hide Reaches, Gos, Over, Returning, IsCall, Enters, CodeOk;
    var x := s[|s| - 1];
    var y := t[|s|];
    EntersAre(code, x);
    OverParts(code, Returning(code));
    ReachedMeans(code, start, s, |s| - 1);
    ReachesStep(Over(code, Returning(code)), start, Enter(x));
    ReachesRefl(Gos(code, Returning(code)), y);
    forall k | 0 <= k < |t| ensures Reached(code, start, t, k) {
      assert k < |s| ==> Reached(code, start, s, k);
    }
  }

  lemma ReachedFrom(code: Code, start: Place, s: Config, t: Config)
    requires CodeOk(code) && AllReached(code, start, s) && Step(code, s, t)
    ensures AllReached(code, start, t)
  {
    hide Reaches, Gos, Over, Returning, IsWay, IsCall, IsExit, CodeOk, Reached;
    var below, x := s[..|s| - 1], s[|s| - 1];
    if IsCall(code, x) {
      ReachedInto(code, start, s, t);
    } else if IsExit(code, x) {
      ReachedBack(code, start, s, t);
    } else {
      var j, y :| IsWay(code, x, j, y) && t == below + [y];
      ReachedAlong(code, start, s, j, y, t);
    }
  }

  lemma ReachedAlong(code: Code, start: Place, s: Config, j: nat, y: Place, t: Config)
    requires AllReached(code, start, s) && !IsCall(code, s[|s| - 1]) && IsWay(code, s[|s| - 1], j, y)
    requires t == s[..|s| - 1] + [y]
    ensures AllReached(code, start, t)
  {
    hide Reaches, Gos, Over, Returning, IsCall;
    assert Reached(code, start, s, |s| - 1);
    ReachedOn(code, start, s, s[|s| - 1], j, y, t);
    forall k | 0 <= k < |t| ensures Reached(code, start, t, k) {
      if k + 1 < |t| {
        assert Reached(code, start, s, k);
        StaysReached(code, start, s, t, k);
      }
    }
  }

  lemma ReachedBack(code: Code, start: Place, s: Config, t: Config)
    requires CodeOk(code) && AllReached(code, start, s) && IsExit(code, s[|s| - 1]) && |s| > 1
    requires t == s[..|s| - 2] + [After(s[|s| - 2])]
    ensures AllReached(code, start, t)
  {
    hide Reaches, Gos, Over, CodeOk, IsCall, IsWay, Runs;
    var x, exit := s[|s| - 2], s[|s| - 1];
    assert Reached(code, start, s, |s| - 1) && Reached(code, start, s, |s| - 2);
    LevelReturns(code, exit);
    CallGoesOn(code, x, 0, After(x));
    ReachedOn(code, start, s[..|s| - 1], x, 0, After(x), t);
    hide Returning;
    forall k | 0 <= k < |t| ensures Reached(code, start, t, k) {
      if k + 1 < |t| {
        assert Reached(code, start, s, k);
        StaysReached(code, start, s, t, k);
      }
    }
  }

  lemma LevelReturns(code: Code, exit: Place)
    requires CodeOk(code) && IsExit(code, exit) && Reaches(Gos(code, Returning(code)), Place(exit.fn, 0), exit)
    ensures exit.fn in Returning(code)
  {
    hide IsWalk, Gos, Runs;
    var q: seq<Move> :| IsWalk(Gos(code, Returning(code)), Place(exit.fn, 0), q, exit);
    LevelRuns(code, Place(exit.fn, 0), q, exit);
  }

  lemma {:induction false} AllReachedRun(code: Code, start: Place, s: Config, run: seq<Config>, t: Config)
    requires CodeOk(code) && AllReached(code, start, s) && IsRun(code, s, run, t)
    ensures AllReached(code, start, t)
    decreases |run|
  {
    hide CodeOk, AllReached, Step;
    if run != [] {
      ReachedFrom(code, start, s, run[0]);
      AllReachedRun(code, start, run[0], run[1..], t);
    }
  }

  lemma RunReaches(code: Code, i: nat, t: Config)
    requires CodeOk(code) && Runs(code, [Place(i, 0)], t)
    ensures AllReached(code, Place(i, 0), t)
  {
    hide CodeOk, IsRun, Gos, Over, Returning;
    var run: seq<Config> :| IsRun(code, [Place(i, 0)], run, t);
    ReachesRefl(Gos(code, Returning(code)), Place(i, 0));
    ReachesRefl(Over(code, Returning(code)), Place(i, 0));
    hide Reaches;
    AllReachedRun(code, Place(i, 0), [Place(i, 0)], run, t);
  }

  // ----- Both ways -----

  /** A run gets from one function into another exactly if its ENTRY can be reached by stepping over calls that can
      return, and entering others. */
  lemma RunsIntoExactly(code: Code, i: nat, j: nat)
    requires CodeOk(code)
    ensures RunsInto(code, i, j) <==> Reaches(Over(code, Returning(code)), Place(i, 0), Place(j, 0))
  {
    hide CodeOk, Runs, Over, Returning, IsWalk, Reached;
    if RunsInto(code, i, j) {
      var below: Config :| Runs(code, [Place(i, 0)], below + [Place(j, 0)]);
      RunReaches(code, i, below + [Place(j, 0)]);
      ReachedMeans(code, Place(i, 0), below + [Place(j, 0)], |below|);
    }
    if Reaches(Over(code, Returning(code)), Place(i, 0), Place(j, 0)) {
      var q: seq<Move> :| IsWalk(Over(code, Returning(code)), Place(i, 0), q, Place(j, 0));
      var below := OverRuns(code, Place(i, 0), q, Place(j, 0));
    }
  }

  /** A function can return exactly if its EXIT can be reached from its ENTRY by ways on and over calls that can. */
  lemma CanReturnExactly(code: Code, h: nat)
    requires CodeOk(code) && h < |code|
    ensures CanReturn(code, h) <==>
            Reaches(Gos(code, Returning(code)), Place(h, 0), Place(h, ExitPosition(code[h].prog)))
  {
    hide CodeOk, Runs, Gos, Reaches;
    var exit := Place(h, ExitPosition(code[h].prog));
    if CanReturn(code, h) {
      RunReaches(code, h, [exit]);
      assert Reached(code, Place(h, 0), [exit], 0);
    }
    if Reaches(Gos(code, Returning(code)), Place(h, 0), exit) {
      LevelReturns(code, exit);
    }
  }

  // ----- Stepping over every call -----

  /** What a run can get to can be reached by stepping over any call. */
  lemma OverMore(code: Code)
    ensures Subgraph(Over(code, Returning(code)), Over(code, Called(code)))
  {
    hide CanReturn, Ways;
    forall m | m in Gos(code, Returning(code)) ensures m in Gos(code, Called(code)) {
      GoMeans(code, Returning(code), m);
      CalledThere(code, m.at);
      GosAre(code, Called(code), m.at, m.way, Gos(code, Returning(code))[m].dst);
    }
  }

  lemma CalledThere(code: Code, x: Place)
    ensures IsCall(code, x) ==> code[x.fn].calls[x.pos] in Called(code)
  {
  }

  /** If all that is called can return, the one is as good as the other. */
  lemma RunsIntoIfAllReturn(code: Code, i: nat, j: nat)
    requires CodeOk(code)
    ensures RunsInto(code, i, j) ==> Reaches(Over(code, Called(code)), Place(i, 0), Place(j, 0))
    ensures Called(code) <= Returning(code) && Reaches(Over(code, Called(code)), Place(i, 0), Place(j, 0)) ==>
              RunsInto(code, i, j)
  {
    hide RunsInto, Reaches, Called, Returning, CodeOk, Over;
    RunsIntoExactly(code, i, j);
    OverMore(code);
    if RunsInto(code, i, j) {
      ReachesMonotone(Over(code, Returning(code)), Over(code, Called(code)), Place(i, 0), Place(j, 0));
    }
    if Called(code) <= Returning(code) && Reaches(Over(code, Called(code)), Place(i, 0), Place(j, 0)) {
      OverGrows(code, Called(code), Returning(code));
      ReachesMonotone(Over(code, Called(code)), Over(code, Returning(code)), Place(i, 0), Place(j, 0));
    }
  }

  lemma OverGrows(code: Code, few: set<nat>, many: set<nat>)
    requires few <= many
    ensures Subgraph(Over(code, few), Over(code, many))
  {
    hide Ways;
  }

  /** Otherwise, where no run gets although it can be reached by stepping over calls, a run gets stuck in one: it gets
      to a call that cannot return. */
  lemma {:induction false} StuckInCall(code: Code, x: Place, q: seq<Move>, y: Place) returns (z: Place)
    requires IsWalk(Over(code, Called(code)), x, q, y) && !Reaches(Over(code, Returning(code)), x, y)
    ensures IsCall(code, z) && Reaches(Over(code, Returning(code)), x, z)
    ensures code[z.fn].calls[z.pos] !in Returning(code)
    decreases |q|
  {
    hide Over, Called, Returning, Reaches, IsCall;
    if q == [] {
      ReachesRefl(Over(code, Returning(code)), x);
      z := x;
    } else {
      var u := WalkSplitLast(Over(code, Called(code)), x, q, y);
      if !Reaches(Over(code, Returning(code)), x, u) {
        z := StuckInCall(code, x, q[..|q| - 1], u);
      } else {
        var m := q[|q| - 1];
        if m in Over(code, Returning(code)) {
          SameInBoth(code, m);
          ReachesStep(Over(code, Returning(code)), x, m);
        }
        NotBoth(code, m);
        z := u;
      }
    }
  }

  lemma SameInBoth(code: Code, m: Move)
    requires m in Over(code, Returning(code)) && m in Over(code, Called(code))
    ensures Over(code, Returning(code))[m] == Over(code, Called(code))[m]
  {
    hide Ways, CanReturn;
    OverMore(code);
  }

  lemma NotBoth(code: Code, m: Move)
    requires m in Over(code, Called(code)) && m !in Over(code, Returning(code))
    ensures Over(code, Called(code))[m].src == m.at && IsCall(code, m.at)
    ensures code[m.at.fn].calls[m.at.pos] !in Returning(code)
  {
    hide Ways, Returning, Called, IsCall, Gos, Enters;
    OverParts(code, Called(code));
    OverParts(code, Returning(code));
    GoMeans(code, Called(code), m);
    GosAre(code, Returning(code), m.at, m.way, Gos(code, Called(code))[m].dst);
  }

  // ----- A call that never returns -----

  /** The first function calls the second, which loops, and then the third. */
  function NeverBack(): Code
  {
    [Listing([CallUnresolved("g"), CallUnresolved("h")], map[1 := 1, 2 := 2]),
     Listing([Label("L"), GotoUnlinked("L")], map[]),
     Listing([], map[])]
  }

  lemma NeverBackWays()
    ensures var code := NeverBack();
            && |code| == 3 && CodeOk(code) && Called(code) == {1, 2}
            && |code[0].prog| == 2 && |code[1].prog| == 2 && code[0].calls == map[1 := 1, 2 := 2]
            && code[1].calls == map[]
            && Ways(code[0].prog, 0) == [Way(Fallthrough, 1)] && Ways(code[0].prog, 1) == [Way(Fallthrough, 2)]
            && Ways(code[1].prog, 0) == [Way(Fallthrough, 1)] && Ways(code[1].prog, 1) == [Way(Fallthrough, 2)]
            && Ways(code[1].prog, 2) == [Way(Fallthrough, 1)]
  {
    var code := NeverBack();
    var loop := code[1].prog;
    assert Labels(loop, 0) == map["EXIT" := 3];
    assert Labels(loop, 1) == Labels(loop, 0)["L" := 1];
    assert LabelMap(loop) == Labels(loop, 1);
    assert 1 in code[0].calls && 2 in code[0].calls;
  }

  /** Stepping over calls reaches the third function from the first, but no run gets there. */
  lemma CanBeReachedButNotRun()
    ensures var code := NeverBack();
            && CodeOk(code) && Reaches(Over(code, Called(code)), Place(0, 0), Place(2, 0)) && !RunsInto(code, 0, 2)
  {
    hide *;
    NeverBackWays();
    var code := NeverBack();
    NeverBackReaches(code);
    NeverBackLoops(code);
    NeverBackStays(code);
    RunsIntoExactly(code, 0, 2);
    if RunsInto(code, 0, 2) {
      ClosedReaches(Over(code, Returning(code)), {Place(0, 0), Place(0, 1), Place(1, 0), Place(1, 1), Place(1, 2)},
                    Place(0, 0), Place(2, 0));
    }
  }

  lemma NeverBackReaches(code: Code)
    requires |code| == 3 && Called(code) == {1, 2} && |code[0].prog| == 2 && code[0].calls == map[1 := 1, 2 := 2]
    requires Ways(code[0].prog, 0) == [Way(Fallthrough, 1)] && Ways(code[0].prog, 1) == [Way(Fallthrough, 2)]
    ensures Reaches(Over(code, Called(code)), Place(0, 0), Place(2, 0))
  {
    hide Ways, Called;
    var g := Over(code, Called(code));
    assert g[Go(Place(0, 0), 0)] == Arc(Place(0, 0), Place(0, 1))
           && g[Go(Place(0, 1), 0)] == Arc(Place(0, 1), Place(0, 2));
    assert g[Enter(Place(0, 2))] == Arc(Place(0, 2), Place(2, 0));
    hide Over, Reaches;
    ReachesRefl(g, Place(0, 0));
    ReachesStep(g, Place(0, 0), Go(Place(0, 0), 0));
    ReachesStep(g, Place(0, 0), Go(Place(0, 1), 0));
    ReachesStep(g, Place(0, 0), Enter(Place(0, 2)));
  }

  lemma NeverBackLoops(code: Code)
    requires |code| == 3 && CodeOk(code) && |code[1].prog| == 2 && code[1].calls == map[]
    requires Ways(code[1].prog, 0) == [Way(Fallthrough, 1)] && Ways(code[1].prog, 1) == [Way(Fallthrough, 2)]
    requires Ways(code[1].prog, 2) == [Way(Fallthrough, 1)]
    ensures 1 !in Returning(code)
  {
    hide Ways, Reaches, CanReturn;
    CanReturnExactly(code, 1);
    var g, c := Gos(code, Returning(code)), {Place(1, 0), Place(1, 1), Place(1, 2)};
    forall m | m in g && g[m].src in c ensures g[m].dst in c {
      GoMeans(code, Returning(code), m);
    }
    hide Gos;
    if Reaches(g, Place(1, 0), Place(1, 3)) {
      ClosedReaches(g, c, Place(1, 0), Place(1, 3));
    }
  }

  lemma NeverBackStays(code: Code)
    requires |code| == 3 && 1 !in Returning(code) && |code[0].prog| == 2 && |code[1].prog| == 2
    requires code[0].calls == map[1 := 1, 2 := 2] && code[1].calls == map[]
    requires Ways(code[0].prog, 0) == [Way(Fallthrough, 1)] && Ways(code[0].prog, 1) == [Way(Fallthrough, 2)]
    requires Ways(code[1].prog, 0) == [Way(Fallthrough, 1)] && Ways(code[1].prog, 1) == [Way(Fallthrough, 2)]
    requires Ways(code[1].prog, 2) == [Way(Fallthrough, 1)]
    ensures Closed(Over(code, Returning(code)), {Place(0, 0), Place(0, 1), Place(1, 0), Place(1, 1), Place(1, 2)})
  {
    hide *;
    var g := Over(code, Returning(code));
    OverParts(code, Returning(code));
    forall m | m in g && m in Gos(code, Returning(code)) && Among(g[m].src) ensures Among(g[m].dst) {
      GoMeans(code, Returning(code), m);
      SubgraphHas(Gos(code, Returning(code)), g, m);
      StayGo(code, m.at, m.way, g[m].dst);
    }
    forall m | m in g && m in Enters(code) && Among(g[m].src) ensures Among(g[m].dst) {
      EnterMeans(code, m);
      SubgraphHas(Enters(code), g, m);
      StayEnter(code, m.at);
    }
    AmongClosed(g);
  }

  ghost predicate Among(x: Place)
  {
    x in {Place(0, 0), Place(0, 1), Place(1, 0), Place(1, 1), Place(1, 2)}
  }

  lemma AmongClosed(g: map<Move, Arc<Place>>)
    requires forall m | m in g && Among(g[m].src) :: Among(g[m].dst)
    ensures Closed(g, {Place(0, 0), Place(0, 1), Place(1, 0), Place(1, 1), Place(1, 2)})
  {
    forall m | m in g && g[m].src in {Place(0, 0), Place(0, 1), Place(1, 0), Place(1, 1), Place(1, 2)}
      ensures g[m].dst in {Place(0, 0), Place(0, 1), Place(1, 0), Place(1, 1), Place(1, 2)}
    {
      assert Among(g[m].src);
    }
  }

  lemma SubgraphHas<V, E>(h: map<E, Arc<V>>, g: map<E, Arc<V>>, e: E)
    requires Subgraph(h, g) && e in h
    ensures e in g && g[e] == h[e]
  {
  }

  lemma StayGo(code: Code, x: Place, j: nat, y: Place)
    requires |code| == 3 && |code[0].prog| == 2 && |code[1].prog| == 2 && code[0].calls == map[1 := 1, 2 := 2]
    requires Ways(code[0].prog, 0) == [Way(Fallthrough, 1)] && Ways(code[0].prog, 1) == [Way(Fallthrough, 2)]
    requires Ways(code[1].prog, 0) == [Way(Fallthrough, 1)] && Ways(code[1].prog, 1) == [Way(Fallthrough, 2)]
    requires Ways(code[1].prog, 2) == [Way(Fallthrough, 1)]
    requires IsWay(code, x, j, y) && Among(x) && (IsCall(code, x) ==> code[x.fn].calls[x.pos] in Returning(code))
    requires 1 !in Returning(code)
    ensures Among(y)
  {
    hide Ways, Returning;
  }

  lemma StayEnter(code: Code, x: Place)
    requires |code| == 3 && code[0].calls == map[1 := 1, 2 := 2] && code[1].calls == map[]
    requires IsCall(code, x) && Among(x)
    ensures Among(Place(code[x.fn].calls[x.pos], 0))
  {
  }
}
