/** What the traversal does, step by step: each look at an edge as a function of the state, so that a whole traversal is
    a sequence of edges that it looks at one after another. */
module Looks {
  import opened Basics
  import opened Walks
  import opened Graphs
  import opened CallStacks

  /** A suspended vertex and its out-edges still to be looked at. */
  datatype VertexInfo = VertexInfo(v: Vertex, rest: set<Edge>)

  datatype Search = Search(stack: seq<VertexInfo>, frames: seq<Frame>, predecessors: seq<Edge>, discovered: set<Vertex>)

  /** What one traversal works on. */
  datatype Problem = Problem(g: Arcs, back: set<Edge>, source: Vertex, sink: Vertex, seed: Edge)

  /** The start: a source that is the sink is not explored. */
  ghost function StartOf(p: Problem): Search
  {
    Search([VertexInfo(p.source, if p.source == p.sink then {} else Out(p.g, p.source))],
           [Frame(None, map[p.source := Gray])], [p.seed], {p.source})
  }

  /** Edges that are looked at in vain: marked or Impossible ones, bypasses, and returns of another call than the one
      that pushed the top frame. */
  ghost predicate Skips(back: set<Edge>, frames: seq<Frame>, e: Edge)
  {
    || e in back
    || match e.kind
       case Impossible => true
       case FunctionCallBypass => true
       case Return(call) => frames == [] || frames[|frames| - 1].call != Some(call)
       case _ => false
  }

  /** A call has a frame of its own, which its return gives up. */
  ghost function FramesFor(frames: seq<Frame>, e: Edge): seq<Frame>
  {
    match e.kind
    case FunctionCall(call) => frames + [Frame(Some(call), map[])]
    case Return(_) => if frames == [] then [] else frames[..|frames| - 1]
    case _ => frames
  }

  ghost function Colored(frames: seq<Frame>, v: Vertex, c: Color): seq<Frame>
  {
    if frames == [] then []
    else
      var top := frames[|frames| - 1];
      frames[|frames| - 1 := top.(colors := top.colors[v := c])]
  }

  /** The edge leads to a vertex that looks white in the frame it would be entered with. */
  ghost predicate Enters(p: Problem, s: Search, e: Edge)
  {
    && e in p.g && !Skips(p.back, s.frames, e)
    && var frames := FramesFor(s.frames, e);
       frames != [] && ColorOf(frames[|frames| - 1], p.g[e].dst) == White
  }

  /** The edge leads to the sink, which ends the search. */
  ghost predicate Finds(p: Problem, s: Search, e: Edge)
  {
    Enters(p, s, e) && p.g[e].dst == p.sink
  }

  /** One look at the edge `e` of the vertex on top. */
  ghost function Looked(p: Problem, s: Search, e: Edge): Search
    requires s.stack != []
  {
    var n := |s.stack| - 1;
    var below := s.stack[..n] + [VertexInfo(s.stack[n].v, s.stack[n].rest - {e})];
    if Skips(p.back, s.frames, e) then s.(stack := below)
    else if Enters(p, s, e) then
      var v := p.g[e].dst;
      Search(below + [VertexInfo(v, Out(p.g, v))], Colored(FramesFor(s.frames, e), v, Gray), s.predecessors + [e],
             s.discovered + {v})
    else s.(stack := below, frames := FramesFor(s.frames, e))
  }

  /** The vertex on top is finished. */
  ghost function Finished(s: Search): Search
    requires s.stack != []
  {
    var n := |s.stack| - 1;
    s.(stack := s.stack[..n], frames := Colored(s.frames, s.stack[n].v, Black),
       predecessors := if s.predecessors == [] then [] else s.predecessors[..|s.predecessors| - 1])
  }

  /** All vertices without further edges are finished. */
  ghost function Settled(s: Search): Search
    decreases |s.stack|
  {
    if s.stack != [] && s.stack[|s.stack| - 1].rest == {} then Settled(Finished(s)) else s
  }

  /** How matters stand after some looks: there is more to look at, the sink was found, or nothing is left. */
  datatype Ending = Open | Found(predecessors: seq<Edge>) | Exhausted(predecessors: seq<Edge>)

  /** From `s`, the edges `looks` can be looked at one after another, and then matters stand like this. */
  ghost predicate Plays(p: Problem, s: Search, older looks: seq<Edge>, end: Ending)
    decreases |looks|
  {
    var now := Settled(s);
    if looks == [] then end == if now.stack == [] then Exhausted(now.predecessors) else Open
    else
      && now.stack != [] && looks[0] in now.stack[|now.stack| - 1].rest
      && if Finds(p, now, looks[0]) then |looks| == 1 && end == Found(now.predecessors + looks)
         else Plays(p, Looked(p, now, looks[0]), looks[1..], end)
  }

  /** The traversal may look at `n` edges and still not be done. */
  ghost predicate CanLookFor(p: Problem, n: nat)
  {
    exists looks: seq<Edge> :: |looks| == n && Plays(p, StartOf(p), looks, Open)
  }

  // ----- Sequences of looks -----

  /** The looks lead from `s` to `t`, as far as finished vertices go. */
  ghost predicate Gets(p: Problem, s: Search, looks: seq<Edge>, t: Search)
    decreases |looks|
  {
    var now := Settled(s);
    if looks == [] then now == Settled(t)
    else
      && now.stack != [] && looks[0] in now.stack[|now.stack| - 1].rest && !Finds(p, now, looks[0])
      && Gets(p, Looked(p, now, looks[0]), looks[1..], t)
  }

  lemma GetsNowhere(p: Problem, s: Search)
    ensures Gets(p, s, [], s)
  {
  }

  /** Matters do not stand differently once a vertex without further edges is finished. */
  lemma GetsFinished(p: Problem, s: Search, looks: seq<Edge>, t: Search)
    requires Gets(p, s, looks, t) && t.stack != [] && t.stack[|t.stack| - 1].rest == {}
    ensures Gets(p, s, looks, Finished(t))
    decreases |looks|
  {
    hide Finished, Looked, Finds;
    if looks != [] {
      GetsFinished(p, Looked(p, Settled(s), looks[0]), looks[1..], t);
    }
  }

  ghost predicate AtHand(s: Search, e: Edge)
  {
    s.stack != [] && e in s.stack[|s.stack| - 1].rest
  }

  /** While there is an edge to look at, nothing is finished first. */
  lemma NothingToFinish(s: Search, e: Edge)
    requires AtHand(s, e)
    ensures Settled(s) == s
  {
  }

  lemma {:induction false} GetsOn(p: Problem, s: Search, looks: seq<Edge>, t: Search, e: Edge)
    requires Gets(p, s, looks, t) && AtHand(t, e) && !Finds(p, t, e)
    ensures Gets(p, s, looks + [e], Looked(p, t, e))
    decreases |looks|
  {
    hide Finished, Looked, Finds, Settled;
    NothingToFinish(t, e);
    if looks == [] {
      assert ([] + [e])[1..] == [];
    } else {
      assert (looks + [e])[1..] == looks[1..] + [e];
      GetsOn(p, Looked(p, Settled(s), looks[0]), looks[1..], t, e);
    }
  }

  lemma {:induction false} GetsOpen(p: Problem, s: Search, looks: seq<Edge>, t: Search, e: Edge)
    requires Gets(p, s, looks, t) && AtHand(t, e)
    ensures Plays(p, s, looks, Open)
    decreases |looks|
  {
    hide Finished, Looked, Finds, Settled;
    NothingToFinish(t, e);
    if looks != [] {
      GetsOpen(p, Looked(p, Settled(s), looks[0]), looks[1..], t, e);
    }
  }

  lemma {:induction false} GetsSink(p: Problem, s: Search, looks: seq<Edge>, t: Search, e: Edge)
    requires Gets(p, s, looks, t) && AtHand(t, e) && Finds(p, t, e)
    ensures Plays(p, s, looks + [e], Found(t.predecessors + [e]))
    decreases |looks|
  {
    hide Finished, Looked, Finds, Settled;
    NothingToFinish(t, e);
    if looks != [] {
      assert (looks + [e])[1..] == looks[1..] + [e];
      GetsSink(p, Looked(p, Settled(s), looks[0]), looks[1..], t, e);
    }
  }

  lemma {:induction false} GetsNothingLeft(p: Problem, s: Search, looks: seq<Edge>, t: Search)
    requires Gets(p, s, looks, t) && t.stack == []
    ensures Plays(p, s, looks, Exhausted(t.predecessors))
    decreases |looks|
  {
    hide Finished, Looked, Finds;
    if looks != [] {
      GetsNothingLeft(p, Looked(p, Settled(s), looks[0]), looks[1..], t);
    }
  }

  /** Whoever can look at more edges can look at fewer. */
  lemma {:induction false} PlaysFewer(p: Problem, s: Search, looks: seq<Edge>, n: nat)
    requires Plays(p, s, looks, Open) && n <= |looks|
    ensures Plays(p, s, looks[..n], Open)
    decreases |looks|
  {
    hide Looked, Finds, Settled;
    if n > 0 {
      assert looks[..n][1..] == looks[1..][..n - 1];
      PlaysFewer(p, Looked(p, Settled(s), looks[0]), looks[1..], n - 1);
    }
  }

  lemma CanLookForFewer(p: Problem, n: nat, m: nat)
    requires CanLookFor(p, m) && n <= m
    ensures CanLookFor(p, n)
  {
    hide Plays;
    var looks: seq<Edge> :| |looks| == m && Plays(p, StartOf(p), looks, Open);
    PlaysFewer(p, StartOf(p), looks, n);
  }

  // ----- How many looks there can be -----

  /** Every edge that is not looked at in vain leads to a vertex of smaller rank; a return need only lead to one of
      smaller rank than its call. */
  ghost predicate Downhill(g: Arcs, back: set<Edge>, rank: map<Vertex, nat>)
  {
    forall e | e in g && e !in back && !e.kind.Impossible? && !e.kind.FunctionCallBypass? ::
      && g[e].dst in rank
      && (e.kind.Return? ==> e.kind.call in rank && rank[g[e].dst] < rank[e.kind.call])
      && (!e.kind.Return? ==> g[e].src in rank && rank[g[e].dst] < rank[g[e].src])
      && (e.kind.FunctionCall? ==> e.kind.call == g[e].src)
  }

  /** The looks that an edge out of a vertex of rank `r` can cost, where no vertex has more than `n` out-edges: those
      for the edges of the next vertex, and, if it is a call, for those of the vertex that it returns to. */
  function Weight(n: nat, r: nat): nat
    decreases r, 1
  {
    1 + 2 * Beyond(n, r)
  }

  /** What all edges of a vertex of smaller rank can cost. */
  function Beyond(n: nat, r: nat): nat
    decreases r, 0
  {
    if r == 0 then 0 else n * Weight(n, r - 1)
  }

  lemma {:induction false} BeyondGrows(n: nat, r: nat, q: nat)
    requires r <= q
    ensures Beyond(n, r) <= Beyond(n, q) && Weight(n, r) <= Weight(n, q)
    decreases q
  {
    if r > 0 {
      BeyondGrows(n, r - 1, q - 1);
      MulBoth(n, n, Weight(n, r - 1), Weight(n, q - 1));
    }
  }

  lemma MulBoth(a: nat, b: nat, c: nat, d: nat)
    requires a <= b && c <= d
    ensures a * c <= b * d
  {
    assert a * c <= a * d;
    assert a * d <= b * d;
  }

  /** All edges of a vertex of smaller rank. */
  lemma AllEdges(n: nat, m: nat, r: nat, q: nat)
    requires r < q && m <= n
    ensures m * Weight(n, r) <= Beyond(n, q)
  {
    BeyondGrows(n, r, q - 1);
    MulBoth(m, n, Weight(n, r), Weight(n, q - 1));
  }

  function RankOf(rank: map<Vertex, nat>, v: Vertex): nat
  {
    if v in rank then rank[v] else 0
  }

  /** What the edges still to be looked at can cost. */
  function StackCost(n: nat, rank: map<Vertex, nat>, stack: seq<VertexInfo>): nat
  {
    if stack == [] then 0
    else
      var top := stack[|stack| - 1];
      StackCost(n, rank, stack[..|stack| - 1]) + |top.rest| * Weight(n, RankOf(rank, top.v))
  }

  /** What returning from the calls that pushed the frames can cost. */
  function FramesCost(n: nat, rank: map<Vertex, nat>, frames: seq<Frame>): nat
  {
    if frames == [] then 0
    else FramesCost(n, rank, frames[..|frames| - 1]) + FrameCost(n, rank, frames[|frames| - 1])
  }

  function FrameCost(n: nat, rank: map<Vertex, nat>, frame: Frame): nat
  {
    match frame.call
    case None => 0
    case Some(call) => Beyond(n, RankOf(rank, call))
  }

  function Cost(n: nat, rank: map<Vertex, nat>, s: Search): nat
  {
    StackCost(n, rank, s.stack) + FramesCost(n, rank, s.frames)
  }

  ghost predicate OwnEdges(g: Arcs, stack: seq<VertexInfo>)
  {
    forall i | 0 <= i < |stack| :: stack[i].rest <= Out(g, stack[i].v)
  }

  lemma StackPush(n: nat, rank: map<Vertex, nat>, stack: seq<VertexInfo>, info: VertexInfo)
    ensures StackCost(n, rank, stack + [info]) ==
            StackCost(n, rank, stack) + |info.rest| * Weight(n, RankOf(rank, info.v))
  {
    hide Weight;
    assert (stack + [info])[..|stack|] == stack;
  }

  lemma FramesPush(n: nat, rank: map<Vertex, nat>, frames: seq<Frame>, frame: Frame)
    ensures FramesCost(n, rank, frames + [frame]) == FramesCost(n, rank, frames) + FrameCost(n, rank, frame)
  {
    assert (frames + [frame])[..|frames|] == frames;
  }

  /** Colours cost nothing. */
  lemma ColoredCosts(n: nat, rank: map<Vertex, nat>, frames: seq<Frame>, v: Vertex, c: Color)
    ensures FramesCost(n, rank, Colored(frames, v, c)) == FramesCost(n, rank, frames)
  {
    if frames != [] {
      var now := Colored(frames, v, c);
      assert now[..|now| - 1] == frames[..|frames| - 1];
    }
  }

  /** A call pays for its return in advance. */
  lemma FramesForCosts(p: Problem, n: nat, rank: map<Vertex, nat>, s: Search, e: Edge)
    requires Downhill(p.g, p.back, rank) && e in p.g && !Skips(p.back, s.frames, e)
    ensures FramesCost(n, rank, FramesFor(s.frames, e)) ==
            FramesCost(n, rank, s.frames)
            + (if e.kind.FunctionCall? then Beyond(n, RankOf(rank, p.g[e].src)) else 0)
            - (if e.kind.Return? then Beyond(n, RankOf(rank, e.kind.call)) else 0)
  {
    hide Beyond;
    match e.kind {
      case FunctionCall(call) => FramesPush(n, rank, s.frames, Frame(Some(call), map[]));
      case _ =>
    }
  }

  lemma {:induction false} SettledCosts(g: Arcs, n: nat, rank: map<Vertex, nat>, s: Search)
    requires OwnEdges(g, s.stack)
    ensures OwnEdges(g, Settled(s).stack) && Cost(n, rank, Settled(s)) == Cost(n, rank, s)
    decreases |s.stack|
  {
    hide Colored, FramesCost, Weight;
    if s.stack != [] && s.stack[|s.stack| - 1].rest == {} {
      ColoredCosts(n, rank, s.frames, s.stack[|s.stack| - 1].v, Black);
      SettledCosts(g, n, rank, Finished(s));
    }
  }

  lemma OutSize(g: Arcs, v: Vertex)
    ensures |Out(g, v)| <= |g|
  {
    CardinalityMonotone(Out(g, v), g.Keys);
  }

  lemma OnTop(g: Arcs, s: Search, e: Edge)
    requires AtHand(s, e) && OwnEdges(g, s.stack)
    ensures s.stack != [] && e in s.stack[|s.stack| - 1].rest
    ensures e in g && g[e].src == s.stack[|s.stack| - 1].v
  {
  }

  /** The stack without the edge that is looked at. */
  ghost function Below(s: Search, e: Edge): seq<VertexInfo>
    requires s.stack != []
  {
    var n := |s.stack| - 1;
    s.stack[..n] + [VertexInfo(s.stack[n].v, s.stack[n].rest - {e})]
  }

  lemma BelowCosts(g: Arcs, n: nat, rank: map<Vertex, nat>, s: Search, e: Edge)
    requires AtHand(s, e) && OwnEdges(g, s.stack)
    ensures s.stack != [] && OwnEdges(g, Below(s, e))
    ensures StackCost(n, rank, Below(s, e)) + Weight(n, RankOf(rank, s.stack[|s.stack| - 1].v)) ==
            StackCost(n, rank, s.stack)
  {
    hide Weight, StackCost;
    var k := |s.stack| - 1;
    var u, rest := s.stack[k].v, s.stack[k].rest;
    StackPush(n, rank, s.stack[..k], VertexInfo(u, rest));
    StackPush(n, rank, s.stack[..k], VertexInfo(u, rest - {e}));
    assert s.stack[..k] + [VertexInfo(u, rest)] == s.stack;
    assert |rest - {e}| == |rest| - 1;
    var w := Weight(n, RankOf(rank, u));
    assert (|rest| - 1) * w + w == |rest| * w;
  }

  lemma LookedInto(p: Problem, s: Search, e: Edge)
    requires s.stack != []
    ensures Skips(p.back, s.frames, e) ==> Looked(p, s, e).stack == Below(s, e) && Looked(p, s, e).frames == s.frames
    ensures !Skips(p.back, s.frames, e) && !Enters(p, s, e) ==>
              Looked(p, s, e).stack == Below(s, e) && Looked(p, s, e).frames == FramesFor(s.frames, e)
    ensures Enters(p, s, e) ==>
              && !Skips(p.back, s.frames, e) && e in p.g
              && Looked(p, s, e).stack == Below(s, e) + [VertexInfo(p.g[e].dst, Out(p.g, p.g[e].dst))]
              && Looked(p, s, e).frames == Colored(FramesFor(s.frames, e), p.g[e].dst, Gray)
  {
    hide FramesFor, Colored;
  }

  lemma OwnEdgesPush(g: Arcs, stack: seq<VertexInfo>, v: Vertex)
    requires OwnEdges(g, stack)
    ensures OwnEdges(g, stack + [VertexInfo(v, Out(g, v))])
  {
  }

  /** What the edges of the next vertex can cost is paid for by the edge that leads there, or by the frame. */
  lemma NextCosts(p: Problem, rank: map<Vertex, nat>, s: Search, e: Edge)
    requires Downhill(p.g, p.back, rank) && e in p.g && !Skips(p.back, s.frames, e)
    ensures |Out(p.g, p.g[e].dst)| * Weight(|p.g|, RankOf(rank, p.g[e].dst)) <=
            if e.kind.Return? then Beyond(|p.g|, RankOf(rank, e.kind.call)) else Beyond(|p.g|, RankOf(rank, p.g[e].src))
  {
    hide Weight, Beyond, Out;
    OutSize(p.g, p.g[e].dst);
    AllEdges(|p.g|, |Out(p.g, p.g[e].dst)|, RankOf(rank, p.g[e].dst),
             if e.kind.Return? then RankOf(rank, e.kind.call) else RankOf(rank, p.g[e].src));
  }

  /** Every look costs something. */
  lemma LookCosts(p: Problem, rank: map<Vertex, nat>, s: Search, e: Edge)
    requires Downhill(p.g, p.back, rank) && OwnEdges(p.g, s.stack) && AtHand(s, e)
    ensures OwnEdges(p.g, Looked(p, s, e).stack) && Cost(|p.g|, rank, Looked(p, s, e)) < Cost(|p.g|, rank, s)
  {
    hide *;
    OnTop(p.g, s, e);
    var n, t := |p.g|, Looked(p, s, e);
    BelowCosts(p.g, n, rank, s, e);
    LookedInto(p, s, e);
    var r := RankOf(rank, p.g[e].src);
    WeightIs(n, r);
    if !Skips(p.back, s.frames, e) {
      FramesForCosts(p, n, rank, s, e);
    }
    if Enters(p, s, e) {
      var v := p.g[e].dst;
      NextCosts(p, rank, s, e);
      ColoredCosts(n, rank, FramesFor(s.frames, e), v, Gray);
      StackPush(n, rank, Below(s, e), VertexInfo(v, Out(p.g, v)));
      OwnEdgesPush(p.g, Below(s, e), v);
    }
    CostIs(n, rank, s);
    CostIs(n, rank, t);
  }

  lemma WeightIs(n: nat, r: nat)
    ensures Weight(n, r) == 1 + 2 * Beyond(n, r)
  {
  }

  lemma CostIs(n: nat, rank: map<Vertex, nat>, s: Search)
    ensures Cost(n, rank, s) == StackCost(n, rank, s.stack) + FramesCost(n, rank, s.frames)
  {
    hide StackCost, FramesCost;
  }

  lemma {:induction false} PlaysShort(p: Problem, rank: map<Vertex, nat>, s: Search, looks: seq<Edge>)
    requires Downhill(p.g, p.back, rank) && OwnEdges(p.g, s.stack) && Plays(p, s, looks, Open)
    ensures |looks| <= Cost(|p.g|, rank, s)
    decreases |looks|
  {
    hide Looked, Settled, Finds, Downhill, Cost, OwnEdges;
    SettledCosts(p.g, |p.g|, rank, s);
    if looks != [] {
      LookCosts(p, rank, Settled(s), looks[0]);
      PlaysShort(p, rank, Looked(p, Settled(s), looks[0]), looks[1..]);
    }
  }

  /** Where the edges go downhill, a traversal ends after so many looks at the latest. */
  lemma EndsInTime(p: Problem, rank: map<Vertex, nat>, n: nat)
    requires Downhill(p.g, p.back, rank) && n > |p.g| * Weight(|p.g|, RankOf(rank, p.source))
    ensures !CanLookFor(p, n)
  {
    hide Plays, Downhill, Weight;
    if CanLookFor(p, n) {
      var looks: seq<Edge> :| |looks| == n && Plays(p, StartOf(p), looks, Open);
      PlaysShort(p, rank, StartOf(p), looks);
      StartCosts(p, |p.g|, rank);
    }
  }

  lemma StartCosts(p: Problem, n: nat, rank: map<Vertex, nat>)
    ensures Cost(|p.g|, rank, StartOf(p)) <= |p.g| * Weight(|p.g|, RankOf(rank, p.source))
  {
    hide Weight;
    var info, frame := StartOf(p).stack[0], StartOf(p).frames[0];
    StackPush(|p.g|, rank, [], info);
    FramesPush(|p.g|, rank, [], frame);
    assert [] + [info] == StartOf(p).stack && [] + [frame] == StartOf(p).frames;
    OutSize(p.g, p.source);
    var w := Weight(|p.g|, RankOf(rank, info.v));
    MulBoth(|info.rest|, |p.g|, w, w);
  }

  // ----- Recursion -----

  /** The edge `e` leads from an ENTRY to a call, and `call` back to the ENTRY. */
  ghost predicate CallsItself(p: Problem, e: Edge, call: Edge)
  {
    && e in p.g && call in p.g && e !in p.back && call !in p.back && e.kind == Fallthrough && call.kind.FunctionCall?
    && p.g[call] == Arc(p.g[e].dst, p.g[e].src) && p.g[e].src != p.g[e].dst
    && p.sink != p.g[e].src && p.sink != p.g[e].dst
  }

  /** The ENTRY has just been entered with a frame of its own. */
  ghost predicate JustEntered(p: Problem, s: Search, e: Edge)
    requires e in p.g
  {
    AtHand(s, e) && s.frames != [] && ColorOf(s.frames[|s.frames| - 1], p.g[e].dst) == White
  }

  lemma EntersCall(p: Problem, s: Search, e: Edge, call: Edge)
    requires CallsItself(p, e, call) && JustEntered(p, s, e)
    ensures s.stack != [] && Enters(p, s, e) && !Finds(p, s, e)
    ensures AtHand(Looked(p, s, e), call)
  {
  }

  lemma EntersItself(p: Problem, s: Search, e: Edge, call: Edge)
    requires CallsItself(p, e, call) && AtHand(s, call)
    ensures s.stack != [] && Enters(p, s, call) && !Finds(p, s, call)
    ensures JustEntered(p, Looked(p, s, call), e)
  {
    var frames := FramesFor(s.frames, call);
    assert ColorOf(frames[|frames| - 1], p.g[call].dst) == White;
    assert e in Out(p.g, p.g[call].dst);
  }

  /** Each call has a frame in which nothing has been seen, so a function that calls itself is entered over and over. */
  lemma {:induction false} RecursionGoesOn(p: Problem, s: Search, e: Edge, call: Edge, n: nat) returns (looks: seq<Edge>)
    requires CallsItself(p, e, call) && JustEntered(p, s, e)
    ensures |looks| == n && Plays(p, s, looks, Open)
    decreases n
  {
    hide CallsItself, JustEntered, Enters, Finds, Looked, Settled;
    EntersCall(p, s, e, call);
    EnteredAtHand(p, s, e);
    NothingToFinish(s, e);
    if n == 0 {
      looks := [];
    } else {
      var t := Looked(p, s, e);
      NothingToFinish(t, call);
      if n == 1 {
        looks := [e];
        assert looks[1..] == [];
      } else {
        EntersItself(p, t, e, call);
        var rest := RecursionGoesOn(p, Looked(p, t, call), e, call, n - 2);
        looks := [e] + ([call] + rest);
        assert looks[1..] == [call] + rest && ([call] + rest)[1..] == rest;
      }
    }
  }

  lemma EnteredAtHand(p: Problem, s: Search, e: Edge)
    requires e in p.g && JustEntered(p, s, e)
    ensures AtHand(s, e)
  {
  }

  /** So a traversal that starts in a function which calls itself need never end. */
  lemma RecursionNeverEnds(p: Problem, e: Edge, call: Edge, n: nat)
    requires CallsItself(p, e, call) && p.source == p.g[e].src
    ensures CanLookFor(p, n)
  {
    hide Plays;
    assert JustEntered(p, StartOf(p), e) by {
      assert e in Out(p.g, p.source);
    }
    var looks := RecursionGoesOn(p, StartOf(p), e, call, n);
  }
}
