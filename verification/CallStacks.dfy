/** The stack of call frames a traversal keeps, one colour map to a frame. */
module CallStacks {
  import opened Basics
  import opened Graphs

  /** `call` is the resolved call that pushed the frame; the root frame has none. */
  datatype Frame = Frame(call: Option<Vertex>, colors: map<Vertex, Color>)
  {
    predicate IsCall() {
      call.Some? && call.value.statement.CallResolved?
    }

    function Callee(): Function
      requires IsCall()
    {
      call.value.statement.target
    }
  }

  function ColorOf(f: Frame, v: Vertex): Color
  {
    if v in f.colors then f.colors[v] else White
  }

  function Top(frames: seq<Frame>): Frame
    requires frames != []
  {
    frames[|frames| - 1]
  }

  ghost predicate RootedCalls(frames: seq<Frame>)
  {
    frames != [] && frames[0].call.None? && forall i | 0 < i < |frames| :: frames[i].IsCall()
  }

  /** The functions that the non-root frames are executing. */
  ghost function Callees(frames: seq<Frame>): set<Function>
    requires RootedCalls(frames)
  {
    set i | 0 < i < |frames| :: frames[i].Callee()
  }

  ghost predicate CalleesDistinct(frames: seq<Frame>)
    requires RootedCalls(frames)
  {
    forall i, j | 0 < i < j < |frames| :: frames[i].Callee() != frames[j].Callee()
  }

  class DFSCallStack {
    var frames: seq<Frame>
    var callSet: set<Function>

    constructor ()
      ensures frames == [] && callSet == {}
    {
      frames, callSet := [], {};
    }

    method PushCallStack(f: Frame)
      modifies this`frames
      ensures frames == old(frames) + [f]
    {
      frames := frames + [f];
    }

    /** The root frame was pushed by no call, so it must not be popped. */
    method PopCallStack()
      requires frames != [] && Top(frames).IsCall()
      modifies this
      ensures frames == old(frames)[..|old(frames)| - 1]
      ensures callSet == old(callSet) - {old(Top(frames)).Callee()}
    {
      callSet := callSet - {Top(frames).Callee()};
      frames := frames[..|frames| - 1];
    }

    method SetColor(v: Vertex, c: Color)
      requires frames != []
      modifies this`frames
      ensures frames == old(frames)[|old(frames)| - 1 :=
                          old(Top(frames)).(colors := old(Top(frames)).colors[v := c])]
    {
      var top := Top(frames);
      frames := frames[|frames| - 1 := top.(colors := top.colors[v := c])];
    }

    /** Answers whether `f` is being called already, and counts it as called from now on. */
    method AreWeRecursing(f: Function) returns (recursing: bool)
      modifies this`callSet
      ensures recursing <==> f in old(callSet)
      ensures callSet == old(callSet) + {f}
    {
      recursing := f in callSet;
      callSet := callSet + {f};
    }

    /** A root frame, then one frame to a function in the call set, no function twice. */
    ghost predicate NotRecursive()
      reads this
    {
      RootedCalls(frames) && CalleesDistinct(frames) && callSet == Callees(frames)
    }

    /** What the printing visitor does at a resolved call: it enters the callee unless that would be recursion. */
    method EnterUnlessRecursing(call: Vertex) returns (entered: bool)
      requires NotRecursive() && call.statement.CallResolved?
      modifies this
      ensures NotRecursive()
      ensures entered <==> call.statement.target !in old(callSet)
      ensures frames == if entered then old(frames) + [Frame(Some(call), map[])] else old(frames)
    {
      var recursing := AreWeRecursing(call.statement.target);
      entered := !recursing;
      if entered {
        CalleesAfterPush(frames, Frame(Some(call), map[]));
        PushCallStack(Frame(Some(call), map[]));
      } else {
        assert callSet == old(callSet);
      }
    }

    /** Leaving a function that was entered this way keeps the protocol. */
    method Leave()
      requires NotRecursive() && |frames| > 1
      modifies this
      ensures NotRecursive()
      ensures frames == old(frames)[..|old(frames)| - 1]
    {
      ghost var below := frames[..|frames| - 1];
      assert frames == below + [Top(frames)];
      CalleesAfterPush(below, Top(frames));
      assert frames[|below|].Callee() !in Callees(below);
      PopCallStack();
    }

    /** The depth is bounded by the number of functions. */
    lemma DepthBound(functions: set<Function>)
      requires NotRecursive() && callSet <= functions
      ensures |frames| == |callSet| + 1 && |frames| <= |functions| + 1
    {
      DistinctCalleesCount(frames);
      CardinalityMonotone(callSet, functions);
    }
  }

  lemma CalleesAfterPush(frames: seq<Frame>, f: Frame)
    requires RootedCalls(frames) && f.IsCall()
    ensures RootedCalls(frames + [f])
    ensures Callees(frames + [f]) == Callees(frames) + {f.Callee()}
  {
    var pushed := frames + [f];
    assert pushed[|frames|].Callee() in Callees(pushed);
    forall i | 0 < i < |frames| ensures frames[i].Callee() in Callees(pushed) {
      assert pushed[i] == frames[i];
    }
  }

  lemma {:induction false} DistinctCalleesCount(frames: seq<Frame>)
    requires RootedCalls(frames) && CalleesDistinct(frames)
    ensures |Callees(frames)| == |frames| - 1
  {
    if |frames| > 1 {
      var below := frames[..|frames| - 1];
      DistinctCalleesCount(below);
      assert frames == below + [Top(frames)];
      CalleesAfterPush(below, Top(frames));
      assert Top(frames).Callee() !in Callees(below);
    } else {
      assert Callees(frames) == {};
    }
  }
}
