/** Drawing a control flow graph as a DOT file, as the sequence of its lines. */
module DotFiles {
  import opened Basics
  import opened Walks
  import opened Graphs
  import opened DepthFirst

  datatype Line = VertexLine(v: Vertex) | EdgeLine(e: Edge)

  /** Calls, returns, and edges into an ENTRY or out of an EXIT are not drawn. */
  function Drawable(g: Arcs): Edge -> bool
  {
    (e: Edge) =>
      && e in g && !e.kind.FunctionCall? && !e.kind.Return?
      && g[e].dst.statement != Entry && g[e].src.statement != Exit
  }

  function LineFor(event: Event<Vertex, Edge>): Option<Line>
  {
    match event
    case DiscoverVertex(v) => Some(VertexLine(v))
    case TreeEdge(e) => Some(EdgeLine(e))
    case BackEdge(e) => Some(EdgeLine(e))
    case ForwardOrCrossEdge(e) => Some(EdgeLine(e))
    case _ => None
  }

  class WriteGraphvizDotFileVisitor {
    var lines: seq<Line>

    constructor ()
      ensures lines == []
    {
      lines := [];
    }

    method Notify(event: Event<Vertex, Edge>)
      modifies this`lines
      ensures lines == match LineFor(event) case Some(line) => old(lines) + [line] case None => old(lines)
    {
      match event {
        case DiscoverVertex(v) => lines := lines + [VertexLine(v)];
        case TreeEdge(e) => lines := lines + [EdgeLine(e)];
        case BackEdge(e) => lines := lines + [EdgeLine(e)];
        case ForwardOrCrossEdge(e) => lines := lines + [EdgeLine(e)];
        case _ =>
      }
    }
  }

  /** Every line stands for one event, and no line occurs twice. */
  ghost predicate LinesFor(lines: seq<Line>, log: seq<Event<Vertex, Edge>>)
  {
    && (forall i, j | 0 <= i < j < |lines| :: lines[i] != lines[j])
    && (forall line | line in lines :: exists event :: event in log && LineFor(event) == Some(line))
    && (forall event | event in log && LineFor(event).Some? :: LineFor(event).value in lines)
  }

  lemma OneMoreLine(lines: seq<Line>, log: seq<Event<Vertex, Edge>>, k: nat)
    requires NoRepeats(log) && k < |log| && LinesFor(lines, log[..k])
    ensures LinesFor(match LineFor(log[k]) case Some(line) => lines + [line] case None => lines, log[..k + 1])
  {
    assert log[..k + 1] == log[..k] + [log[k]];
    if LineFor(log[k]).Some? {
      var line := LineFor(log[k]).value;
      forall x | x in lines + [line] ensures exists event :: event in log[..k + 1] && LineFor(event) == Some(x) {
        if x == line {
          assert log[k] in log[..k + 1];
        } else {
          var event :| event in log[..k] && LineFor(event) == Some(x);
          assert event in log[..k + 1];
        }
      }
    } else {
      forall x | x in lines ensures exists event :: event in log[..k + 1] && LineFor(event) == Some(x) {
        var event :| event in log[..k] && LineFor(event) == Some(x);
        assert event in log[..k + 1];
      }
    }
  }

  function VerticesIn(lines: seq<Line>): set<Vertex>
  {
    set line | line in lines && line.VertexLine? :: line.v
  }

  function EdgesIn(lines: seq<Line>): set<Edge>
  {
    set line | line in lines && line.EdgeLine? :: line.e
  }

  /** The file declares each vertex that can be reached from ENTRY over drawable edges, once, and draws each drawable
      edge between those, once; so both ends of every edge that is drawn are declared. */
  ghost predicate DrawnWell(g: Arcs, entry: Vertex, lines: seq<Line>)
  {
    var h, vs := Permitted(g, Drawable(g)), VerticesIn(lines);
    && (forall i, j | 0 <= i < j < |lines| :: lines[i] != lines[j])
    && entry in vs && Closed(h, vs) && (forall v | v in vs :: Reaches(h, entry, v))
    && EdgesIn(lines) == (set e | e in h && h[e].src in vs)
    && (forall e | e in EdgesIn(lines) :: e in g && g[e].src in vs && g[e].dst in vs)
  }

  lemma LinesAre(lines: seq<Line>, log: seq<Event<Vertex, Edge>>)
    requires LinesFor(lines, log)
    ensures VerticesIn(lines) == DiscoveredIn(log) && EdgesIn(lines) == ClassifiedIn(log)
  {
    forall v | v in VerticesIn(lines) ensures v in DiscoveredIn(log) {
      assert VertexLine(v) in lines;
    }
    forall v | v in DiscoveredIn(log) ensures v in VerticesIn(lines) {
      assert DiscoverVertex(v) in log && LineFor(DiscoverVertex(v)) == Some(VertexLine(v));
    }
    forall e | e in EdgesIn(lines) ensures e in ClassifiedIn(log) {
      assert EdgeLine(e) in lines;
      var event :| event in log && LineFor(event) == Some(EdgeLine(e));
      assert KeyOf(event) == Classified(e);
    }
    forall e | e in ClassifiedIn(log) ensures e in EdgesIn(lines) {
      var event :| event in log && KeyOf(event) == Classified(e);
      assert LineFor(event) == Some(EdgeLine(e));
    }
  }

  method PrintControlFlowGraphDot(g: Arcs, entry: Vertex) returns (lines: seq<Line>)
    ensures DrawnWell(g, entry, lines)
  {
    hide Exact, NoRepeats, LinesFor, DrawnWell;
    var log := ImprovedDepthFirstVisit(g, entry, Drawable(g));
    ExactOnce(g, entry, log);
    var visitor := new WriteGraphvizDotFileVisitor();
    NoLines(log);
    var k := 0;
    while k < |log|
      invariant k <= |log| && LinesFor(visitor.lines, log[..k])
    {
      OneMoreLine(visitor.lines, log, k);
      visitor.Notify(log[k]);
      k := k + 1;
    }
    assert log[..k] == log;
    lines := visitor.lines;
    DrawnExactly(g, entry, lines, log);
  }

  lemma NoLines(log: seq<Event<Vertex, Edge>>)
    ensures LinesFor([], log[..0])
  {
  }

  lemma ExactOnce(g: Arcs, entry: Vertex, log: seq<Event<Vertex, Edge>>)
    requires Exact(g, Drawable(g), entry, log)
    ensures NoRepeats(log)
  {
  }

  lemma DrawnExactly(g: Arcs, entry: Vertex, lines: seq<Line>, log: seq<Event<Vertex, Edge>>)
    requires Exact(g, Drawable(g), entry, log) && LinesFor(lines, log)
    ensures DrawnWell(g, entry, lines)
  {
    hide Acyclic, Reaches;
    LinesAre(lines, log);
    var h, vs := Permitted(g, Drawable(g)), VerticesIn(lines);
    assert forall e | e in h :: e in g && h[e] == g[e];
  }
}
