# CoFlo's control flow graph engine in Dafny

CoFlo reads the three-address statement lists that a C compiler emits, turns each function into a control flow graph,
links the graphs of a program by call and return edges, and answers the question "can `f()` ever get to `g()`?". This
project models that engine and proves what its passes preserve. Every iteration over a set in the original is an
arbitrary choice here, so each theorem holds for every order in which an unordered set may be walked.

How the modules fit together:

* `Walks`, `Basics`, `PropertyMaps` - finite multigraphs as values (each edge mapped to its two ends), walks,
  reachability, and the lazily filled property map.
* `Graphs` - the heap: `Vertex`, `Edge` and `Graph` objects that point at each other. `Represents(vs, g)` says that
  the objects hold exactly the graph value `g`; `vs` are all vertex objects, whichever graph they are listed in,
  because edges cross graphs and may touch vertices that have been replaced.
* `Programs` - what a statement list means: a machine over positions whose steps are the ways on from each statement.
* `Construction`, `Resolution`, `Creation`, `ControlFlowGraphs` - `CreateControlFlowGraph`, phase by phase.
* `DepthFirst`, `BackEdges`, `Contraction`, `CfgAlgs` - the three-colour search, back-edge marking with its proxy
  edges, and the removal of redundant vertices.
* `Meaning`, `Entries`, `Cycles` - what creation preserves, what it does not, and exactly when.
* `Jumps`, `Decisions` - statement by statement: where each leads, which are decisions, which are removed.
* `Searches`, `LostCode`, `TightLoops` - lists on which it loses something: what the back-edge search may come to in
  their graphs, and what follows for every graph created from them.
* `Linking`, `InDegrees`, `LinkedPrograms` - `Function::Link` across the graphs of a program.
* `CallStacks`, `Looks`, `Traversals`, `Reachability` - the interprocedural traversal, first look by look as a function
  of its state, then as it is programmed; and the reachability rule.
* `Finishing` - programs on which every traversal ends.
* `Executions` - runs of a whole program of statement lists, with a call stack, and where they can get.
* `ProgramRuns`, `BodiesKept`, `Analysis` - how the graph of a program and its lists belong together, as functions are
  added and linked; up to the verdict on a program built, linked and checked from its statement lists.
* `Kahn`, `FunctionCfg` - the topological visit, its in-degree map and filter.
* `DotFiles`, `Drawings` - the DOT drawing, and what it shows of a new and of a linked function.

Steps over the heap hide the definitions they do not need (`hide`), and small lemmas open one definition at a time;
most lemmas without proof text are of this kind.

The main results:

1. A program that has been built from statement lists and linked, in any order, keeps its lists and linked calls
   (`Analysis.Program.AddFunction`, `Analysis.Program.Link`), and `Analysis.Program.Check` reports a violation if and
   only if in these lists one gets from the one ENTRY to the other by taking ways on, stepping over calls and entering
   them; provided that the marks lose nothing and that the traversal ended. A run of the program, with its call stack,
   gets there if and only if one does so stepping only over calls that can return (`Executions.RunsIntoExactly`). So no
   violation that a run could show is missed, and every violation is shown by a run if all that is called can return.
   The traversal ends with every large enough budget if no function calls itself, directly or not, and the edges that
   it steps along within functions have no cycle (`Finishing.NonRecursiveEnds`); if it does not end, the edges that it
   looked at are a sequence of exactly as many possible looks as the budget allows, with an edge still to look at.
2. The runs of a statement list are exactly the walks of the finished graph over edges that are not Impossible, step
   for step and kind for kind, once the positions of removed vertices are erased (`Meaning.RunsStay`,
   `Meaning.WalksAreRuns`).
3. Exactly the back edges of the search are marked; each closes a cycle of unmarked edges, without them no cycle is
   left, and ENTRY reaches all that it did (`CfgAlgs.FixupBackEdges`, `Cycles.DrawnAcyclic`). Contraction reaches its
   fixpoint in one pass in any order; linking keeps one call edge and one Return edge per call, aimed where the call
   falls through to, whatever is replaced later.
4. Kahn's visit covers all that is reachable if and only if the permitted edges have no cycle there, none comes in from
   elsewhere, and no vertex asks for more edges than these (`Kahn.VisitsAllExactly`). For a new function without calls
   that means: the edges without a mark have no cycle, self edges included (`FunctionCfg.PrintsAllExactly`).

Where the code does not do what it seems to promise, the code is followed and the exact condition proved:

* A call is stepped over by its fallthrough edge whether or not its function can return
  (src/controlflowgraph/ControlFlowGraphTraversalDFS.cpp:316-345). With `f: g(); h();` and `g: L: goto L` the
  constraint `f() -x h()` is reported as violated, although no run gets from `f` to `h`:
  `Analysis.ReportedButNeverRun`. `Executions.StuckInCall` says that this is the only way: where a violation is shown by
  no run, some run gets to a call that cannot return.
* The in-edge that bypasses a contracted vertex does not inherit the back-edge mark of the dropped out-edge
  (src/controlflowgraph/algorithms/cfg_algs.cpp:340-344). `Cycles.FinalAcyclicExactly`: the finished graph, its proxies
  aside, has a cycle without marked edges if and only if a marked edge was dropped whose source a remaining vertex could
  reach. By `Decisions.LostMarkNoWayRound` no vertex on the way round then had a second way on, except above an if or a
  switch with only one.
* On a function that calls itself the traversal need never end, because each call has colours of its own:
  `Looks.RecursionNeverEnds`.
* In every graph of the list `L: goto L` the mark is lost, and the label is left with an unmarked self edge
  (`TightLoops.LoopLosesItsMark`). The in-degree functor counts it (src/Function.cpp:178-204), but the printing
  visitor's filter skips it (src/controlflowgraph/visitors/FunctionCFGVisitor.cpp:205-209), so the topological visit
  never gets to the label, although ENTRY leads there: `FunctionCfg.LoopNeverPrinted`.
* The back-edge search also walks Impossible edges. Where a jump does not find its label, a marked edge can be the only
  real way to some code, and a traversal that skips back edges never sees that code: `LostCode.SearchMayMark` and
  `LostCode.MarksCanLoseCode`. Where, after each jump that a run gets stuck at, some way of the list leads to the next
  statement that is no jump, nothing is lost: `Entries.MarksLoseNothingHere`.
* The list of basic block leaders holds vertices from before the jumps were replaced, so a resolved jump right after
  another jump is left without an in-edge, and the warning about that is never printed: `Creation.WithoutWayIn` is an
  if-and-only-if over all lists.
* A comment says that each Return edge has a matching bypass edge (src/Function.cpp:193-195); no bypass edge is ever
  made, and none is modelled as made.
* A function is never reported to reach itself: the traversal does not explore past a source that is also the sink
  (src/controlflowgraph/ControlFlowGraphTraversalDFS.cpp:114-136).

## Model

| member | source | states |
|---|---|---|
| Graphs.Vertex.TransferOwnedResourcesTo | src/controlflowgraph/Vertex.cpp:50-67 | the other vertex gets both edge sets and every edge in them follows; this vertex gets what the other had |
| Graphs.HandOver | src/controlflowgraph/Vertex.cpp:50-67 | in a well-linked heap, handing over to an edge-free vertex renames every end, self edges and parallel edges included, and frees the old vertex |
| Graphs.Edge.SetSourceAndTarget | src/controlflowgraph/Edge.cpp:66-72 | both ends are set and all other edges still know theirs |
| Graphs.Edge.ClearSourceAndTarget | src/controlflowgraph/Edge.cpp:74-78 | the edge has no ends and leaves the graph value |
| Graphs.Edge.ChangeSource | src/controlflowgraph/Edge.cpp:40-51 | with a source before, the linked structure holds the graph with the source moved and nothing else changed; without one, the edge is on the new source's list |
| Graphs.Edge.ChangeTarget | src/controlflowgraph/Edge.cpp:53-64 | with a target before, the linked structure holds the graph with the target moved and nothing else changed; without one, the edge is on the new target's list |
| Graphs.Edge.ChangeBoth | src/controlflowgraph/Edge.cpp:40-64 | an edge without ends that is given both is linked just as if it had been added to the graph |
| Graphs.Graph.AddVertex | src/controlflowgraph/Graph.cpp:40-52 | a duplicate is reported, gets a new index all the same, and indices stay unique |
| Graphs.Graph.RemoveVertex | src/controlflowgraph/Graph.cpp:54-57 | only this vertex leaves the list; indices stay unique |
| Graphs.Graph.AddEdge | src/controlflowgraph/Graph.cpp:71-77 | the structure holds the old graph and this edge, with ends and edge sets in agreement |
| Graphs.Graph.RemoveEdge | src/controlflowgraph/Graph.cpp:79-85 | the structure holds the old graph without this edge |
| Graphs.Graph.ReplaceVertex | src/controlflowgraph/Graph.cpp:59-69 | every edge end at the old vertex is at the new one, the old one is free of edges and unlisted; nothing moves on a duplicate add |
| PropertyMaps.SparsePropertyMap.Write | src/controlflowgraph/SparsePropertyMap.h:87-100 | the key reads as the value, or as its default after the sentinel; no other key changes |
| PropertyMaps.SparsePropertyMap.Read | src/controlflowgraph/SparsePropertyMap.h:102-122 | a read may add an entry but never changes what any key reads as |
| Programs.LabelsLastWins | src/Function.cpp:641-667 | a name stands for the last label of that name; EXIT stands for the EXIT vertex only if no label has that name |
| Programs.WaysInRange | src/controlflowgraph/statements/ParseHelpers.cpp:33-153 | control stays in the list, never returns to ENTRY, and enters a jump only from a non-jump right before it |
| Jumps.GotoLeads | src/controlflowgraph/statements/ParseHelpers.cpp:33-52 | a goto leads to the last label of its name, or to EXIT if it names that and no label does, and nowhere if there is neither |
| Jumps.ReturnLeads | src/controlflowgraph/statements/ParseHelpers.cpp:54-74 | a return has exactly one way on, to EXIT unless a label is called that |
| Jumps.IfLeads | src/controlflowgraph/statements/ParseHelpers.cpp:76-103 | an if leads to both its labels, true and false, or nowhere |
| Jumps.SwitchLeads | src/controlflowgraph/statements/ParseHelpers.cpp:112-153 | a switch leads to the labels of its cases in their order, those without a label left out |
| Jumps.OthersFallThrough | src/Function.cpp:670-706 | ENTRY and every statement that is no jump lead to the next position only |
| Jumps.JumpEdgeIsNamed | src/Function.cpp:645-746 | in a created graph, an edge out of a jump that is not Impossible leads to the vertex of a label that the jump names |
| Construction.AddWay | src/Function.cpp:674-714 | one more way on from a position has its edge, one to one, in the linked structure |
| Construction.AddStatements | src/Function.cpp:645-714 | the graph has exactly the fallthrough edges; labels, leaders and unlinked jumps are listed by position |
| Resolution.ResolveJump | src/controlflowgraph/statements/ParseHelpers.cpp:33-74 | all ways on get their edges; there is no replacement exactly when the label is missing |
| Resolution.ResolveIf | src/controlflowgraph/statements/ParseHelpers.cpp:76-103 | both edges or none, and no replacement exactly when a label is missing |
| Resolution.ResolveSwitch | src/controlflowgraph/statements/ParseHelpers.cpp:112-153 | one edge per case whose label exists, in order; no replacement exactly when there is none |
| Resolution.ResolveLinks | src/controlflowgraph/statements/ParseHelpers.cpp:33-153 | every kind of jump gets exactly the edges of its ways on, and the right replacement |
| Creation.LinkJumps | src/Function.cpp:721-746 | all ways on of all positions have their edges; exactly the resolved jumps have been replaced, by the right kind of vertex |
| Creation.AddImpossibleEdges | src/Function.cpp:779-797 | each leader without a way in gets one Impossible edge from its original predecessor, no other leader does |
| Creation.CheckForNoInEdges | src/Function.cpp:799-822 | lists exactly the statements without in-edges and says whether there are any |
| Creation.WithoutWayIn | src/Function.cpp:670-689 | a statement in the graph has no in-edge if and only if it is a resolved jump right after another jump |
| ControlFlowGraphs.Draw | src/Function.cpp:640-766 | the complete graph of the list with its Impossible and self edges; the missing in-edge warning is never printed |
| ControlFlowGraphs.CreateControlFlowGraph | src/Function.cpp:615-777 | the finished graph of exactly these statements, with ENTRY as vertex 0 and EXIT as vertex 1, and with the record of how it came about, the search and its tree paths included, which is what the theorems below are about |
| DepthFirst.Visit | src/controlflowgraph/algorithms/depth_first_traversal.hpp:106-296 | a three-colour search from any white vertex extends a finished search to a finished search |
| DepthFirst.ImprovedDepthFirstVisit | src/controlflowgraph/algorithms/depth_first_traversal.hpp:79-297 | discovers and finishes exactly the reachable vertices, classifies exactly their permitted out-edges, each once; a tree edge comes right before the discovery of its target, a back edge while its target is unfinished, any other after its target was finished; without back edges no cycle is left |
| DepthFirst.ForwardIsAcyclic | src/controlflowgraph/algorithms/depth_first_traversal.hpp:267-295 | finishing order ranks all edges but the back edges |
| DepthFirst.BackEdgesCloseCycles | src/controlflowgraph/algorithms/depth_first_traversal.hpp:267-278 | a back edge leads to itself or to a proper tree ancestor, and every self edge is one |
| DepthFirst.DiscoversReachable | src/controlflowgraph/algorithms/depth_first_traversal.hpp:139-296 | the vertices discovered from one source are those it reaches, each by its tree path |
| BackEdges.DepthFirstSearch | src/controlflowgraph/algorithms/cfg_algs.cpp:56-61 | a search from the entry, restarted at every white vertex, covers all vertices, and first all that the entry reaches |
| BackEdges.MarkingLosesNothing | src/controlflowgraph/algorithms/cfg_algs.cpp:60-72 | what the entry reaches it reaches without the back edges |
| BackEdges.AtBackEdge | src/controlflowgraph/visitors/BackEdgeFixupVisitor.h:78-109 | when a back edge fires, the predecessor map leads from its source up the tree to its target, every lookup a hit |
| BackEdges.BackEdgeFixupVisitor.TreeEdge | src/controlflowgraph/visitors/BackEdgeFixupVisitor.h:78-82 | the target's predecessor is recorded |
| BackEdges.BackEdgeFixupVisitor.FindDifferentOutEdge | src/controlflowgraph/visitors/BackEdgeFixupVisitor.h:113-133 | another out-edge of the same vertex, and none exactly when there is no other |
| BackEdges.BackEdgeFixupVisitor.FindForwardTargetForBackEdge | src/controlflowgraph/visitors/BackEdgeFixupVisitor.h:143-191 | the climb ends at the first decision vertex and takes its other way out, or finds no decision vertex at all |
| BackEdges.BackEdgeFixupVisitor.BackEdge | src/controlflowgraph/visitors/BackEdgeFixupVisitor.h:84-109 | each back edge is recorded once with its forward target, a self edge without |
| BackEdges.CollectBackEdges | src/controlflowgraph/algorithms/cfg_algs.cpp:39-61 | the records are the back edges of the search in its order, each with a right forward target |
| CfgAlgs.FixupBackEdges | src/controlflowgraph/algorithms/cfg_algs.cpp:34-96 | the marks are the back edges of one finished search: without them no cycle is left among the vertices found, each closes a cycle of unmarked edges, and the entry reaches as far; every new edge is an Impossible proxy for a marked edge that was the only way out of its source, one to a vertex; a vertex left with only a marked way out had no decision to offer on its tree path |
| CfgAlgs.RecordsMarked | src/controlflowgraph/algorithms/cfg_algs.cpp:66-72 | every marked edge is recorded exactly once |
| CfgAlgs.Bypass | src/controlflowgraph/algorithms/cfg_algs.cpp:320-356 | the structure holds the contracted graph, also for a self edge, and the vertex is isolated |
| CfgAlgs.RemoveRedundantNodes | src/controlflowgraph/algorithms/cfg_algs.cpp:302-370 | whatever the order: removed are exactly the vertices redundant at the start, survivors keep both degrees, and edges drop by the number removed |
| Contraction.ContractOne | src/controlflowgraph/algorithms/cfg_algs.cpp:339-344 | one more contraction keeps every surviving edge a chain of dropped edges of the original |
| Contraction.Project | src/controlflowgraph/algorithms/cfg_algs.cpp:312-359 | every walk between survivors is still there, less the dropped edges |
| Contraction.Lift | src/controlflowgraph/algorithms/cfg_algs.cpp:312-359 | every walk that is left comes from an original one, less the dropped edges |
| Contraction.ReachabilityKept | src/controlflowgraph/algorithms/cfg_algs.cpp:312-367 | survivors reach each other exactly if they did before |
| Contraction.CyclesKept | src/controlflowgraph/algorithms/cfg_algs.cpp:312-367 | a cycle that a survivor reaches never vanishes |
| Contraction.AcyclicExactly | src/controlflowgraph/algorithms/cfg_algs.cpp:339-344 | exactly when the contracted graph is acyclic without its marked edges |
| Contraction.AcyclicKept | src/controlflowgraph/algorithms/cfg_algs.cpp:339-344 | acyclicity without the marked edges is kept if no dropped edge was marked |
| Meaning.DrawnSolid | src/Function.cpp:645-766 | the edges that are not Impossible are exactly the ways on of the list |
| Meaning.ErasedOfferNoChoice | src/controlflowgraph/algorithms/cfg_algs.cpp:316-320 | an erased position is a label or a jump with one way on |
| Meaning.RunsStay | src/Function.cpp:645-774 | every run of the list between surviving positions is a walk of the finished graph, less the erased positions, with the same edge kinds |
| Meaning.WalksAreRuns | src/Function.cpp:645-774 | every walk of the finished graph is a run of the list, less the erased positions, with the same edge kinds |
| Entries.EntryOnlySelfEdge | src/Function.cpp:762-774 | after construction the self edge is the only way into ENTRY, unmoved and marked |
| Entries.NothingLeadsToEntry | src/Function.cpp:89-95 | nothing but calls can lead a traversal into ENTRY |
| Entries.MarksLoseNothingHere | src/controlflowgraph/ControlFlowGraphTraversalDFS.cpp:309-314 | where, after each jump that a run gets stuck at, some way leads to the next statement that is no jump, skipping marked edges makes nothing unreachable from ENTRY |
| Cycles.DrawnAcyclic | src/controlflowgraph/algorithms/cfg_algs.cpp:56-72 | in a created graph no cycle is left without the marked edges, also none through jumps that were replaced |
| Cycles.FinalAcyclicExactly | src/controlflowgraph/algorithms/cfg_algs.cpp:302-370 | the finished graph without its proxies has a cycle of unmarked edges if and only if contraction dropped a marked edge whose source a remaining vertex could reach |
| Decisions.LostMarkNoWayRound | src/controlflowgraph/algorithms/cfg_algs.cpp:66-96 | a mark is lost only where no vertex on the tree path round the loop has a second way on, except above an if or a switch with only one |
| Decisions.StatementStands | src/Function.cpp:721-746 | at each position stands the statement of the list, or a Goto, If or Switch in the place of a jump that found its labels |
| Decisions.DecisionsAre | src/controlflowgraph/statements/Switch.h:36 | the decisions are the ifs and switches that found their labels |
| Decisions.TwoWaysDecide | src/controlflowgraph/visitors/BackEdgeFixupVisitor.h:143-191 | a vertex with two ways on is a decision |
| Decisions.MarkedOnlyWay | src/controlflowgraph/algorithms/cfg_algs.cpp:74-96 | a vertex is left with a marked edge as its only way out only where no vertex on the way round has a second way on, with that exception |
| Decisions.ProxyIsSecondWay | src/controlflowgraph/algorithms/cfg_algs.cpp:74-96 | a proxy stands beside a marked edge that was the only way out and leads to where the nearest if or switch on the way round leads otherwise |
| Decisions.GoneExactly | src/controlflowgraph/algorithms/cfg_algs.cpp:312-359 | removed are exactly the gotos and the labels whose name starts with "<" that have one way in and one way out |
| Decisions.NothingLeftToGo | src/controlflowgraph/algorithms/cfg_algs.cpp:312-367 | a label of any other name stays, and no goto or made-up label is left with one way in and one way out |
| TightLoops.LoopMarks | src/controlflowgraph/algorithms/cfg_algs.cpp:56-72 | in every graph of the list `L: goto L`, of the ways of the list exactly the one out of the goto is marked |
| TightLoops.LoopLosesItsMark | src/controlflowgraph/algorithms/cfg_algs.cpp:312-359 | in every finished graph of `L: goto L`, ENTRY leads to the label and the label has an unmarked self edge |
| Searches.CanDescend | src/controlflowgraph/algorithms/depth_first_traversal.hpp:267-295 | from every stage of a search whose next edge leads to an undiscovered vertex there is the stage that discovers it |
| Searches.CanMark | src/controlflowgraph/algorithms/depth_first_traversal.hpp:267-278 | an edge to a vertex on the stack can be looked at next, and is a back edge then |
| Searches.CanEnd | src/controlflowgraph/algorithms/cfg_algs.cpp:56-72 | a search that can end with all vertices found makes marks that the fixup pass may make |
| LostCode.ExampleDrawn | src/Function.cpp:645-766 | the graph drawn for the example list has exactly these twelve edges, one of them the patch after the stuck jump |
| LostCode.SearchMayMark | src/controlflowgraph/algorithms/cfg_algs.cpp:56-72 | in every graph drawn for that list the search may mark the edge from position 7 back to position 5 and, self edges aside, no other |
| LostCode.MarksCanLoseCode | src/controlflowgraph/ControlFlowGraphTraversalDFS.cpp:309-314 | with these marks the finished graph has code that the ways of the list lead to, but that a traversal which skips marked edges does not reach |
| Linking.GetFirstOutEdgeOfType | src/controlflowgraph/statements/StatementBase.h:71-91 | an out-edge of the type, and none exactly when there is none |
| Linking.FindCalls | src/Function.cpp:109-142 | exactly the resolvable calls get a fresh replacement for the function of their name, the others are unresolved |
| Linking.AddCallEdges | src/Function.cpp:153-165 | the call edge is listed by the graph of the caller, the Return edge by that of the callee, and both are in the linked structure |
| Linking.LinkCall | src/Function.cpp:145-165 | one call edge to the callee's ENTRY, one Return edge from its EXIT to the fallthrough target; the old vertex is gone from every edge; the program stays linked |
| Linking.LinkedStays | src/Function.cpp:145-165 | every earlier call keeps its one call edge and its one Return edge, aimed at its fallthrough target even when that was replaced |
| Linking.IntoEntry | src/Function.cpp:157-159 | only the self edge and the edges of its own calls lead into an ENTRY |
| Linking.Link | src/Function.cpp:97-166 | every resolvable call is linked, every other edge stays with replaced ends replaced, and the whole program stays linked, recursion included |
| InDegrees.EntryInDegree | src/Function.cpp:89-95 | an ENTRY has one in-edge plus one for each linked call |
| InDegrees.IsCalled | src/Function.cpp:89-95 | true exactly if a call of the function was linked |
| InDegrees.FilteredInDegree | src/Function.cpp:168-215 | the count in any edge order: exact without calls, one where there are only calls, and between one and one more than the edges that are neither calls nor returns where they meet |
| InDegrees.EntryCountsOnce | src/Function.cpp:168-215 | only unmarked calls count for an ENTRY, so it counts one if it is called and none otherwise |
| LinkedPrograms.FunctionJoins | src/TranslationUnit.cpp:309-330 | a newly created function joins a linked program, which stays linked, and is not called yet |
| LinkedPrograms.NothingLostJoin | src/TranslationUnit.cpp:309-330 | what the marks leave reachable is kept when a function joins whose list hides nothing behind a jump without its label |
| LinkedPrograms.NothingLostLinked | src/Function.cpp:145-165 | what the marks leave reachable in every function is kept by linking any function |
| LinkedPrograms.VerdictOnLinkedProgram | src/controlflowgraph/analysis/RuleReachability.cpp:73-113 | on a linked program where the marks lose nothing, the edges a traversal follows reach the sink exactly if the edges that enter calls or step over them do |
| CallStacks.DFSCallStack.PushCallStack | src/controlflowgraph/DFSCallStack.cpp:32-35 | one more frame on top |
| CallStacks.DFSCallStack.PopCallStack | src/controlflowgraph/DFSCallStack.cpp:37-47 | the top frame and its function in the call set are gone; the root frame must not be popped |
| CallStacks.DFSCallStack.AreWeRecursing | src/controlflowgraph/DFSCallStack.cpp:59-67 | whether the function was in the call set, which it is from now on |
| CallStacks.DFSCallStack.EnterUnlessRecursing | src/controlflowgraph/visitors/FunctionCFGVisitor.cpp:159-182 | entering only when not recursing keeps the callees distinct and equal to the call set |
| CallStacks.DFSCallStack.Leave | src/controlflowgraph/visitors/FunctionCFGVisitor.cpp:270-273 | leaving keeps the protocol |
| CallStacks.DFSCallStack.DepthBound | src/controlflowgraph/visitors/FunctionCFGVisitor.cpp:171-181 | under the protocol the depth is at most the number of functions plus one |
| Traversals.ReachabilityVisitor.TreeEdge | src/controlflowgraph/visitors/ReachabilityVisitor.cpp:65-72 | the edge is pushed |
| Traversals.ReachabilityVisitor.FinishVertex | src/controlflowgraph/visitors/ReachabilityVisitor.cpp:75-82 | the last edge is popped |
| Traversals.ControlFlowGraphTraversalDFS.SkipEdge | src/controlflowgraph/ControlFlowGraphTraversalDFS.cpp:294-367 | what is skipped, and that only a matching Return pops a frame, never the root |
| Traversals.ControlFlowGraphTraversalDFS.Traverse | src/controlflowgraph/ControlFlowGraphTraversalDFS.cpp:80-292 | the edges looked at are a possible sequence of looks, which ends at the sink, or with nothing left, or else is as long as the budget with an edge still to look at; not found means unreachable over followed edges, found means a connected witness; it ends on call-free graphs |
| Traversals.TravelInto | src/controlflowgraph/ControlFlowGraphTraversalDFS.cpp:200-262 | entering a white vertex is one look of that sequence and keeps what the search knows |
| Looks.CanLookForFewer | src/controlflowgraph/ControlFlowGraphTraversalDFS.cpp:138-291 | who can look at more edges can look at fewer |
| Looks.EndsInTime | src/controlflowgraph/ControlFlowGraphTraversalDFS.cpp:138-291 | where edges and calls go down in rank, and returns to a smaller rank than their call, a traversal ends after so many looks, in whatever order edges come |
| Looks.RecursionNeverEnds | src/controlflowgraph/ControlFlowGraphTraversalDFS.cpp:181-188 | from a function that calls itself a traversal may look at any number of edges |
| Finishing.NonRecursiveEnds | src/controlflowgraph/ControlFlowGraphTraversalDFS.cpp:138-291 | in a linked program without recursion and without a cycle of steps within functions, a traversal never uses up this budget |
| Finishing.ForwardHasNoCycle | src/controlflowgraph/ControlFlowGraphTraversalDFS.cpp:138-291 | where all statement lists only go forward there is no cycle of steps |
| Finishing.OneCallEnds | src/controlflowgraph/ControlFlowGraphTraversalDFS.cpp:138-291 | in every program `f: g();` with an empty `g` a traversal from `f` ends |
| Traversals.GoExhausted | src/controlflowgraph/ControlFlowGraphTraversalDFS.cpp:138-291 | with an empty stack the discovered vertices are closed under followed edges, whichever frame their colours went to |
| Traversals.GoFound | src/controlflowgraph/visitors/ReachabilityVisitor.cpp:54-72 | at the sink the predecessors are the seed edge and a walk of usable edges |
| Reachability.BackEdgesLoseNothing | src/controlflowgraph/ControlFlowGraphTraversalDFS.cpp:309-314 | over a whole program, skipping marked edges changes no reachability from an ENTRY |
| Reachability.ReturnsAddNothing | src/controlflowgraph/ControlFlowGraphTraversalDFS.cpp:316-345 | where returns match fallthroughs, following returns reaches nothing new |
| Reachability.WitnessEndsInCall | src/controlflowgraph/analysis/RuleReachability.cpp:93-104 | the last predecessor is a call edge out of a resolved call to the sink |
| Reachability.VerdictIsExact | src/controlflowgraph/analysis/RuleReachability.cpp:73-113 | the followed edges reach the sink exactly if all edges that enter calls or step over them do |
| Reachability.RuleReachability.RunRule | src/controlflowgraph/analysis/RuleReachability.cpp:73-113 | a violation is reported exactly if predecessors are left, what that means either way, and how the traversal got there |
| Executions.RunsIntoExactly | src/Function.cpp:145-165 | a run with a call stack gets into a function exactly if its ENTRY can be reached by ways on, entering calls, and stepping over those that can return |
| Executions.CanReturnExactly | src/Function.cpp:145-165 | a call of a function can come back exactly if its EXIT can be reached from its ENTRY by ways on and over calls that can come back |
| Executions.RunsIntoIfAllReturn | src/controlflowgraph/ControlFlowGraphTraversalDFS.cpp:316-345 | what a run gets into can be reached by stepping over any call, and the other way round if all that is called can return |
| Executions.StuckInCall | src/controlflowgraph/ControlFlowGraphTraversalDFS.cpp:316-345 | where stepping over calls reaches more than runs do, some run gets to a call that cannot return |
| Executions.CanBeReachedButNotRun | src/controlflowgraph/ControlFlowGraphTraversalDFS.cpp:316-345 | a program whose third function is reached from the first by stepping over a call, but by no run |
| ProgramRuns.GraphMeansLists | src/Function.cpp:97-166 | in the linked graph one ENTRY leads to another exactly if the statement lists do, by ways on, stepping over calls and entering them |
| ProgramRuns.WalkGets | src/Function.cpp:97-166 | whatever a walk from a place of the lists gets to is a place that the lists get to |
| ProgramRuns.GetsBehind | src/Function.cpp:97-166 | whatever the lists get to lies on the way from a vertex that the graph leads to |
| BodiesKept.BodiesJoin | src/TranslationUnit.cpp:309-330 | the graph still consists of the graphs of the functions and the linked calls when a new one joins |
| BodiesKept.BodiesLinked | src/Function.cpp:97-166 | and when a function is linked, whatever had been linked before |
| BodiesKept.ReplacedCalls | src/Function.cpp:109-142 | linking a function replaces exactly the calls of its list with a known name that were not replaced before |
| Analysis.Program.AddFunction | src/TranslationUnit.cpp:309-330 | the program stays sound, its code gains exactly this statement list, a later function takes over the name, and nothing is lost if the list hides nothing behind a stuck jump |
| Analysis.Program.Link | src/Program.cpp:95-101 | afterwards every call of the code that was not linked yet and whose name is known calls the function of that name, the others are as before; no resolvable call is left and the unresolved ones are reported |
| Analysis.Program.Check | src/controlflowgraph/analysis/Analyzer.cpp:52-71 | it finishes unless so many looks leave an edge to look at, and always without recursion and cycles of steps; then a violation exactly if the lists lead from the source to the sink by stepping over calls and entering them, so whenever a run gets there, and only then if all that is called can return; with a witness whose last edge leaves a call of the sink |
| Analysis.NeverBackLinked | src/Function.cpp:97-166 | linking the three lists of the example links exactly its two calls |
| Analysis.ReportedButNeverRun | src/controlflowgraph/analysis/RuleReachability.cpp:73-113 | for that program, which hides nothing, the right verdict is a violation, and no run shows it |
| Analysis.OneCallLinked | src/Function.cpp:97-166 | linking the lists of `f: g();` and an empty `g` links the call |
| Analysis.OneCallIsReported | src/controlflowgraph/analysis/RuleReachability.cpp:73-113 | for that program the check finishes with a violation, given a large enough budget |
| Kahn.TopologicalVisitKahn | src/controlflowgraph/algorithms/topological_visit_kahn.h:58-176 | where no default is below the number of permitted in-edges: each vertex at most once, after all sources of its permitted in-edges; beside the first exactly those whose in-edges all come from visited vertices and whose default is their number; what is left in the map |
| Kahn.TakeOutEdges | src/controlflowgraph/algorithms/topological_visit_kahn.h:105-170 | all permitted out-edges are taken and exactly the completed targets pushed |
| Kahn.VisitsAllExactly | src/controlflowgraph/algorithms/topological_visit_kahn.h:82-175 | all that is reachable is visited if and only if it has no cycle, no way in from elsewhere and no default above the number of in-edges; then the map is empty again |
| Kahn.CountsMore | src/controlflowgraph/SparsePropertyMap.h:87-122 | the lazily filled, self-resetting map counts right after every edge |
| FunctionCfg.FilterWithoutMemory | src/controlflowgraph/visitors/FunctionCFGVisitor.cpp:187-260 | without calls the filter permits exactly unmarked edges that are no self edges, whatever the call stack |
| FunctionCfg.CallTakesOneWay | src/controlflowgraph/visitors/FunctionCFGVisitor.cpp:246-260 | out of a resolved call the call edge is taken unless that would be recursion, and the fallthrough edge exactly then |
| FunctionCfg.ReturnTakenByItsFrame | src/controlflowgraph/visitors/FunctionCFGVisitor.cpp:216-241 | a return is taken exactly by the frame that its call pushed |
| FunctionCfg.WaitsForWhatIsTaken | src/Function.cpp:556-572 | the in-degree functor agrees with the filter exactly where no self edge is unmarked |
| FunctionCfg.VisitCanStart | src/Function.cpp:564-572 | the visit of a new graph can start at ENTRY, and its defaults are never below the number of edges that can be taken |
| FunctionCfg.UnmarkedCycles | src/Function.cpp:556-572 | no reachable vertex asks for more edges than can be taken and these have no cycle, exactly if the unmarked edges have no cycle, self edges included |
| FunctionCfg.PrintsAllExactly | src/Function.cpp:561-573 | printing a new function without calls visits all that is reachable if and only if the edges without a mark have no cycle there and none comes in from elsewhere |
| FunctionCfg.PrintControlFlowGraph | src/Function.cpp:561-573 | the visit with the functor as default visits only what is reachable, and all of it exactly if the unmarked edges have no cycle there and none comes in from elsewhere |
| FunctionCfg.LoopNeverPrinted | src/Function.cpp:561-573 | for every graph of the list `L: goto L` the label can be reached and is never visited |
| DotFiles.WriteGraphvizDotFileVisitor.Notify | src/controlflowgraph/visitors/WriteGraphvizDotFileVisitor.cpp:77-131 | one line per discovered vertex and per classified edge |
| DotFiles.PrintControlFlowGraphDot | src/controlflowgraph/visitors/WriteGraphvizDotFileVisitor.cpp:60-131 | each drawable reachable vertex is declared once, each drawable edge between them drawn once, both ends declared |
| Drawings.NewDrawing | src/controlflowgraph/visitors/WriteGraphvizDotFileVisitor.cpp:60-131 | the file of a new function declares exactly the vertices that ENTRY reaches and draws exactly the edges out of those but the two self edges |
| Drawings.LinkedDrawing | src/controlflowgraph/visitors/WriteGraphvizDotFileVisitor.cpp:60-131 | the file of a linked function declares the same vertices, replaced ones replaced, and draws the same edges: no calls, no returns, no self edges of the ends |
| Drawings.OnlyExitSelf | src/Function.cpp:762-774 | only its self edge leaves EXIT in a created graph |
| Drawings.DrawNew | src/Function.cpp:576-595 | drawing a new function gives such a file |
| Drawings.DrawLinked | src/Function.cpp:576-595 | drawing a linked function gives such a file |

## Left out

- Traversals.ControlFlowGraphTraversalDFS.Traverse: has a budget that the original does not have, because the original need not terminate on recursive programs (its recursion guard is disabled); when the budget ran out, the edges looked at are a possible sequence of exactly as many looks with an edge still to look at, and the other theorems hold for every budget.
- Entries.MarksLoseNothingHere: one direction only; whether code that is hidden behind a jump where runs get stuck makes the marks lose code also depends on the order in which sets are walked, so no condition on the list alone is both necessary and sufficient.
- BackEdges.BackEdgeFixupVisitor.FindDifferentOutEdge: says that there is no other out-edge where the original dereferences an end iterator.
- InDegrees.FilteredInDegree: gives bounds, not a value, where calls and other edges meet at one vertex, because the original's result depends on the set order there.
- FunctionCfg.FilterWithoutMemory: the topological visit is modelled with a filter without memory, which the printing visitor's filter is on functions without resolved calls; printing across calls pops the root frame in the original and is not modelled.
- Kahn.TopologicalVisitKahn: the visitor only filters edges; one that cuts off a branch at a vertex is not modelled, nor are the completion events with the number of pushed vertices.
- BackEdges.BackEdgeFixupVisitor.FindForwardTargetForBackEdge: a decision vertex with a single out-edge makes the original dereference an end iterator; here there is no forward target then.
- ControlFlowGraphs.CreateControlFlowGraph: takes distinct statements without edges, as the parser makes them; on a repeated statement the original throws duplicate_add, which `Graphs.Graph.AddVertex` models.
- CallStacks.DFSCallStack.PopCallStack: requires a frame that a call pushed, because the original dereferences the pushing call.
- Analysis.Program.AddFunction: takes statement lists without resolved calls, which only linking makes, of statements that are not part of the program yet.
- Cycles.FinalAcyclicExactly: is about the finished graph without its proxy edges, since the code does not guarantee acyclicity with them.
- Drawings.NewDrawing: is about statement lists without ENTRY and EXIT statements, which are made for each function and never parsed.
- Finishing.NonRecursiveEnds: one direction only; on programs with recursion, or with an unmarked cycle within a function, whether a traversal ends depends on the colours of many frames.
- Analysis.Program.Check: is given the value of the graph that the program's state holds, instead of following its edge lists.
- Traversals and searches read the graph as a value, because they do not change it; construction, marking, contraction and linking work on the heap objects.
- Boost's depth-first search is not part of the repository; it is modelled as the repository's own three-colour search, and its visitor sees the events in order afterwards.
- The cancelling return values of `improved_depth_first_visit` (terminate_branch at a vertex, colour contexts), which no visitor that is modelled returns.
- Compilers, parsing, command lines, text layout of the printed graph, call-chain printing, DOT attributes, HTML and JavaScript.
- Memory ownership beyond "no edge mentions a deleted vertex", the owning function of a vertex, locations and logging.
- Wrap-around of vertex indices and edge counts.
- EXIT post-dominating everything, which the code does not guarantee.
- Merge node insertion and all code that is switched off.
