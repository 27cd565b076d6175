# Pearl: verified models of its core algorithms

Pearl is a coding agent. It turns a request into a plan of tool calls, orders and
validates the plan, runs it under iteration, replan and retry budgets, stages file
edits and shell commands until the user approves them, and shows the result in a
browser. This project models the parts of Pearl where a mistake is easy to make and
hard to see, and proves what they promise for all inputs and all runs.

`dafny verify dfyconfig.toml` checks everything.

| file | what it models |
|---|---|
| `Collections.dfy`, `Strings.dfy`, `Reachability.dfy` | shared vocabulary: optional values, sorted sets, string tests, paths in a graph |
| `Tarjan.dfy`, `RepositoryGraph.dfy` | the repository graph: mirrored adjacency maps, circular imports, reachability, shortest paths, impact |
| `Plan.dfy`, `DependencyGraph.dfy`, `PlanValidator.dfy` | ordering a plan with Kahn's algorithm and validating it |
| `EditTools.dfy`, `HunkParser.dfy`, `FileLines.dfy` | unified diffs: parsing, applying, undoing; splitting a file into lines and rebuilding it |
| `ChangeManager.dfy`, `CommandApproval.dfy` | staged file edits and staged commands |
| `History.dfy`, `Executor.dfy`, `Handoff.dfy` | the executor: budgets, pause, approve, reject, replan, and the hand-off of the paused state between threads |
| `Sse.dfy`, `BalancedJson.dfy` | server-sent events, printed and read incrementally; finding a JSON object in model output |
| `Gitignore.dfy`, `Scanner.dfy` | gitignore patterns compiled to regular expressions, stacked rules, the pruned walk |
| `Highlighter.dfy` | syntax highlighting of a code block |
| `ContextBudget.dfy` | token budgets of prompts and model calls |

Answers of parts that are not modelled (planner, tools, command runner, verifier,
reflection engine, other threads) are arbitrary values: `:= *` in `Executor.dfy`, a
function parameter such as `parse` or `suffix` elsewhere. A tool in preview mode only
stages; outside it, it writes at once. That is so of the tools that edit files, run
commands or change a repository; what is said about the disk assumes it of all others
too. What happens to the outside world is recorded
in a ghost log, so that "nothing was done" and "exactly this batch was done" can be
said about whole runs, and what tools and planner answer in a ghost trace, so that a
report can be required to be exactly what those answers make of the state before.

## What turned out to be false

The code is modelled as it is. Where it falls short of what it or its documentation
says, the exact condition under which it does not is proved for all inputs, and a
concrete input shows the failure.

- Steps of the same depth do not keep their original order, as the wording of
  `src/agent/dependency_graph.py:8-10` suggests: `SameDepthCanSwap`. They do iff the plan
  meets `SameDepthKeepsOrderIff`; steps without dependencies always do.
- `RepositoryGraph` does not check the ends of an edge it adds. Arbitrary edges can make
  files depend on each other that share no circular import group
  (`DanglingImportHidesCycle`, and `CyclesAreMutualDependencies` for exactly when); the
  edges that `build` adds cannot (`Build`).
- A hunk of pure additions is inserted one line early, or before the last line for
  start 0, except in the cases named by `InsertionPointIsConventional`.
- Rewriting a file with mixed line endings, or with lone carriage returns, changes lines
  nobody edited: `RoundTripIff`, `MixedEndingsAreRewritten`.
- Editing a file without a final newline so that its last line is empty loses that line,
  even one outside the edited range: `EditedFileReadsBackIff`, `BlankLineLost`.
- `dominant_newline` says CRLF must outnumber LF; equally many are enough
  (`src/tools/file_io.py:52-61`): `AsDocumentedIff`, `TiedEndings`.
- A failed batch of edits is not always rolled back completely: `RollbackExact`, and
  `HalfWrittenFileStays` for one edit.
- A plan that cannot be made counts as a replan even when none is allowed, which is the
  only way to exceed that budget: `Run`, `PlanningFailureOverspends`.
- Commands are left staged without a pause, out of reach of approve and reject, exactly
  when one of them failed and an exception, from the runner or after it from the verifier,
  escaped `approve`: `Approve`, `SessionGated`.
- Approving runs commands again that had succeeded: after one that exits with an error the
  whole batch stays staged, and the resumed run, unless cancelled, pauses for it once more
  (`HeldUp`). `RunAgainIff` says when a command is run again, `RunsTwice` is the input.
- A step that fails for good is not reported when something is staged: the run pauses,
  goes on behind that step when approved, and may report completion. It is reported iff
  nothing is staged: `FailureReportedIff`, with `FailureHidden` for the input.
- A plan given to `run` is validated but not sorted (`src/agent/executor.py:730-731`), and
  may run a step before the one it depends on: `GivenPlanInOrderIff`, `GivenPlanOutOfOrder`.
- A step's placeholder is filled with the output of another step's command when a tool
  stages a command without returning a placeholder, as git tools do:
  `OwnOutputIff`, `GitOutputMisplaced`.
- `context_token_allowance` of zero switches truncation off: `PlanningPromptFits`,
  `NoAllowanceNoTruncation`. The context engine can exceed its window
  (`src/agent/context_engine.py:135` says never): `FitsIff` gives the condition,
  `OversizedMessage` the input.
- The highlighter never returns for code with a dollar sign outside comments and
  strings: `ForeverIffBareDollar`, and `DollarNeverEnds` for the shortest such code.
- `src/repository/scanner.py:322-323` says oversized files are listed without a hash;
  none of them is in the scan's result: `OversizedLeftOut`, with `Scan`.

## Model

| member | source | states |
|---|---|---|
| RepositoryGraph.Graph.AddNode | src/repository/graph.py:496-499 | adding a node keeps the out-lists, the in-lists and the edge set describing one relation without duplicates; edges are untouched |
| RepositoryGraph.Graph.AddEdge | src/repository/graph.py:501-507 | a known edge changes nothing, a new one is appended to exactly its source's out-list and its target's in-list; the three descriptions stay in step |
| RepositoryGraph.AppendLists | src/repository/graph.py:501-507 | appending a new edge to the one list it belongs to keeps every list holding exactly one edge per key |
| RepositoryGraph.AppendMirrored | src/repository/graph.py:501-507 | the out-map and the in-map go on mirroring each other |
| RepositoryGraph.Graph.ImportTargetsExact | src/repository/graph.py:616-621 | the neighbours the search follows are exactly the import targets that are nodes |
| RepositoryGraph.Graph.DetectCycles | src/repository/graph.py:591-674 | terminates and returns exactly the strongly connected components of more than one node that the files reach: two distinct nodes share a group iff each reaches the other; groups are sorted and disjoint |
| RepositoryGraph.Graph.SearchFrom | src/repository/graph.py:623-672 | the work-stack loop for one undiscovered file keeps Tarjan's invariant and the groups found so far, and ends with an empty stack |
| RepositoryGraph.Graph.LeaveNode | src/repository/graph.py:655-672 | leaving a finished node hands its lowlink on or takes its component off the stack as a group, and keeps the search and the groups exact |
| RepositoryGraph.PopComponent | src/repository/graph.py:663-670 | popping down to the root takes exactly the component off the stack |
| Tarjan.PushKeeps | src/repository/graph.py:627-652 | discovering a node keeps the invariant: shape, frontier, reachability in both directions, lowlinks sound and complete |
| Tarjan.StepOverKeeps | src/repository/graph.py:637-654 | stepping over an edge to a discovered node, lowering the lowlink only for a stacked one, keeps the invariant |
| Tarjan.PopKeeps | src/repository/graph.py:655-660 | leaving a node that is no root hands its lowlink to its parent and keeps the invariant |
| Tarjan.ComponentIsExact | src/repository/graph.py:662-672 | what lies above a finished root on the component stack is the strongly connected component of each of its nodes |
| Tarjan.CloseKeeps | src/repository/graph.py:662-672 | taking a component off the stack keeps the invariant |
| Tarjan.GroupsClose | src/repository/graph.py:671-672 | a closed component becomes a new group if it has more than one node, and the groups stay exact for all finished nodes |
| Tarjan.GroupsComplete | src/repository/graph.py:623-674 | when the search is over the groups are exactly the components with more than one node |
| RepositoryGraph.Graph.TransitiveDependencies | src/repository/graph.py:729-757 | returns, sorted, exactly the files the given one reaches through imports |
| RepositoryGraph.Graph.TransitiveDependents | src/repository/graph.py:759-787 | returns, sorted, exactly the files that reach the given one through imports |
| RepositoryGraph.SweepDone | src/repository/graph.py:729-787 | a breadth-first search with an empty queue has visited exactly what is reachable |
| RepositoryGraph.DependencyDuality | src/repository/graph.py:729-787 | a is among b's dependencies iff b is among a's dependents |
| RepositoryGraph.CyclesAreMutualDependencies | src/repository/graph.py:591-787 | sharing a circular import group implies mutual dependency; the two are the same for all files iff no cycle of imports through a file leads over something that is not a node |
| RepositoryGraph.LeavesMayDangle | src/repository/graph.py:616-621 | it is enough that nothing outside the nodes both is imported and imports |
| RepositoryGraph.DanglingImportHidesCycle | src/repository/graph.py:501-507 | edges added one by one, with no check of their ends, may form a cycle over something that is not a node: a concrete graph |
| RepositoryGraph.AddImports | src/repository/graph.py:364-435 | of the imports of an index exactly those that lead to another node become edges |
| RepositoryGraph.Build | src/repository/graph.py:289-437 | in a graph built from an index every import leads to a node, so two files share a circular import group iff they depend on each other |
| RepositoryGraph.Graph.ShortestPath | src/repository/graph.py:676-727 | returns a path of minimum length over edges of the requested kind, None iff there is none or an end is unknown |
| RepositoryGraph.LevelsNext | src/repository/graph.py:676-727 | when the shorter paths are used up, everything one step further has been visited: why stopping at discovery is safe |
| RepositoryGraph.ExtendedIsShortest | src/repository/graph.py:712-727 | a path extended to an undiscovered node is a shortest one |
| RepositoryGraph.Graph.Impact | src/repository/graph.py:789-838 | importers, transitive dependents, the number of symbols they define, and the risk band |
| RepositoryGraph.CountDefinesKeys | src/repository/graph.py:789-838 | counting edges counts distinct definitions |
| Reachability.ReachTransitive | src/repository/graph.py:729-787 | reachability composes |
| Reachability.ReverseReach | src/repository/graph.py:759-787 | reachability along reversed edges is reachability backwards |
| DependencyGraph.TopologicalSort | src/agent/dependency_graph.py:37-135 | fails iff the resolved dependencies have a cycle, self-loops and repeats included; otherwise returns the steps in Kahn order, fast path included |
| DependencyGraph.KahnOrderUnique | src/agent/dependency_graph.py:105-125 | the order by release time, then original position, is unique: the result does not depend on how it is computed |
| DependencyGraph.FastPathIsKahn | src/agent/dependency_graph.py:61-63 | without dependencies the original order is what the general path would return |
| DependencyGraph.BuildEdges | src/agent/dependency_graph.py:75-103 | in-degrees count, and successor lists mirror, the resolved dependencies; unknown references are dropped |
| DependencyGraph.ReleaseSuccessors | src/agent/dependency_graph.py:115-125 | counts a step as run and returns, in ascending position, exactly the steps that became ready through it |
| DependencyGraph.RunOne | src/agent/dependency_graph.py:111-125 | one turn of the queue keeps run and queued steps in Kahn order and exactly those with nothing pending |
| DependencyGraph.Drained | src/agent/dependency_graph.py:127-135 | with an empty queue either all steps have run in Kahn order or the rest contain a cycle |
| DependencyGraph.KahnOrderHasNoCycle | src/agent/dependency_graph.py:127-135 | an order exists only without a cycle |
| DependencyGraph.StuckHasCycle | src/agent/dependency_graph.py:127-135 | steps that all wait for one another contain a cycle |
| DependencyGraph.DepthIsLongestChain | src/agent/dependency_graph.py:1-12 | depth bounds every chain of dependencies |
| DependencyGraph.DepthIsReached | src/agent/dependency_graph.py:1-12 | and some chain is that long |
| DependencyGraph.DepthNonDecreasing | src/agent/dependency_graph.py:105-125 | the order never goes back to a smaller depth |
| DependencyGraph.OrderedHasDepth | src/agent/dependency_graph.py:1-12 | every plan that can be ordered has depths |
| DependencyGraph.OriginalOrderKept | src/agent/dependency_graph.py:105-125 | of two steps the one listed first runs first iff its last dependency runs no later than the other's |
| DependencyGraph.SameDepthKeepsOrderIff | src/agent/dependency_graph.py:8-10 | steps of equal depth keep their original order iff, for any two of them, the last listed of the first one's deepest dependencies is listed no later than that of the second: a condition on the plan alone |
| DependencyGraph.FreeStepsKeepOrder | src/agent/dependency_graph.py:8-10 | steps without dependencies always keep it |
| DependencyGraph.SameDepthCanSwap | src/agent/dependency_graph.py:8-10 | a plan whose steps of equal depth change places |
| DependencyGraph.SortedStaysSorted | src/agent/planner.py:195-197 | sorting a sorted plan with distinct ids is the identity |
| PlanValidator.ValidateDependencies | src/agent/plan_validator.py:232-288 | accepts iff ids are distinct, every reference resolves to another step, and there is no cycle |
| PlanValidator.ValidatePlan | src/agent/plan_validator.py:122-229 | accepts iff the plan has 1 to 25 steps, stays within scope, uses known extensions, reads before it writes, writes no path twice and has good dependencies |
| PlanValidator.WriteErrors | src/agent/plan_validator.py:203-220 | reports no error iff no path is written twice |
| PlanValidator.AcceptedPlanRunsInOrder | src/agent/planner.py:195-199 | in a plan sorted and then accepted, every name in depends_on is the id of an earlier step, and the validator's own sort is the identity |
| PlanValidator.GivenPlanInOrderIff | src/agent/executor.py:728-731 | a plan given to `run` is accepted as it is: every step comes after the steps it names iff the dependency check accepts each beginning of the plan |
| PlanValidator.GivenPlanOutOfOrder | src/agent/executor.py:728-731 | a concrete plan that is accepted and runs a step before the one it depends on |
| EditTools.Sides | src/tools/edit_tools.py:162-176 | splits a hunk into what it expects and what it leaves, or reports its first invalid line |
| EditTools.ApplyHunks | src/tools/edit_tools.py:150-189 | applies hunks in place with a running offset, Python slicing included, and reports the first failure |
| EditTools.AppliesIffFits | src/tools/edit_tools.py:150-189 | ordered hunks with non-empty old sides apply iff every old side is in the original at its own position, and then equal replacing them all at once |
| EditTools.RunSplices | src/tools/edit_tools.py:178-187 | the loop's state: done so far, the rest of the original in place, the offset their difference |
| EditTools.OutsideUntouched | src/tools/edit_tools.py:178-187 | a line outside every hunk is still there, moved by the hunks before it |
| EditTools.FlipSides | src/tools/edit_tools.py:162-176 | swapping additions and removals swaps the two sides |
| EditTools.PatchUndone | src/tools/edit_tools.py:150-189 | applying the reversed hunks at shifted starts gives the original back |
| EditTools.InsertionAlwaysApplies | src/tools/edit_tools.py:178-186 | a hunk of additions always applies, whatever moved before it, at the slice position Python computes |
| EditTools.InsertionPointIsConventional | src/tools/edit_tools.py:178-187 | behind any hunks in order that fit, that position is the one the unified format names, moved by those hunks, iff the start is past the end of the file, or nothing is left before it and at most one line behind |
| EditTools.InsertAtTopGoesBeforeLastLine | src/tools/edit_tools.py:178-186 | a concrete hunk with start 0 that lands before the last line |
| HunkParser.ParseHunks | src/tools/edit_tools.py:113-147 | reads a diff line by line into hunks, None when there is none |
| HunkParser.HeaderRead | src/tools/edit_tools.py:113-135 | a printed hunk header is read back, whatever its counts and heading |
| HunkParser.PrintedHunksParse | src/tools/edit_tools.py:113-147 | printing hunks and parsing the diff gives the hunks back, file headers before the first and missing-newline markers ignored |
| FileLines.RebuildIff | src/tools/edit_tools.py:58-97 | splitting a text and rebuilding it with one newline gives it back iff it uses no other |
| FileLines.RoundTripIff | src/tools/edit_tools.py:58-97 | rebuilding with the dominant newline is exact iff the file uses only LF or only CRLF |
| FileLines.MixedEndingsAreRewritten | src/tools/edit_tools.py:58-97 | a file with one LF and one CRLF, rebuilt from its lines, is not the same file |
| FileLines.AsDocumentedIff | src/tools/file_io.py:49-64 | the newline taken is the documented one iff the text has no CRLF or not as many of them as of other line feeds |
| FileLines.TiedEndings | src/tools/file_io.py:49-64 | a file with as many of one as of the other is taken for CRLF, against the documentation |
| FileLines.EditLines | src/tools/edit_tools.py:321-374 | refuses exactly the ranges outside the file, otherwise replaces exactly the lines of the range |
| FileLines.SplitOfWritten | src/tools/edit_tools.py:82-97 | writing lines with a final newline and reading them back gives the lines |
| FileLines.SplitOfOpenIff | src/tools/edit_tools.py:82-97 | written without a final newline, lines are read back iff the last of them is not empty |
| FileLines.EditedFileReadsBackIff | src/tools/edit_tools.py:321-374 | the next reader sees the lines before and after the range as they were and the new ones between iff the file ended in a newline or the last line left is not empty |
| FileLines.BlankLineLost | src/tools/edit_tools.py:321-374 | a concrete edit of a file without a final newline that loses a blank line outside its range |
| ChangeManager.Manager.Propose | src/tools/patch_manager.py:113-159 | staging appends to the batch and does nothing else |
| ChangeManager.Manager.StalePaths | src/tools/patch_manager.py:219-247 | exactly the staged paths whose file is not what some edit was computed against, earlier edits of the batch taken into account |
| ChangeManager.Manager.ApplyAll | src/tools/patch_manager.py:249-316 | carries out the whole batch and clears it, or raises and keeps it: nothing is written for a stale batch, a failed write is rolled back |
| ChangeManager.Manager.Rollback | src/tools/patch_manager.py:298-312 | restores the snapshot of every path already written |
| ChangeManager.ReplayDecidedByLast | src/tools/patch_manager.py:286-297 | after a batch each path holds what its last edit says, all other paths are untouched |
| ChangeManager.UpToDateIff | src/tools/patch_manager.py:219-247 | a batch is up to date iff no path is stale |
| ChangeManager.RolledBackIs | src/tools/patch_manager.py:298-312 | what the disk holds after a rollback |
| ChangeManager.RollbackExact | src/tools/patch_manager.py:249-316 | a failed batch leaves the disk as it was iff the failed write left its own file alone or that file had been written earlier in the batch |
| ChangeManager.HalfWrittenFileStays | src/tools/patch_manager.py:298-312 | one edit whose write fails halfway leaves the disk changed |
| ChangeManager.Manager.DiscardAll | src/tools/patch_manager.py:329-340 | empties the batch and names what was in it |
| CommandApproval.CommandManager.Propose | src/tools/command_approval.py:68-76 | staging appends to the batch and runs nothing |
| CommandApproval.CommandManager.ApproveAll | src/tools/command_approval.py:102-120 | runs the batch in order, returns each output and clears the batch; if a command raises, the later ones do not run and the whole batch stays staged; the record says which command printed what and which failed how |
| CommandApproval.CommandManager.DiscardAll | src/tools/command_approval.py:122-132 | empties the batch and names what was in it |
| History.CompletedAppend | src/agent/executor.py:1632-1648 | recording a step extends the planner's history by exactly that step if it succeeded with a tool |
| History.BackfillSteps | src/agent/executor.py:848-859 | the pass over the recorded steps |
| History.BackfillEntries | src/agent/executor.py:861-872 | the pass over the planner's history |
| History.FilledByRank | src/agent/executor.py:844-872 | the k-th placeholder receives the k-th command's output, nothing else changes |
| History.OwnOutputIff | src/agent/executor.py:844-872 | every placeholder receives the output of the command its own step staged iff no other step before a placeholder staged one |
| History.GitOutputMisplaced | src/tools/git_tools.py:77-119 | a git step stages a command without returning a placeholder, so the shell step after it receives the git command's output: a concrete history |
| History.OwnOutput | src/agent/executor.py:844-859 | where the k-th placeholder tells of the k-th staged command, each step receives the output of the command it tells of |
| History.PassesAgree | src/agent/executor.py:844-872 | the two separate passes give every step and its history entry the same result |
| Executor.AutonomousExecutor.Execute | src/agent/executor.py:1227-1694 | one leg terminates; its report, and the whole state it is resumed from if it pauses, are exactly what the answers of tools and planner, and what was staged, make of the state it started from; what waits then is what waited before and what its calls staged, in order; it changes nothing outside, keeps steps, replans and dispatches within budget, lets no action fail a third time, and pauses exactly when something is staged |
| Executor.AutonomousExecutor.CallTool | src/agent/executor.py:1351-1648 | a call that returns is recorded with its result, a transient failure is retried while retries last, any other is recorded and needs a new plan |
| Executor.AutonomousExecutor.PlanAgain | src/agent/executor.py:1446-1621 | after a failure the leg goes on only with a new plan, asked for only if the action has not failed twice and replans are left |
| Executor.PlaysOn | src/agent/executor.py:1227-1694 | one more answer takes the explained state one move further |
| Executor.CallFailed | src/agent/executor.py:1396-1444 | recording a failure keeps the leg on track and counts the failed action |
| Executor.MoreLegs | src/agent/executor.py:1000-1062 | a leg that ended by itself, the planner's answer to what reflection found missing, and the legs that follow from that answer explain one report |
| Executor.PlanningFailureOverspends | src/agent/executor.py:737-758 | with no replans allowed, a run whose planning fails reports exactly one |
| Executor.PairsAfterCall | src/tools/shell_tools.py:586-593 | a call of a tool that returns a placeholder for the one command it stages, or stages none, keeps placeholders and staged commands paired |
| Executor.PairsThroughApproval | src/agent/executor.py:840-954 | they are still paired at the next pause, whether the batch ran through or failed and stayed staged |
| Executor.OwnOutputRecorded | src/agent/executor.py:844-859 | when the batch has run through, a step that staged a command holds what the record says that very command printed |
| Executor.RetryKeeps | src/agent/executor.py:1358-1394 | a retry is paid for by the retry budget of the step at the front |
| Executor.RecordKeeps | src/agent/executor.py:1409-1648 | recording a step keeps history, failure counts and the dispatch bound |
| Executor.ReplanKeeps | src/agent/executor.py:1551-1621 | a replan uses one unit of its budget and nothing else |
| Executor.LegStops | src/agent/executor.py:1227-1694 | what every way of leaving the loop guarantees, the pause state included |
| Executor.AutonomousExecutor.CheckAwaitingApproval | src/agent/executor.py:458-519 | pauses, with all that is needed to resume, iff something is staged |
| Executor.AutonomousExecutor.FinishOrPause | src/agent/executor.py:1000-1062 | through any number of reflections, leg by leg, the report and the pause are exactly what the answers make of the state the first leg started from; at a pause everything its calls staged waits, otherwise nothing; reflections, replans and history stay within bounds |
| Executor.AutonomousExecutor.ReplanFromReflection | src/agent/executor.py:1064-1133 | asks once; iff the answer is a plan with steps, that plan runs as another leg from the report's steps and history, with one more replan used, and the leg is what the answers after it make of it |
| Executor.AutonomousExecutor.Run | src/agent/executor.py:627-766 | changes nothing outside; refuses iff paused; the report and the pause come from being cancelled first, from the opening plan failing, or from that plan and the answers, through every leg; at a pause waits what waited before and what the calls staged; the replan budget is exceeded iff planning fails when it is empty; at most the iteration budget of steps and max_iterations * (max_retries + 1) tool dispatches |
| Executor.AutonomousExecutor.Approve | src/agent/executor.py:768-954 | refuses a stale batch and keeps everything; a failed write restores the pause; cancelled while paused, drops everything; otherwise carries out exactly the batch staged at the pause, whose outcome fills the history: its edits are gone, its commands too unless one failed, and a new pause holds what is left and what was staged since; the report is what that state and the answers make of it through every leg; what escapes when, and exactly when commands are left staged without a pause |
| Executor.AutonomousExecutor.CarryOut | src/agent/executor.py:807-954 | the part of it after the checks: the batch, the output and the resumed run, or the pause again if a write fails |
| Executor.HeldUp | src/agent/executor.py:458-519 | with something staged from before, a run ends in a pause unless it is cancelled |
| Executor.FailureReportedIff | src/agent/executor.py:1484-1549 | a leg whose step fails for good reports the error iff nothing is staged; otherwise it pauses, to go on behind the failed step |
| Executor.FailureHidden | src/agent/executor.py:1484-1549 | a concrete plan whose last step fails for good, and whose run, once approved, reports completion |
| Executor.NothingLeftCompletes | src/agent/executor.py:1227-1694 | a run resumed with no steps left reports completion and nothing else |
| Executor.PlaysUnique | src/agent/executor.py:1227-1694 | the answers leave no choice: at most one state follows from them |
| Executor.AutonomousExecutor.Resume | src/agent/executor.py:844-954 | after the batch: the report is what the paused state with these outputs filled in, and the answers, make of it; nothing more is done outside |
| Executor.AutonomousExecutor.VerifyApplied | src/agent/executor.py:874-939 | after verification the paused plan stays, or is replaced by the planner's answer at the price of one replan within the budget |
| Executor.AutonomousExecutor.Continue | src/agent/executor.py:941-954 | executing a plan and finishing or pausing: the report and the pause are explained leg by leg, and what waits is what waited before and what the calls staged |
| Executor.AutonomousExecutor.Reject | src/agent/executor.py:956-998 | drops everything staged, reports the paused steps, touches nothing outside |
| Executor.AutonomousExecutor.FinalizeCancelledWhilePaused | src/agent/executor.py:521-559 | a cancellation noticed on approve or reject leaves nothing staged |
| Executor.AutonomousExecutor.Perform | src/agent/executor.py:627-998 | one public call: what it answers, and what it does to the pause, to what waits for approval, to the record of what was done outside and to the files; only approve touches the last two |
| Executor.AutonomousExecutor.Session | src/agent/executor.py:627-998 | for any sequence of public calls and outside changes, the history of what was paused, staged, done and on disk between calls, each step as `Perform` says |
| Executor.PauseStands | src/agent/executor.py:141-192 | from the call that set a pause until it is used up, the pause and its batch stay as they were then |
| Executor.WaitingIsLatest | src/agent/executor.py:768-842 | what waits for approval is always the latest of what the tool calls have staged: nothing else gets there, nothing in between is lost |
| Executor.GoneLater | src/agent/executor.py:768-842 | of what was staged by some time, either nothing has left the waiting list since then or all of it has |
| Executor.EachPauseOnce | src/agent/executor.py:768-842 | once a pause's batch has been carried out, whatever waits later was paused for after it, and all edits that wait were staged after it |
| Executor.RunAgainIff | src/agent/executor.py:834-842 | a command that exited normally is run again by a later approval iff its batch failed, no call cleared it in between, and that approval gets as far |
| Executor.StillWaitingIff | src/agent/executor.py:834-842 | commands go on waiting until a call drops everything or carries all of them out |
| Executor.RunsTwice | src/agent/executor.py:834-842 | "a" exits normally and "b" with an error: approving the next pause runs "a" a second time |
| Executor.SessionDoesApproved | src/agent/executor.py:768-842 | all that a session ever does outside is the batches as they were staged when the approved pauses were set, in that order |
| Executor.SessionWritesApproved | src/agent/executor.py:768-842 | without commands, changes by the user and failing writes, the files are what the approved edits make of them |
| Executor.SessionGated | src/agent/executor.py:627-998 | paused iff something is staged, as long as no approval that escaped has left commands behind |
| Executor.OneMoreCarried | src/agent/executor.py:768-842 | one more approved batch extends the record of a session |
| Handoff.StepKeepsSafe | src/agent/executor.py:141-192 | every step of every thread keeps the lock discipline of the paused state |
| Handoff.EachPauseTakenOnce | src/agent/executor.py:169-186 | under any interleaving each pause is handed out at most once, and only pauses that were stored |
| Handoff.RaceWithoutLock | src/agent/executor.py:173-186 | without the lock two callers can take the same pause: a concrete run |
| Sse.FramesLossless | pearl_ui/js/api.js:34-35 | the frames, their blank lines and what is left make up the text again, and none of them holds a blank line |
| Sse.FramesIncremental | pearl_ui/js/api.js:33-35 | splitting what has arrived, carrying over the rest and splitting that with what comes next gives the frames of the whole stream |
| Sse.ParseFrame | pearl_ui/js/api.js:36-47 | reads event and data from a frame's lines, the last of each winning; nothing for a blank frame, without data, or for data that does not parse |
| Sse.ParseStream | pearl_ui/js/api.js:26-50 | yields exactly the events of the frames of the concatenated chunks, however they are cut |
| Sse.FrameOfPrinted | src/api/server.py:925-926 | a printed frame ends at its own blank line, whatever follows |
| Sse.BodyRead | src/api/server.py:925-926 | a printed body is read back as its event, the name stripped of surrounding space |
| Sse.StreamRoundTrip | pearl_ui/js/api.js:26-50 | for any events with one-line names and payloads and any cutting into chunks, exactly those events come out in order |
| BalancedJson.FindBalancedObject | src/llm/client.py:318-359 | returns the shortest slice from the first brace whose braces outside string literals balance, None iff there is none |
| BalancedJson.ScanCountsOutside | src/llm/client.py:334-357 | the scan's depth is the brace balance of what lies outside literals |
| BalancedJson.ObjectIsShortest | src/llm/client.py:318-359 | an object written as RFC 8259 sections 2 to 7 allow is balanced, and no proper beginning of it is |
| BalancedJson.PrintedObjectFound | src/llm/client.py:318-359 | after any text without an opening brace and before any other, exactly the printed object is returned |
| Gitignore.CompileGlob | src/repository/scanner.py:221-246 | the fragments appended from left to right are those of the line's tokens |
| Gitignore.GlobMeans | src/repository/scanner.py:221-248 | the joined fragments match a stretch of the path iff the glob tokens match it, newlines in names included |
| Gitignore.CompiledMeans | src/repository/scanner.py:250-255 | the regex search succeeds iff the glob matches whole components in a row, from the first when anchored |
| Gitignore.SelectsBelow | src/repository/scanner.py:250-255 | a rule that selects a directory whose name does not end in a newline selects everything below it |
| Gitignore.SelectsOneName | src/repository/scanner.py:194-198 | a pattern without slashes and `**` selects a path iff it matches one of its components, a final newline of the path aside |
| Gitignore.CompilePattern | src/repository/scanner.py:177-261 | compiles what the line means: comments and blanks skipped, negation, directory-only, anchoring |
| Gitignore.WrittenRuleParsed | src/repository/scanner.py:177-220 | a rule written with its marks, and blanks around it, is read back as that rule |
| Gitignore.CompileRules | src/repository/scanner.py:134-140 | the compiled rules of a file are those of its lines, in order |
| Gitignore.IsIgnored | src/repository/scanner.py:145-174 | the last rule that applies decides, no decision without one or outside the base directory |
| Gitignore.LastWinsConcat | src/repository/scanner.py:523-541 | deciding file by file, later decisions replacing earlier ones, is deciding on the concatenated rules |
| Gitignore.IsGitignored | src/repository/scanner.py:523-541 | stacked rule sets ignore a path iff the last rule that applies over all of them is no negation |
| Scanner.CollectRules | src/repository/scanner.py:490-521 | gathers the cached rule sets from the root down |
| Scanner.LoadGitignore | src/repository/scanner.py:478-488 | a rule set for a directory iff its `.gitignore` holds a rule |
| Scanner.VisitKeepsReady | src/repository/scanner.py:394-417 | visiting a directory keeps the cache right for every directory still waiting |
| Scanner.Walk | src/repository/scanner.py:388-437 | the cached, pruned walk finds what listing directory by directory with the full rules finds, in that order |
| Scanner.ListedIsVisible | src/repository/scanner.py:388-437 | a file is found iff neither it nor any directory on the way to it is ignored, each judged by the rules of the directories above it |
| Scanner.ListedDistinct | src/repository/scanner.py:388-437 | no file is found twice |
| Scanner.Scan | src/repository/scanner.py:355-472 | the result holds each visible file exactly once and no other, sorted by relative path |
| Scanner.OversizedLeftOut | src/repository/scanner.py:420-425 | no file above the size limit is among the visible ones |
| Highlighter.EscapeIsEach | pearl_ui/js/format.js:26-28 | the three replacements in this order equal one pass over the characters |
| Highlighter.DecodeEscape | pearl_ui/js/format.js:26-28 | reading the entities of escaped text gives the text back |
| Highlighter.EscapeInjective | pearl_ui/js/format.js:21-28 | different texts are escaped differently |
| Highlighter.NextPiece | pearl_ui/js/markdown.js:76-121 | one round: where the piece ends and its class, which depend on the code alone although the last word is read off the markup |
| Highlighter.Hilight | pearl_ui/js/markdown.js:71-123 | the markup of the code's pieces, unless the scan never ends |
| Highlighter.StuckAtDollar | pearl_ui/js/markdown.js:108-117 | the scan moves on from every position except a dollar sign it has reached |
| Highlighter.ForeverIffBareDollar | pearl_ui/js/markdown.js:71-123 | the scan never ends iff the code has a dollar sign outside comments and strings |
| Highlighter.DollarNeverEnds | pearl_ui/js/markdown.js:108-117 | a dollar sign alone is never highlighted, in any language |
| Highlighter.NoDollarEnds | pearl_ui/js/markdown.js:71-123 | code without a dollar sign is always highlighted |
| Highlighter.EraseAll | pearl_ui/js/markdown.js:111 | erasing the tags of emitted spans leaves their escaped text, whatever follows |
| Highlighter.MarkupIsLossless | pearl_ui/js/markdown.js:71-123 | when the scan ends, erasing the tags and reading the entities gives back the code |
| ContextBudget.TruncationFits | src/llm/token_budget.py:27-51 | the truncated text fits iff the text did or the budget has room for the notice |
| ContextBudget.TruncationAtMost | src/llm/token_budget.py:27-51 | for a positive budget the result takes at most the budget or the notice |
| ContextBudget.TruncationKeepsMost | src/llm/token_budget.py:41-42 | a cut text keeps as much of the beginning as fits beside the notice |
| ContextBudget.PlanningPromptFits | src/llm/context_budget.py:42-57 | the planning prompt fits iff there is an allowance or the context would have fitted whole |
| ContextBudget.NoAllowanceNoTruncation | src/agent/planner.py:125-142 | without allowance the context goes in unabridged |
| ContextBudget.CapHistory | src/agent/context_engine.py:236-268 | the longest run of newest messages that fits, or the newest alone |
| ContextBudget.CappedOnce | src/agent/context_engine.py:236-268 | which leaves one possible result |
| ContextBudget.UsedBounds | src/agent/context_engine.py:166-211 | the repository share gives way to a history that overruns its own |
| ContextBudget.Build | src/agent/context_engine.py:122-234 | shares, history and context block, the tokens used, and when they fit |
| ContextBudget.FitsIff | src/agent/context_engine.py:122-234 | without execution results the call fits iff its fixed parts, the newest message and one token do; with them it exceeds the window by at most their own tokens |
| ContextBudget.OversizedMessage | src/agent/context_engine.py:122-135 | a newest message that alone fills the window is kept whole, and the tokens used exceed it |

## Left out

- Providers, model routing, prompts, synthesis, HTTP routes, the command line, settings,
  memory, sessions and the event bus: foreign calls, or tables and simple appends.
- Checkpoints and verification: what they do is mostly done by `git` and `pytest`.
- PageRank and confidence scores: floating point from a library.
- `RepositoryGraph.Build`: starts from files, symbols and resolved imports; reading an
  index, resolving module names and inheritance edges are not modelled. All other results
  about the graph hold for any sequence of added nodes and edges.
- Plan validation messages: errors are counted, not spelled out; the workspace scan for
  extensions and the path library are parameters.
- `PlanValidator.ValidatePlan`: does not model the check of each call against the tool
  registry, which is a table lookup.
- `_extract_json`: deletes code fences before the search, also inside strings; only the
  search is modelled.
- Undecodable files, symbolic links, Unicode line separators and character decoding.
- `ChangeManager.Manager.ApplyAll`: does not model a rollback write that itself fails, nor
  directories created on the way to a new file and not removed again.
- The staged diff texts, risk levels, progress events, log lines and wall-clock times.
- `Executor.AutonomousExecutor.Dispatch`: does not model tools that act at once even in
  preview mode, as `make_directory` does (`src/tools/file_tools.py:277-299`; empty
  directories are not part of `Disk`) and as tests that write files would; nor that the
  preview switch is kept per thread of control, because one call runs in one thread.
- Lists shared between reports and the paused state are values here, so a caller that
  changes a report after the call is not modelled.
- The message under which a failed action is counted is its tool and arguments; how the
  arguments are written as JSON is not part of this model.
- `Executor.AutonomousExecutor.Session`: runs one call after the other; two threads that
  call at the same time are modelled for the paused state only, in `Handoff.dfy`.
- `History.Notice`: does not model how Python's `repr` quotes a command; it is a parameter.
- `Sse.ParseStream`: does not model decoding of bytes; chunks are text. The parser of
  payloads is a parameter.
- `Gitignore.CompileGlob`: appends regular-expression trees instead of strings that are
  parsed again; what each tree matches is defined once, in `MatchesAt`.
- `Scanner.Scan`: does not model files that vanish during the scan, hashing, or the
  sorting of names inside one directory, which the final sort makes invisible.
- `Highlighter.Hilight`: the languages handled before the loop (plain text, diff, JSON) and
  the keyword tables, which are a parameter.
- `ContextBudget.Build`: does not model condensation of the memory and retrieval of the
  repository context; both results are inputs. Fractions are exact rather than floating
  point.
