/** The autonomous executor: the step loop with its iteration, replan and retry
    budgets, the pause for approval, and resuming after it. The planner, the tools,
    the command runner, the verifier and the reflection engine may answer anything;
    `:= *` stands for their answers. */
module Executor {
  import opened Collections
  import opened Plan
  import opened ChangeManager
  import opened CommandApproval
  import opened History

  datatype StopReason = CompletedRun | MaxIterations | FatalError | Cancelled | AwaitingApproval | Rejected

  datatype Report = Report(steps: seq<Step>, stop: StopReason, replansUsed: int)

  datatype PausedState = PausedState(
    pending: seq<ToolCall>, steps: seq<Step>, completed: seq<Entry>, replansUsed: int, iteration: int)

  datatype ToolOutcome = Returned(value: Value) | Raised(transient: bool, message: string)

  datatype PlanOutcome = Planned(plan: seq<ToolCall>) | PlanCancelled | PlanFailed

  datatype Verification = Verified(failed: nat) | VerifierRaised

  /** What a public call ends with: a report, or an exception. */
  datatype Outcome =
    | Reported(report: Report)
    | AlreadyPaused
    | NotPaused
    | StaleFiles
    | ApplyFailed
    | RunnerEscaped
    | VerifierEscaped

  function AtLeast0(n: int): nat {
    if n < 0 then 0 else n
  }

  function CountOf<K>(counts: map<K, nat>, key: K): nat {
    if key in counts then counts[key] else 0
  }

  datatype Limits = Limits(maxIterations: int, maxReplans: int, maxRetries: int)

  /** Tool dispatches that n recorded steps can account for. */
  function Allowance(limits: Limits, n: nat): nat {
    n * (AtLeast0(limits.maxRetries) + 1)
  }

  /** The planner's history matches the steps. */
  ghost predicate GoodHistory(steps: seq<Step>, completed: seq<Entry>) {
    completed == Completed(steps) && Quiet(steps)
  }

  lemma HistoryAppend(steps: seq<Step>, completed: seq<Entry>, s: Step)
    requires GoodHistory(steps, completed) && (!Counted(s) ==> !IsPlaceholder(s.result))
    ensures GoodHistory(steps + [s], if Counted(s) then completed + [EntryOf(s)] else completed)
  {
    CompletedAppend(steps, s);
  }

  lemma HistoryFilled(steps: seq<Step>, completed: seq<Entry>, outputs: seq<string>)
    requires GoodHistory(steps, completed)
    ensures GoodHistory(FillSteps(steps, outputs), FillEntries(completed, outputs))
    ensures |FillSteps(steps, outputs)| == |steps|
  {
    PassesAgree(steps, outputs);
    FillKeepsQuiet(steps, outputs);
  }

  /** What a run may be resumed from: matching histories, and budgets kept. */
  ghost predicate GoodPause(limits: Limits, s: PausedState) {
    && GoodHistory(s.steps, s.completed)
    && |s.steps| <= s.iteration && |s.steps| <= AtLeast0(limits.maxIterations)
    && 0 <= s.replansUsed <= AtLeast0(limits.maxReplans)
  }

  /** The batch has been carried out: all edits, then the commands as far as they ran. */
  ghost predicate Carried(log0: seq<Effect>, log1: seq<Effect>, edits: seq<PendingEdit>, commands: seq<string>, run: BatchRun) {
    RunOf(commands, run) && log1 == log0 + Done(edits) + Performed(commands, run)
  }

  /** The output filled into the history: none if a command failed. */
  function Outputs(run: BatchRun): seq<string> {
    if run.failed.None? then run.ran else []
  }

  lemma CarriedBy(log0: seq<Effect>, log1: seq<Effect>, log2: seq<Effect>, edits: seq<PendingEdit>, commands: seq<string>,
                  run: BatchRun)
    requires RunOf(commands, run) && log1 == log0 + Done(edits) && log2 == log1 + Performed(commands, run)
    ensures Carried(log0, log2, edits, commands, run)
    ensures run.failed.Some? ==> commands != []
  {
    hide Done, Performed;
  }

  /** What a batch that was carried out leaves staged: no edits, and all its commands
      if one of them failed. */
  function Leftover(commands: seq<string>, run: BatchRun): Batch {
    Batch([], if run.failed.None? then [] else commands)
  }

  lemma SomePaths(edits: seq<PendingEdit>)
    ensures PathsOf(edits) == [] <==> edits == []
  {
  }

  lemma PauseFacts(limits: Limits, s: PausedState)
    requires GoodPause(limits, s)
    ensures |s.steps| <= AtLeast0(limits.maxIterations) && 0 <= s.replansUsed <= AtLeast0(limits.maxReplans)
  {
  }

  lemma {:induction false} NothingFilled(steps: seq<Step>)
    ensures FillSteps(steps, []) == steps
  {
    if steps != [] {
      NothingFilled(steps[1..]);
    }
  }

  // ----- one leg of execution -----

  /** The local state of the loop; `tries` counts how often the step now at the
      front has been tried. */
  datatype Leg = Leg(
    pending: seq<ToolCall>, steps: seq<Step>, completed: seq<Entry>, replansUsed: int, iteration: int,
    retryCounts: map<nat, nat>, failedActions: map<Action, nat>, tries: nat)

  function StateOf(leg: Leg): PausedState {
    PausedState(leg.pending, leg.steps, leg.completed, leg.replansUsed, leg.iteration)
  }

  ghost predicate Continues(steps0: seq<Step>, steps: seq<Step>) {
    |steps0| <= |steps| && steps[..|steps0|] == steps0
  }

  /** Retries are within their budget and belong to the step at the front. */
  ghost predicate RetriesKept(limits: Limits, leg: Leg) {
    && (forall id :: id in leg.retryCounts ==> leg.retryCounts[id] <= AtLeast0(limits.maxRetries))
    && (leg.tries > 0 ==>
          leg.pending != [] && leg.pending[0].tool != "none" && leg.iteration < limits.maxIterations &&
          leg.tries <= CountOf(leg.retryCounts, leg.pending[0].identity))
  }

  /** failedActions counts this leg's failures, and no count exceeds the cap. */
  ghost predicate FailuresKept(steps0: seq<Step>, leg: Leg, cap: nat)
    requires Continues(steps0, leg.steps)
  {
    forall a :: Failures(leg.steps[|steps0|..], a) == CountOf(leg.failedActions, a) <= cap
  }

  ghost predicate LegInv(limits: Limits, steps0: seq<Step>, replans0: int, leg: Leg, dispatched: nat, cap: nat) {
    && GoodPause(limits, StateOf(leg))
    && Continues(steps0, leg.steps) && replans0 <= leg.replansUsed
    && RetriesKept(limits, leg) && FailuresKept(steps0, leg, cap)
    && dispatched <= Allowance(limits, |leg.steps|) + leg.tries
  }

  lemma LegStart(limits: Limits, s: PausedState, dispatched: nat)
    requires GoodPause(limits, s) && dispatched <= Allowance(limits, |s.steps|)
    ensures LegInv(limits, s.steps, s.replansUsed,
                   Leg(s.pending, s.steps, s.completed, s.replansUsed, s.iteration, map[], map[], 0), dispatched, 1)
  {
    assert s.steps[|s.steps|..] == [];
  }

  /** A transient failure is tried again without using up an iteration. */
  function Retried(leg: Leg): Leg
    requires leg.pending != []
  {
    var id := leg.pending[0].identity;
    leg.(retryCounts := leg.retryCounts[id := CountOf(leg.retryCounts, id) + 1], tries := leg.tries + 1)
  }

  lemma RetryKeeps(limits: Limits, steps0: seq<Step>, replans0: int, leg: Leg, dispatched: nat)
    requires LegInv(limits, steps0, replans0, leg, dispatched, 1) && leg.pending != []
    requires leg.pending[0].tool != "none" && leg.iteration < limits.maxIterations
    requires CountOf(leg.retryCounts, leg.pending[0].identity) < limits.maxRetries
    ensures LegInv(limits, steps0, replans0, Retried(leg), dispatched + 1, 1)
  {
    hide GoodHistory, Allowance, Failures;
  }

  /** The step at the front is done with, and recorded. */
  function Recorded(leg: Leg, step: Step): Leg
    requires leg.pending != []
  {
    leg.(pending := leg.pending[1..], steps := leg.steps + [step], iteration := leg.iteration + 1, tries := 0,
         completed := if Counted(step) then leg.completed + [EntryOf(step)] else leg.completed,
         failedActions :=
           if step.error.None? then leg.failedActions
           else leg.failedActions[(step.tool, step.kwargs) := CountOf(leg.failedActions, (step.tool, step.kwargs)) + 1])
  }

  lemma RecordedIs(leg: Leg, step: Step)
    requires leg.pending != []
    ensures var r := Recorded(leg, step);
      && r.pending == leg.pending[1..] && r.steps == leg.steps + [step] && r.replansUsed == leg.replansUsed
      && r.iteration == leg.iteration + 1 && r.retryCounts == leg.retryCounts && r.tries == 0
      && r.completed == (if Counted(step) then leg.completed + [EntryOf(step)] else leg.completed)
      && (step.error.None? ==> r.failedActions == leg.failedActions)
      && (step.error.Some? ==>
            r.failedActions ==
              leg.failedActions[(step.tool, step.kwargs) := CountOf(leg.failedActions, (step.tool, step.kwargs)) + 1])
  {
  }

  lemma AllowanceGrows(limits: Limits, m: nat, n: nat)
    requires m <= n
    ensures Allowance(limits, m) <= Allowance(limits, n)
    ensures Allowance(limits, m + 1) == Allowance(limits, m) + AtLeast0(limits.maxRetries) + 1
  {
    assert (n - m) * (AtLeast0(limits.maxRetries) + 1) >= 0;
  }

  lemma FailuresRecorded(steps0: seq<Step>, leg: Leg, step: Step)
    requires Continues(steps0, leg.steps) && leg.pending != [] && FailuresKept(steps0, leg, 1)
    ensures Continues(steps0, Recorded(leg, step).steps)
    ensures step.error.None? ==> FailuresKept(steps0, Recorded(leg, step), 1)
    ensures FailuresKept(steps0, Recorded(leg, step), 2)
    ensures step.error.Some? && CountOf(Recorded(leg, step).failedActions, (step.tool, step.kwargs)) < 2 ==>
      FailuresKept(steps0, Recorded(leg, step), 1)
  {
    hide Failures, CountOf;
    var since, after := leg.steps[|steps0|..], Recorded(leg, step);
    assert after.steps[|steps0|..] == since + [step];
    assert after.steps[..|steps0|] == leg.steps[..|steps0|];
    var action := (step.tool, step.kwargs);
    forall a
      ensures Failures(since + [step], a) == Failures(since, a) + if step.error.Some? && action == a then 1 else 0
      ensures CountOf(after.failedActions, a) ==
        CountOf(leg.failedActions, a) + if step.error.Some? && action == a then 1 else 0
    {
      FailuresAppend(since, step, a);
      CountAfter(leg.failedActions, action, a);
    }
  }

  lemma CountAfter<K>(counts: map<K, nat>, key: K, k: K)
    ensures CountOf(counts[key := CountOf(counts, key) + 1], k) == CountOf(counts, k) + if key == k then 1 else 0
  {
  }

  lemma FailuresAppend(steps: seq<Step>, step: Step, a: Action)
    ensures Failures(steps + [step], a) ==
      Failures(steps, a) + if step.error.Some? && (step.tool, step.kwargs) == a then 1 else 0
  {
    assert (steps + [step])[..|steps|] == steps;
  }

  /** Recording a step that was dispatched, or that needed no tool. */
  lemma RecordKeeps(limits: Limits, steps0: seq<Step>, replans0: int, leg: Leg, dispatched: nat, step: Step, ran: nat)
    requires LegInv(limits, steps0, replans0, leg, dispatched, 1) && leg.pending != []
    requires leg.iteration < limits.maxIterations && (!Counted(step) ==> !IsPlaceholder(step.result))
    requires ran <= 1 && (leg.pending[0].tool == "none" ==> ran == 0)
    ensures LegInv(limits, steps0, replans0, Recorded(leg, step), dispatched + ran, 2)
    ensures step.error.None? || CountOf(Recorded(leg, step).failedActions, (step.tool, step.kwargs)) < 2 ==>
      LegInv(limits, steps0, replans0, Recorded(leg, step), dispatched + ran, 1)
  {
    RecordedPause(limits, leg, step);
    FailuresRecorded(steps0, leg, step);
    RecordedRetries(limits, leg, step);
    RecordedAllowance(limits, leg, dispatched, step, ran);
    hide GoodPause, Continues, RetriesKept, FailuresKept, Allowance, CountOf, Counted, IsPlaceholder;
    var after := Recorded(leg, step);
    assert after.replansUsed == leg.replansUsed && after.tries == 0;
  }

  /** The three kinds of step a leg records. */
  function NoToolStep(iteration: int, call: ToolCall): (s: Step)
    ensures call.tool == "none" ==> !Counted(s) && !IsPlaceholder(s.result)
  {
    Step(iteration, call.tool, call.kwargs, Obj(0), None)
  }

  function FailedStep(iteration: int, call: ToolCall, message: string): (s: Step)
    ensures !Counted(s) && !IsPlaceholder(s.result)
  {
    Step(iteration, call.tool, call.kwargs, Obj(0), Some(message))
  }

  function DoneStep(iteration: int, call: ToolCall, value: Value): (s: Step)
    ensures call.tool != "none" ==> Counted(s)
  {
    Step(iteration, call.tool, call.kwargs, value, None)
  }

  lemma RecordedPause(limits: Limits, leg: Leg, step: Step)
    requires GoodPause(limits, StateOf(leg)) && leg.pending != []
    requires leg.iteration < limits.maxIterations && (!Counted(step) ==> !IsPlaceholder(step.result))
    ensures GoodPause(limits, StateOf(Recorded(leg, step)))
  {
    HistoryAppend(leg.steps, leg.completed, step);
    hide GoodHistory;
  }

  lemma RecordedAllowance(limits: Limits, leg: Leg, dispatched: nat, step: Step, ran: nat)
    requires RetriesKept(limits, leg) && leg.pending != [] && ran <= 1 && (leg.pending[0].tool == "none" ==> ran == 0)
    requires dispatched <= Allowance(limits, |leg.steps|) + leg.tries
    ensures dispatched + ran <= Allowance(limits, |Recorded(leg, step).steps|)
  {
    TriesBounded(limits, leg);
    AllowanceGrows(limits, |leg.steps|, |leg.steps| + 1);
    hide Allowance, RetriesKept;
  }

  lemma TriesBounded(limits: Limits, leg: Leg)
    requires RetriesKept(limits, leg)
    ensures leg.tries <= AtLeast0(limits.maxRetries)
    ensures leg.tries > 0 ==> leg.pending != [] && leg.pending[0].tool != "none"
  {
  }

  lemma RecordedRetries(limits: Limits, leg: Leg, step: Step)
    requires RetriesKept(limits, leg) && leg.pending != []
    ensures RetriesKept(limits, Recorded(leg, step))
  {
  }

  lemma ReplanKeeps(limits: Limits, steps0: seq<Step>, replans0: int, leg: Leg, dispatched: nat, plan: seq<ToolCall>)
    requires LegInv(limits, steps0, replans0, leg, dispatched, 1) && leg.tries == 0
    requires leg.replansUsed < limits.maxReplans
    ensures LegInv(limits, steps0, replans0, leg.(pending := plan, replansUsed := leg.replansUsed + 1), dispatched, 1)
  {
    hide GoodHistory, Allowance, Failures;
  }

  /** The bounds a leg leaves behind. */
  ghost predicate LegBounds(limits: Limits, steps0: seq<Step>, replans0: int, report: Report, completed: seq<Entry>) {
    && GoodHistory(report.steps, completed)
    && |report.steps| <= AtLeast0(limits.maxIterations) && Continues(steps0, report.steps)
    && replans0 <= report.replansUsed <= AtLeast0(limits.maxReplans)
  }

  /** In the steps since steps0 no action, tool and arguments, fails a third time. */
  ghost predicate NoThirdFailure(steps0: seq<Step>, steps: seq<Step>) {
    |steps0| <= |steps| && forall a :: Failures(steps[|steps0|..], a) <= 2
  }

  lemma LegStops(limits: Limits, steps0: seq<Step>, replans0: int, leg: Leg, dispatched: nat, cap: nat, stop: StopReason)
    requires LegInv(limits, steps0, replans0, leg, dispatched, cap) && cap <= 2
    ensures LegBounds(limits, steps0, replans0, Report(leg.steps, stop, leg.replansUsed), leg.completed)
    ensures NoThirdFailure(steps0, leg.steps)
    ensures dispatched <= Allowance(limits, AtLeast0(limits.maxIterations))
    ensures leg.tries == 0 || leg.iteration >= limits.maxIterations ==> dispatched <= Allowance(limits, |leg.steps|)
    ensures GoodPause(limits, StateOf(leg)) && GoodPause(limits, StateOf(leg).(iteration := leg.iteration + 1))
  {
    AllowanceGrows(limits, |leg.steps|, |leg.steps| + 1);
    AllowanceGrows(limits, |leg.steps|, AtLeast0(limits.maxIterations));
    if leg.tries > 0 {
      AllowanceGrows(limits, |leg.steps| + 1, AtLeast0(limits.maxIterations));
    }
    hide GoodHistory, Allowance, Failures;
  }

  lemma LegFinished(limits: Limits, steps0: seq<Step>, replans0: int, leg: Leg, dispatched: nat)
    requires LegInv(limits, steps0, replans0, leg, dispatched, 1)
    ensures leg.pending == [] ==> leg.tries == 0
  {
  }

  // ----- what a leg does with the answers it gets -----

  /** What is staged. */
  datatype Batch = Batch(edits: seq<PendingEdit>, commands: seq<string>)

  const NONE_STAGED: Batch := Batch([], [])

  /** What the loop hears from outside, in order: how a tool call ended, with what it
      staged, and what the planner answered when asked for a plan. */
  datatype Event = Called(call: ToolCall, outcome: ToolOutcome, staged: Batch) | Asked(answer: PlanOutcome)

  function EditsOf(events: seq<Event>): seq<PendingEdit> {
    if events == [] then []
    else
      var last := events[|events| - 1];
      EditsOf(events[..|events| - 1]) + if last.Called? then last.staged.edits else []
  }

  function CommandsOf(events: seq<Event>): seq<string> {
    if events == [] then []
    else
      var last := events[|events| - 1];
      CommandsOf(events[..|events| - 1]) + if last.Called? then last.staged.commands else []
  }

  /** What is staged after the events. */
  function After(batch: Batch, events: seq<Event>): Batch {
    Batch(batch.edits + EditsOf(events), batch.commands + CommandsOf(events))
  }

  lemma {:induction false} AfterMore(batch: Batch, events: seq<Event>, more: seq<Event>)
    ensures After(batch, events + more) == After(After(batch, events), more)
  {
    hide *;
    if more == [] {
      assert events + more == events;
      AfterNothing(After(batch, events));
    } else {
      var n := |more| - 1;
      assert (events + more)[..|events + more| - 1] == events + more[..n];
      AfterMore(batch, events, more[..n]);
      AfterLast(batch, events + more);
      AfterLast(After(batch, events), more);
    }
  }

  lemma AfterLast(batch: Batch, events: seq<Event>)
    requires events != []
    ensures var before, last := After(batch, events[..|events| - 1]), events[|events| - 1];
      After(batch, events) ==
      Batch(before.edits + (if last.Called? then last.staged.edits else []),
            before.commands + if last.Called? then last.staged.commands else [])
  {
    StagedLast(events);
    hide EditsOf, CommandsOf;
    var last := events[|events| - 1];
    var edits, commands := if last.Called? then last.staged.edits else [], if last.Called? then last.staged.commands else [];
    assert batch.edits + (EditsOf(events[..|events| - 1]) + edits) == batch.edits + EditsOf(events[..|events| - 1]) + edits;
    assert batch.commands + (CommandsOf(events[..|events| - 1]) + commands) ==
           batch.commands + CommandsOf(events[..|events| - 1]) + commands;
  }

  lemma StagedLast(events: seq<Event>)
    requires events != []
    ensures var last := events[|events| - 1];
      && EditsOf(events) == EditsOf(events[..|events| - 1]) + (if last.Called? then last.staged.edits else [])
      && CommandsOf(events) == CommandsOf(events[..|events| - 1]) + (if last.Called? then last.staged.commands else [])
  {
  }

  lemma AfterNothing(batch: Batch)
    ensures After(batch, []) == batch
  {
  }

  lemma AfterCalled(batch: Batch, events: seq<Event>, call: ToolCall, outcome: ToolOutcome, staged: Batch)
    ensures var before := After(batch, events);
      After(batch, events + [Called(call, outcome, staged)]) ==
      Batch(before.edits + staged.edits, before.commands + staged.commands)
  {
    assert (events + [Called(call, outcome, staged)])[..|events|] == events;
  }

  predicate OnlyAsked(events: seq<Event>) {
    forall i :: 0 <= i < |events| ==> events[i].Asked?
  }

  lemma {:induction false} AfterOnlyAsked(batch: Batch, asked: seq<Event>)
    requires OnlyAsked(asked)
    ensures After(batch, asked) == batch
  {
    if asked != [] {
      AfterOnlyAsked(batch, asked[..|asked| - 1]);
    }
  }

  /** Asking the planner stages nothing. */
  lemma AfterAsking(batch: Batch, events: seq<Event>, asked: seq<Event>)
    requires OnlyAsked(asked)
    ensures After(batch, events + asked) == After(batch, events)
    ensures After(batch, asked + events) == After(batch, events)
  {
    hide After;
    AfterMore(batch, events, asked);
    AfterOnlyAsked(After(batch, events), asked);
    AfterMore(batch, asked, events);
    AfterOnlyAsked(batch, asked);
  }

  /** The state between two events; `failed` is the action that has just failed for
      good, so that only a new plan can help. */
  datatype Turn = Turn(leg: Leg, failed: Option<Action>)

  function StartLeg(s: PausedState): Leg {
    Leg(s.pending, s.steps, s.completed, s.replansUsed, s.iteration, map[], map[], 0)
  }

  function ActionOf(call: ToolCall): Action {
    (call.tool, call.kwargs)
  }

  predicate MayRetry(limits: Limits, leg: Leg, outcome: ToolOutcome)
    requires leg.pending != []
  {
    outcome.Raised? && outcome.transient && CountOf(leg.retryCounts, leg.pending[0].identity) < limits.maxRetries
  }

  function AfterCall(limits: Limits, leg: Leg, outcome: ToolOutcome): Turn
    requires leg.pending != []
  {
    var call := leg.pending[0];
    if outcome.Returned? then Turn(Recorded(leg, DoneStep(leg.iteration + 1, call, outcome.value)), None)
    else if MayRetry(limits, leg, outcome) then Turn(Retried(leg), None)
    else Turn(Recorded(leg, FailedStep(leg.iteration + 1, call, outcome.message)), Some(ActionOf(call)))
  }

  /** The same action has not failed twice, and replans are left. */
  predicate MayReplan(limits: Limits, turn: Turn) {
    turn.failed.Some? && CountOf(turn.leg.failedActions, turn.failed.value) < 2 && turn.leg.replansUsed < limits.maxReplans
  }

  function AfterAnswer(turn: Turn, answer: PlanOutcome): Turn {
    match answer
    case Planned(plan) => Turn(turn.leg.(pending := plan, replansUsed := turn.leg.replansUsed + 1), None)
    case _ => turn
  }

  ghost predicate Moves(limits: Limits, before: Turn, event: Event, after: Turn) {
    match event
    case Called(call, outcome, _) =>
      && before.failed.None? && before.leg.pending != [] && before.leg.iteration < limits.maxIterations
      && call == before.leg.pending[0] && call.tool != "none" && after == AfterCall(limits, before.leg, outcome)
    case Asked(answer) =>
      MayReplan(limits, before) && after == AfterAnswer(before, answer)
  }

  ghost predicate Plays(limits: Limits, start: Turn, events: seq<Event>, end: Turn)
    decreases |events|
  {
    if events == [] then end == start
    else
      var front, last := events[..|events| - 1], events[|events| - 1];
      exists mid :: Plays(limits, start, front, mid) && Moves(limits, mid, last, end)
  }

  predicate LastAnswer(events: seq<Event>, answer: PlanOutcome) {
    events != [] && events[|events| - 1] == Asked(answer)
  }

  /** A step that needs no tool is next. */
  predicate AtNoTool(limits: Limits, turn: Turn) {
    turn.leg.pending != [] && turn.leg.pending[0].tool == "none" && turn.leg.iteration < limits.maxIterations
  }

  /** The call at the front may be made. */
  predicate CanCall(limits: Limits, leg: Leg) {
    leg.pending != [] && leg.pending[0].tool != "none" && leg.iteration < limits.maxIterations
  }

  /** When a leg stops, why, and with which steps. */
  ghost predicate Ends(limits: Limits, turn: Turn, events: seq<Event>, stop: StopReason, cancelled: bool) {
    match stop
    case CompletedRun => turn.failed.None? && (turn.leg.pending == [] || AtNoTool(limits, turn))
    case MaxIterations => turn.failed.None? && turn.leg.pending != [] && turn.leg.iteration >= limits.maxIterations
    case FatalError => turn.failed.Some? && (!MayReplan(limits, turn) || LastAnswer(events, PlanFailed))
    case Cancelled =>
      LastAnswer(events, PlanCancelled) ||
      (cancelled && if turn.failed.None? then CanCall(limits, turn.leg)
                    else MayReplan(limits, turn) && !LastAnswer(events, PlanFailed))
    case _ => false
  }

  /** The leg when it has stopped: a step that needs no tool is recorded. */
  function Final(limits: Limits, turn: Turn, stop: StopReason): Leg {
    if stop == CompletedRun && AtNoTool(limits, turn)
    then Recorded(turn.leg, NoToolStep(turn.leg.iteration + 1, turn.leg.pending[0]))
    else turn.leg
  }

  /** What is staged makes a stop a pause, unless the run is cancelled. */
  function StopsWith(stop: StopReason, staged: Batch): StopReason {
    if stop == Cancelled || staged == NONE_STAGED then stop else AwaitingApproval
  }

  /** Where a paused leg is resumed; the iteration that was one too many stays counted. */
  function PauseOf(leg: Leg, stop: StopReason): PausedState {
    var state := StateOf(leg);
    if stop == MaxIterations then state.(iteration := leg.iteration + 1) else state
  }

  /** The report, and the pause if there is one, are what the events make of the start
      and of what was staged then. */
  ghost predicate Explained(limits: Limits, start: PausedState, batch0: Batch, events: seq<Event>, report: Report,
                            paused: Option<PausedState>, cancelled: bool) {
    exists turn, stop :: ExplainedBy(limits, start, batch0, events, report, paused, cancelled, turn, stop)
  }

  ghost predicate ExplainedBy(limits: Limits, start: PausedState, batch0: Batch, events: seq<Event>, report: Report,
                              paused: Option<PausedState>, cancelled: bool, turn: Turn, stop: StopReason) {
    var leg := Final(limits, turn, stop);
    && Plays(limits, Turn(StartLeg(start), None), events, turn) && Ends(limits, turn, events, stop, cancelled)
    && report == Report(leg.steps, StopsWith(stop, After(batch0, events)), leg.replansUsed)
    && paused == if report.stop == AwaitingApproval then Some(PauseOf(leg, stop)) else None
  }

  predicate Usable(answer: PlanOutcome) {
    answer.Planned? && answer.plan != []
  }

  /** The state from which a plan made after reflection runs. */
  function Following(first: Report, plan: seq<ToolCall>): PausedState {
    PausedState(plan, first.steps, Completed(first.steps), first.replansUsed + 1, |first.steps|)
  }

  /** A leg that reflection may follow up with a new plan. */
  ghost predicate Reflected(limits: Limits, left: int, start: PausedState, batch0: Batch, events: seq<Event>, first: Report,
                            cancelled: bool) {
    && Explained(limits, start, batch0, events, first, None, cancelled)
    && first.stop in {CompletedRun, MaxIterations} && first.replansUsed < limits.maxReplans && left > 1
  }

  /** The report is what the events make of the start, leg by leg: either it is that of
      one leg, or a leg comes to its own end, the planner is asked for what is missing,
      and the rest follows from its answer. `left` bounds the reflections. */
  ghost predicate Legs(limits: Limits, left: int, start: PausedState, batch0: Batch, events: seq<Event>, report: Report,
                       paused: Option<PausedState>, cancelled: bool)
    decreases |events|
  {
    || Explained(limits, start, batch0, events, report, paused, cancelled)
    || exists first, n :: 0 <= n < |events| && Reflected(limits, left, start, batch0, events[..n], first, cancelled) &&
         events[n].Asked? &&
         if Usable(events[n].answer)
         then Legs(limits, left - 1, Following(first, events[n].answer.plan), NONE_STAGED, events[n + 1..],
                   report, paused, cancelled)
         else events[n + 1..] == [] && report == first && paused.None?
  }

  lemma OneLeg(limits: Limits, left: int, start: PausedState, batch0: Batch, events: seq<Event>, report: Report,
               paused: Option<PausedState>, early: bool, cancelled: bool)
    requires Explained(limits, start, batch0, events, report, paused, early) && (early ==> cancelled)
    ensures Legs(limits, left, start, batch0, events + [], report, paused, cancelled)
  {
    ExplainedLater(limits, start, batch0, events, report, paused, early, cancelled);
    hide Explained;
    assert events + [] == events;
  }

  lemma MoreLegs(limits: Limits, left: int, start: PausedState, batch0: Batch, events: seq<Event>, first: Report, early: bool,
                 answer: PlanOutcome, rest: seq<Event>, report: Report, paused: Option<PausedState>, cancelled: bool)
    requires Explained(limits, start, batch0, events, first, None, early) && (early ==> cancelled)
    requires first.stop in {CompletedRun, MaxIterations} && first.replansUsed < limits.maxReplans && left > 1
    requires if Usable(answer)
             then Legs(limits, left - 1, Following(first, answer.plan), NONE_STAGED, rest, report, paused, cancelled)
             else rest == [] && report == first && paused.None?
    ensures Legs(limits, left, start, batch0, events + ([Asked(answer)] + rest), report, paused, cancelled)
  {
    ExplainedLater(limits, start, batch0, events, first, None, early, cancelled);
    assert Reflected(limits, left, start, batch0, events, first, cancelled);
    hide Explained, Reflected, Following;
    var all, n := events + ([Asked(answer)] + rest), |events|;
    assert all[..n] == events && all[n] == Asked(answer) && all[n + 1..] == rest;
    assert Reflected(limits, left, start, batch0, all[..n], first, cancelled);
  }

  /** What was staged before holds a run up: unless cancelled, it pauses for that and
      whatever has been staged after it. */
  lemma HeldUp(limits: Limits, left: int, start: PausedState, batch0: Batch, events: seq<Event>, report: Report,
               paused: Option<PausedState>, cancelled: bool)
    requires Legs(limits, left, start, batch0, events, report, paused, cancelled) && batch0 != NONE_STAGED
    ensures report.stop in {AwaitingApproval, Cancelled}
  {
    hide Plays, Ends, Final, PauseOf, EditsOf, CommandsOf;
    assert Explained(limits, start, batch0, events, report, paused, cancelled);
  }

  /** How `run` comes to its report: by being cancelled first, by the opening plan, given
      or asked for, or by executing that plan. */
  ghost predicate RunExplained(limits: Limits, left: int, initialPlan: Option<seq<ToolCall>>, batch0: Batch,
                               events: seq<Event>, report: Report, paused: Option<PausedState>, cancelled: bool) {
    if events == [] then cancelled && report == Report([], Cancelled, 0)
    else
      events[0].Asked? &&
      match events[0].answer
      case PlanCancelled => report == Report([], Cancelled, 0)
      case PlanFailed => report == Report([], FatalError, 1)
      case Planned(plan) =>
        && (initialPlan.Some? ==> plan == initialPlan.value)
        && Legs(limits, left, PausedState(plan, [], [], 0, 0), batch0, events[1..], report, paused, cancelled)
  }

  /** The paused state with the output of the commands filled in. */
  function Filled(state: PausedState, outputs: seq<string>): PausedState {
    state.(steps := FillSteps(state.steps, outputs), completed := FillEntries(state.completed, outputs))
  }

  /** What the planner's answer to failing tests makes of the state. */
  function Revised(state: PausedState, answer: PlanOutcome): PausedState {
    if answer.Planned? then state.(pending := answer.plan, replansUsed := state.replansUsed + 1) else state
  }

  /** How a resumed run comes to its report: from the state, or, if tests were run and
      the planner was asked because some failed, from what its answer makes of it. */
  ghost predicate ResumeExplained(limits: Limits, left: int, state: PausedState, batch0: Batch, verifies: bool,
                                  events: seq<Event>, report: Report, paused: Option<PausedState>, cancelled: bool) {
    || Legs(limits, left, state, batch0, events, report, paused, cancelled)
    || (verifies && state.replansUsed < limits.maxReplans && events != [] && events[0].Asked? &&
        Legs(limits, left, Revised(state, events[0].answer), batch0, events[1..], report, paused, cancelled))
  }

  /** A resumed run's report is explained, what waits at its pause is what waited before
      and what its calls staged, and placeholders stay paired with commands. */
  ghost predicate Resumption(limits: Limits, repr: string -> string, left: int, state: PausedState, batch0: Batch,
                             verifies: bool, events: seq<Event>, report: Report, paused: Option<PausedState>,
                             staged: Batch, cancelled: bool) {
    && ResumeExplained(limits, left, state, batch0, verifies, events, report, paused, cancelled)
    && (paused.Some? ==>
          staged == After(batch0, events) &&
          PairsKept(repr, state.steps, batch0.commands, events, report.steps, staged.commands))
  }

  /** Commands left staged because one of them failed hold the resumed run up. */
  lemma ResumptionHeldUp(limits: Limits, repr: string -> string, left: int, state: PausedState, batch0: Batch,
                         verifies: bool, events: seq<Event>, report: Report, paused: Option<PausedState>,
                         staged: Batch, cancelled: bool)
    requires Resumption(limits, repr, left, state, batch0, verifies, events, report, paused, staged, cancelled)
    requires batch0 != NONE_STAGED
    ensures report.stop in {AwaitingApproval, Cancelled}
  {
    hide Legs, Revised, PairsKept;
    if Legs(limits, left, state, batch0, events, report, paused, cancelled) {
      HeldUp(limits, left, state, batch0, events, report, paused, cancelled);
    } else {
      HeldUp(limits, left, Revised(state, events[0].answer), batch0, events[1..], report, paused, cancelled);
    }
  }

  /** The planner's answer to failing tests, if it was asked, and the state it leads to. */
  ghost predicate Rechecked(limits: Limits, state: PausedState, verifies: bool, asked: seq<Event>, next: PausedState) {
    || (asked == [] && next == state)
    || (verifies && state.replansUsed < limits.maxReplans && |asked| == 1 && asked[0].Asked? &&
        next == Revised(state, asked[0].answer))
  }

  lemma FilledPause(limits: Limits, state: PausedState, outputs: seq<string>)
    requires GoodPause(limits, state)
    ensures GoodPause(limits, Filled(state, outputs)) && |FillSteps(state.steps, outputs)| == |state.steps|
  {
    HistoryFilled(state.steps, state.completed, outputs);
  }

  lemma ResumeExplains(limits: Limits, left: int, state: PausedState, batch0: Batch, verifies: bool, asked: seq<Event>,
                       next: PausedState,
                       more: seq<Event>, report: Report, paused: Option<PausedState>, cancelled: bool)
    requires Rechecked(limits, state, verifies, asked, next)
    requires Legs(limits, left, next, batch0, more, report, paused, cancelled)
    ensures ResumeExplained(limits, left, state, batch0, verifies, asked + more, report, paused, cancelled)
  {
    hide Legs, Revised;
    assert [] + more == more;
    if asked != [] {
      assert (asked + more)[0] == asked[0] && (asked + more)[1..] == more;
    }
  }

  lemma RunExplains(limits: Limits, left: int, initialPlan: Option<seq<ToolCall>>, batch0: Batch, planning: PlanOutcome,
                    more: seq<Event>, report: Report, paused: Option<PausedState>, cancelled: bool)
    requires planning.PlanCancelled? ==> report == Report([], Cancelled, 0)
    requires planning.PlanFailed? ==> report == Report([], FatalError, 1)
    requires planning.Planned? ==>
               && (initialPlan.Some? ==> planning.plan == initialPlan.value)
               && Legs(limits, left, PausedState(planning.plan, [], [], 0, 0), batch0, more, report, paused, cancelled)
    ensures RunExplained(limits, left, initialPlan, batch0, [Asked(planning)] + more, report, paused, cancelled)
  {
    hide Legs;
    assert ([Asked(planning)] + more)[1..] == more;
  }

  lemma TraceAfter(before: seq<Event>, begun: seq<Event>, now: seq<Event>, events: seq<Event>)
    requires begun == before + events && begun <= now
    ensures now[|before|..] == events + now[|begun|..]
    ensures |events| == 1 ==> |now| > |before| && now[|before|] == events[0]
  {
  }

  /** With no replans allowed, a plan that cannot be made is still counted as one. */
  lemma PlanningFailureOverspends(limits: Limits, left: int, batch0: Batch, report: Report, paused: Option<PausedState>,
                                  cancelled: bool)
    requires limits.maxReplans <= 0
    ensures RunExplained(limits, left, None, batch0, [Asked(PlanFailed)], report, paused, cancelled) <==>
            report == Report([], FatalError, 1)
    ensures 1 > AtLeast0(limits.maxReplans)
  {
  }

  /** A leg that ended by itself left nothing staged. */
  lemma StagedAgain(batch0: Batch, events: seq<Event>, answer: PlanOutcome, rest: seq<Event>)
    requires After(batch0, events) == NONE_STAGED
    ensures After(batch0, events + ([Asked(answer)] + rest)) == After(NONE_STAGED, rest)
  {
    hide After;
    AfterMore(batch0, events, [Asked(answer)] + rest);
    AfterAsking(NONE_STAGED, rest, [Asked(answer)]);
  }

  /** A leg, an answer after reflection, and the run that followed from it, as one. */
  lemma ReflectedRun(limits: Limits, left: int, repr: string -> string, start: PausedState, batch0: Batch, events: seq<Event>,
                     first: Report, early: bool, answer: PlanOutcome, heard: seq<Event>, resumed: Report, staged: seq<string>,
                     before: seq<Event>, begun: seq<Event>, now: seq<Event>, report: Report, batch: Batch,
                     paused: Option<PausedState>, cancelled: bool)
    requires Explained(limits, start, batch0, events, first, None, early) && (early ==> cancelled)
    requires After(batch0, events) == NONE_STAGED
    requires first.stop in {CompletedRun, MaxIterations} && first.replansUsed < limits.maxReplans && left > 1
    requires begun == before + [Asked(answer)] + heard && begun <= now && Usable(answer)
    requires Legs(limits, left - 1, Following(first, answer.plan), NONE_STAGED, heard + now[|begun|..], report, paused, cancelled)
    requires paused.Some? ==> batch == After(NONE_STAGED, heard + now[|begun|..])
    requires PairsKept(repr, first.steps, [], [Asked(answer)] + heard, resumed.steps, staged)
    requires paused.Some? ==> PairsKept(repr, resumed.steps, staged, now[|begun|..], report.steps, batch.commands)
    ensures Legs(limits, left, start, batch0, events + now[|before|..], report, paused, cancelled)
    ensures paused.Some? ==> batch == After(batch0, events + now[|before|..])
    ensures paused.Some? ==> PairsKept(repr, first.steps, [], now[|before|..], report.steps, batch.commands)
  {
    hide *;
    var rest := heard + now[|begun|..];
    MoreLegs(limits, left, start, batch0, events, first, early, answer, rest, report, paused, cancelled);
    TraceAsked(before, answer, heard, begun, now);
    StagedAgain(batch0, events, answer, rest);
    if paused.Some? {
      PairsChain(repr, first.steps, [], [Asked(answer)] + heard, resumed.steps, staged, now[|begun|..],
                 report.steps, batch.commands);
    }
  }

  lemma TraceAsked(before: seq<Event>, answer: PlanOutcome, events: seq<Event>, begun: seq<Event>, now: seq<Event>)
    requires begun == before + [Asked(answer)] + events && begun <= now
    ensures now[|before|..] == [Asked(answer)] + (events + now[|begun|..])
    ensures now[|before|..] == [Asked(answer)] + events + now[|begun|..]
  {
  }

  lemma RunNotBegun(limits: Limits, left: int, initialPlan: Option<seq<ToolCall>>, batch0: Batch, paused: Option<PausedState>)
    ensures RunExplained(limits, left, initialPlan, batch0, [], Report([], Cancelled, 0), paused, true)
  {
  }

  // ----- whose output a step receives -----

  /** A tool that returns a placeholder has staged the one command it tells of, and a
      tool that does not, or raises, has staged none. */
  ghost predicate OrderlyCall(repr: string -> string, outcome: ToolOutcome, staged: seq<string>) {
    if outcome.Returned? && IsPlaceholder(outcome.value)
    then |staged| == 1 && outcome.value == Str(Notice(repr(staged[0])))
    else staged == []
  }

  ghost predicate Orderly(repr: string -> string, events: seq<Event>) {
    forall i :: 0 <= i < |events| && events[i].Called? ==> OrderlyCall(repr, events[i].outcome, events[i].staged.commands)
  }

  lemma OrderlyParts(repr: string -> string, events: seq<Event>, more: seq<Event>)
    ensures Orderly(repr, events + more) <==> Orderly(repr, events) && Orderly(repr, more)
  {
    hide OrderlyCall;
    var all := events + more;
    assert forall i :: 0 <= i < |events| ==> all[i] == events[i];
    assert forall i :: 0 <= i < |more| ==> more[i] == all[|events| + i];
  }

  /** If the events are orderly, pairs stay pairs. */
  ghost predicate PairsKept(repr: string -> string, steps0: seq<Step>, staged0: seq<string>, events: seq<Event>,
                            steps: seq<Step>, staged: seq<string>) {
    Paired(repr, steps0, staged0) && Orderly(repr, events) ==> Paired(repr, steps, staged)
  }

  lemma PairsChain(repr: string -> string, steps0: seq<Step>, staged0: seq<string>, events: seq<Event>,
                   steps1: seq<Step>, staged1: seq<string>, more: seq<Event>, steps2: seq<Step>, staged2: seq<string>)
    requires PairsKept(repr, steps0, staged0, events, steps1, staged1)
    requires PairsKept(repr, steps1, staged1, more, steps2, staged2)
    ensures PairsKept(repr, steps0, staged0, events + more, steps2, staged2)
  {
    hide Paired, Orderly;
    OrderlyParts(repr, events, more);
  }

  /** Asking the planner stages nothing. */
  lemma PairsAsking(repr: string -> string, steps0: seq<Step>, staged0: seq<string>, events: seq<Event>, asked: seq<Event>,
                    steps: seq<Step>, staged: seq<string>)
    requires PairsKept(repr, steps0, staged0, events, steps, staged) && OnlyAsked(asked)
    ensures PairsKept(repr, steps0, staged0, events + asked, steps, staged)
    ensures PairsKept(repr, steps0, staged0, asked + events, steps, staged)
  {
    OrderlyParts(repr, events, asked);
    OrderlyParts(repr, asked, events);
    hide Paired, OrderlyCall;
  }

  lemma OrderlyOne(repr: string -> string, call: ToolCall, outcome: ToolOutcome, batch: Batch)
    ensures Orderly(repr, [Called(call, outcome, batch)]) <==> OrderlyCall(repr, outcome, batch.commands)
  {
    hide OrderlyCall;
    assert [Called(call, outcome, batch)][0] == Called(call, outcome, batch);
  }

  lemma PairedMore(repr: string -> string, steps: seq<Step>, staged: seq<string>, step: Step, shell: seq<string>)
    requires Paired(repr, steps, staged)
    requires IsPlaceholder(step.result) ==> |shell| == 1 && step.result == Str(Notice(repr(shell[0])))
    requires !IsPlaceholder(step.result) ==> shell == []
    ensures Paired(repr, steps + [step], staged + shell)
  {
    PlaceholdersAppend(steps, step);
    hide IsPlaceholder, Notice;
  }

  function StepAfter(iteration: int, call: ToolCall, outcome: ToolOutcome): Step {
    if outcome.Returned? then DoneStep(iteration, call, outcome.value) else FailedStep(iteration, call, outcome.message)
  }

  /** A tool call keeps the pairs, whether it is recorded or will be tried again. */
  lemma PairsAfterCall(repr: string -> string, steps: seq<Step>, staged: seq<string>, iteration: int, call: ToolCall,
                       outcome: ToolOutcome, batch: Batch)
    ensures PairsKept(repr, steps, staged, [Called(call, outcome, batch)],
                      steps + [StepAfter(iteration, call, outcome)], staged + batch.commands)
    ensures outcome.Raised? ==> PairsKept(repr, steps, staged, [Called(call, outcome, batch)], steps, staged + batch.commands)
  {
    var step := StepAfter(iteration, call, outcome);
    OrderlyOne(repr, call, outcome, batch);
    hide Paired, Orderly, Notice;
    assert staged + [] == staged;
    if Paired(repr, steps, staged) && OrderlyCall(repr, outcome, batch.commands) {
      PairedMore(repr, steps, staged, step, batch.commands);
    }
  }

  lemma PairsNoTool(repr: string -> string, steps0: seq<Step>, staged0: seq<string>, events: seq<Event>,
                    steps: seq<Step>, staged: seq<string>, step: Step)
    requires PairsKept(repr, steps0, staged0, events, steps, staged) && !IsPlaceholder(step.result)
    ensures PairsKept(repr, steps0, staged0, events, steps + [step], staged)
  {
    hide Paired, Orderly, IsPlaceholder;
    assert staged + [] == staged;
    if Paired(repr, steps, staged) {
      PairedMore(repr, steps, staged, step, []);
    }
  }

  lemma PairsStart(repr: string -> string, steps: seq<Step>, staged: seq<string>)
    ensures PairsKept(repr, steps, staged, [], steps, staged)
  {
  }

  /** A batch that ran through leaves no placeholder; after one that failed the
      placeholders and the commands are both still there. */
  lemma PairsAfterBatch(repr: string -> string, steps: seq<Step>, staged: seq<string>, run: BatchRun)
    requires Paired(repr, steps, staged) && RunOf(staged, run)
    requires run.failed.None? ==> forall k :: 0 <= k < |run.ran| ==> !IsPlaceholder(Str(run.ran[k]))
    ensures Paired(repr, FillSteps(steps, Outputs(run)), if run.failed.None? then [] else staged)
  {
    hide IsPlaceholder, Notice;
    if run.failed.None? {
      AllFilled(steps, run.ran);
    } else {
      NothingFilled(steps);
    }
  }

  /** From pause to pause: whether its batch ran through or failed and is staged again,
      the pairs are still pairs when the resumed run pauses. */
  lemma PairsThroughApproval(limits: Limits, repr: string -> string, left: int, state: PausedState, verifies: bool,
                             commands: seq<string>, run: BatchRun, events: seq<Event>, report: Report,
                             paused: Option<PausedState>, staged: Batch, cancelled: bool)
    requires Paired(repr, state.steps, commands) && RunOf(commands, run) && Orderly(repr, events)
    requires run.failed.None? ==> forall k :: 0 <= k < |run.ran| ==> !IsPlaceholder(Str(run.ran[k]))
    requires Resumption(limits, repr, left, Filled(state, Outputs(run)),
                        Leftover(commands, run), verifies, events, report, paused, staged, cancelled)
    requires paused.Some?
    ensures Paired(repr, report.steps, staged.commands)
  {
    hide Paired, Orderly, IsPlaceholder, ResumeExplained, RunOf, FillSteps, FillEntries, After;
    PairsAfterBatch(repr, state.steps, commands, run);
  }

  /** Once its batch has run through, a step that staged a command holds what that
      very command printed. */
  lemma OwnOutputRecorded(repr: string -> string, steps: seq<Step>, staged: seq<string>, run: BatchRun, i: nat)
    requires Paired(repr, steps, staged) && RunOf(staged, run) && run.failed.None?
    requires i < |steps| && IsPlaceholder(steps[i].result)
    ensures |FillSteps(steps, Outputs(run))| == |steps|
    ensures exists k :: 0 <= k < |staged| && steps[i].result == Str(Notice(repr(staged[k]))) &&
              Performed(staged, run)[k] == Ran(staged[k], Exited(run.ran[k])) &&
              FillSteps(steps, Outputs(run))[i].result == Str(run.ran[k])
  {
    OwnOutput(repr, steps, staged, run.ran, i);
    var k := PlaceholdersBefore(steps, i);
    assert Performed(staged, run)[k] == Ran(staged[k], Exited(run.ran[k]));
  }

  lemma ExplainedLater(limits: Limits, start: PausedState, batch0: Batch, events: seq<Event>, report: Report,
                       paused: Option<PausedState>, early: bool, cancelled: bool)
    requires Explained(limits, start, batch0, events, report, paused, early) && (early ==> cancelled)
    ensures Explained(limits, start, batch0, events, report, paused, cancelled)
  {
    hide Plays, Final, MayReplan, LastAnswer, AtNoTool, After, PauseOf;
    var turn, stop :| ExplainedBy(limits, start, batch0, events, report, paused, early, turn, stop);
    assert ExplainedBy(limits, start, batch0, events, report, paused, cancelled, turn, stop);
  }

  // ----- a failure with something staged -----

  lemma {:induction false} PlaysUnique(limits: Limits, start: Turn, events: seq<Event>, a: Turn, b: Turn)
    requires Plays(limits, start, events, a) && Plays(limits, start, events, b)
    ensures a == b
  {
    if events != [] {
      var front, last := events[..|events| - 1], events[|events| - 1];
      var before :| Plays(limits, start, front, before) && Moves(limits, before, last, a);
      var other :| Plays(limits, start, front, other) && Moves(limits, other, last, b);
      hide AfterCall, AfterAnswer, MayReplan;
      PlaysUnique(limits, start, front, before, other);
    }
  }

  lemma RefusedMayReplan(limits: Limits, start: Turn, events: seq<Event>, turn: Turn)
    requires Plays(limits, start, events, turn) && LastAnswer(events, PlanCancelled)
    ensures MayReplan(limits, turn)
  {
    hide MayReplan;
  }

  /** A step has failed, and no new plan can help or the planner has none. */
  predicate FailsForGood(limits: Limits, events: seq<Event>, turn: Turn) {
    turn.failed.Some? && (!MayReplan(limits, turn) || LastAnswer(events, PlanFailed))
  }

  /** A leg whose step fails for good reports the error exactly when nothing is staged.
      Otherwise it pauses, and is resumed with the steps behind the failed one. */
  lemma FailureReportedIff(limits: Limits, start: PausedState, batch0: Batch, events: seq<Event>, turn: Turn,
                           report: Report, paused: Option<PausedState>, cancelled: bool)
    requires Plays(limits, Turn(StartLeg(start), None), events, turn) && FailsForGood(limits, events, turn)
    requires Explained(limits, start, batch0, events, report, paused, cancelled)
    ensures report.steps == turn.leg.steps
    ensures report.stop == FatalError <==> After(batch0, events) == NONE_STAGED
    ensures report.stop != FatalError ==> report.stop == AwaitingApproval && paused == Some(StateOf(turn.leg))
  {
    hide Plays, MayReplan, StartLeg, After;
    var other, stop :| ExplainedBy(limits, start, batch0, events, report, paused, cancelled, other, stop);
    PlaysUnique(limits, Turn(StartLeg(start), None), events, turn, other);
    if LastAnswer(events, PlanCancelled) {
      RefusedMayReplan(limits, Turn(StartLeg(start), None), events, turn);
    }
  }

  /** A leg resumed with no steps left hears nothing and reports completion, whatever
      its last step came to. */
  lemma NothingLeftCompletes(limits: Limits, state: PausedState, events: seq<Event>, report: Report,
                             paused: Option<PausedState>, cancelled: bool)
    requires state.pending == []
    ensures Explained(limits, state, NONE_STAGED, events, report, paused, cancelled) <==>
            events == [] && report == Report(state.steps, CompletedRun, state.replansUsed) && paused.None?
  {
    var start := Turn(StartLeg(state), None);
    AfterNothing(NONE_STAGED);
    if Explained(limits, state, NONE_STAGED, events, report, paused, cancelled) {
      var turn, stop :| ExplainedBy(limits, state, NONE_STAGED, events, report, paused, cancelled, turn, stop);
      if events != [] {
        NoMoves(limits, start, events, turn);
        assert false;
      }
    }
    if events == [] && report == Report(state.steps, CompletedRun, state.replansUsed) && paused.None? {
      PlaysNothing(limits, state);
      EndsDone(limits, StartLeg(state), [], cancelled);
      assert ExplainedBy(limits, state, NONE_STAGED, [], report, None, cancelled, start, CompletedRun);
    }
  }

  lemma {:induction false} NoMoves(limits: Limits, start: Turn, events: seq<Event>, turn: Turn)
    requires Plays(limits, start, events, turn) && start.failed.None? && start.leg.pending == []
    ensures events == []
  {
    hide AfterCall, AfterAnswer;
    if events != [] {
      var front, last := events[..|events| - 1], events[|events| - 1];
      var before :| Plays(limits, start, front, before) && Moves(limits, before, last, turn);
      NoMoves(limits, start, front, before);
    }
  }

  /** An edit is staged, then the last step of the plan fails for good: the run does not
      report the error but pauses, and when approved it reports completion. */
  lemma FailureHidden(edit: ToolCall, bad: ToolCall, value: Value, change: PendingEdit, message: string,
                      report: Report, paused: Option<PausedState>, cancelled: bool,
                      outputs: seq<string>, final: Report, later: bool)
    requires edit.tool != "none" && bad.tool != "none"
    requires
      var limits, start := Limits(10, 0, 0), PausedState([edit, bad], [], [], 0, 0);
      var events := [Called(edit, Returned(value), Batch([change], [])), Called(bad, Raised(false, message), NONE_STAGED)];
      Explained(limits, start, NONE_STAGED, events, report, paused, cancelled)
    ensures report.stop == AwaitingApproval && paused.Some?
    ensures Explained(Limits(10, 0, 0), Filled(paused.value, outputs), NONE_STAGED, [], final, None, later) ==>
      final.stop == CompletedRun && |final.steps| == 2 && final.steps[1].error == Some(message)
  {
    hide Plays, Explained, After, FillSteps, FillEntries, StartLeg, MayReplan;
    var limits, start := Limits(10, 0, 0), PausedState([edit, bad], [], [], 0, 0);
    var events := [Called(edit, Returned(value), Batch([change], [])), Called(bad, Raised(false, message), NONE_STAGED)];
    var turn := EditThenFailure(edit, bad, value, change, message);
    FailureReportedIff(limits, start, NONE_STAGED, events, turn, report, paused, cancelled);
    FilledByRank(turn.leg.steps, outputs, 1);
    if Explained(limits, Filled(paused.value, outputs), NONE_STAGED, [], final, None, later) {
      NothingLeftCompletes(limits, Filled(paused.value, outputs), [], final, None, later);
    }
  }

  lemma EditThenFailure(edit: ToolCall, bad: ToolCall, value: Value, change: PendingEdit, message: string) returns (turn: Turn)
    requires edit.tool != "none" && bad.tool != "none"
    ensures
      var limits, start := Limits(10, 0, 0), PausedState([edit, bad], [], [], 0, 0);
      var events := [Called(edit, Returned(value), Batch([change], [])), Called(bad, Raised(false, message), NONE_STAGED)];
      && Plays(limits, Turn(StartLeg(start), None), events, turn) && FailsForGood(limits, events, turn)
      && After(NONE_STAGED, events) == Batch([change], [])
      && turn.leg.pending == [] && |turn.leg.steps| == 2 && turn.leg.steps[1].error == Some(message)
  {
    hide Plays, After;
    var limits, start := Limits(10, 0, 0), PausedState([edit, bad], [], [], 0, 0);
    var first := Called(edit, Returned(value), Batch([change], []));
    var second := Called(bad, Raised(false, message), NONE_STAGED);
    var turn0 := Turn(StartLeg(start), None);
    var turn1 := AfterCall(limits, turn0.leg, Returned(value));
    turn := AfterCall(limits, turn1.leg, Raised(false, message));
    assert [] + [first] == [first] && [first] + [second] == [first, second];
    PlaysNothing(limits, start);
    PlaysOn(limits, turn0, [], turn0, first, turn1);
    PlaysOn(limits, turn0, [first], turn1, second, turn);
    AfterNothing(NONE_STAGED);
    AfterCalled(NONE_STAGED, [], edit, Returned(value), first.staged);
    AfterCalled(NONE_STAGED, [first], bad, Raised(false, message), second.staged);
  }

  lemma PlaysOn(limits: Limits, start: Turn, events: seq<Event>, mid: Turn, event: Event, end: Turn)
    requires Plays(limits, start, events, mid) && Moves(limits, mid, event, end)
    ensures Plays(limits, start, events + [event], end)
  {
    hide Moves;
    assert (events + [event])[..|events|] == events;
  }

  lemma PlaysCall(limits: Limits, start: Turn, events: seq<Event>, leg: Leg, outcome: ToolOutcome, staged: Batch)
    requires Plays(limits, start, events, Turn(leg, None))
    requires leg.pending != [] && leg.pending[0].tool != "none" && leg.iteration < limits.maxIterations
    ensures Plays(limits, start, events + [Called(leg.pending[0], outcome, staged)], AfterCall(limits, leg, outcome))
  {
    hide AfterCall, Plays;
    PlaysOn(limits, start, events, Turn(leg, None), Called(leg.pending[0], outcome, staged), AfterCall(limits, leg, outcome));
  }

  lemma PlaysAnswer(limits: Limits, start: Turn, events: seq<Event>, turn: Turn, answer: PlanOutcome)
    requires Plays(limits, start, events, turn) && MayReplan(limits, turn)
    ensures Plays(limits, start, events + [Asked(answer)], AfterAnswer(turn, answer))
    ensures LastAnswer(events + [Asked(answer)], answer)
  {
    hide AfterAnswer, Plays, MayReplan;
    PlaysOn(limits, start, events, turn, Asked(answer), AfterAnswer(turn, answer));
  }

  lemma PlaysNothing(limits: Limits, start: PausedState)
    ensures Plays(limits, Turn(StartLeg(start), None), [], Turn(StartLeg(start), None))
  {
  }

  lemma EndsMax(limits: Limits, leg: Leg, events: seq<Event>, cancelled: bool)
    requires leg.pending != [] && leg.iteration >= limits.maxIterations
    ensures Ends(limits, Turn(leg, None), events, MaxIterations, cancelled)
    ensures Final(limits, Turn(leg, None), MaxIterations) == leg
  {
  }

  lemma EndsNoTool(limits: Limits, leg: Leg, events: seq<Event>, cancelled: bool)
    requires leg.pending != [] && leg.pending[0].tool == "none" && leg.iteration < limits.maxIterations
    ensures Ends(limits, Turn(leg, None), events, CompletedRun, cancelled)
    ensures Final(limits, Turn(leg, None), CompletedRun) == Recorded(leg, NoToolStep(leg.iteration + 1, leg.pending[0]))
  {
  }

  lemma EndsDone(limits: Limits, leg: Leg, events: seq<Event>, cancelled: bool)
    requires leg.pending == []
    ensures Ends(limits, Turn(leg, None), events, CompletedRun, cancelled)
    ensures Final(limits, Turn(leg, None), CompletedRun) == leg
  {
  }

  lemma EndsCancelled(limits: Limits, turn: Turn, events: seq<Event>, cancelled: bool)
    requires LastAnswer(events, PlanCancelled) ||
             (cancelled && if turn.failed.None? then CanCall(limits, turn.leg)
                           else MayReplan(limits, turn) && !LastAnswer(events, PlanFailed))
    ensures Ends(limits, turn, events, Cancelled, cancelled) && Final(limits, turn, Cancelled) == turn.leg
  {
  }

  lemma EndsFatal(limits: Limits, turn: Turn, events: seq<Event>, cancelled: bool)
    requires turn.failed.Some? && (!MayReplan(limits, turn) || LastAnswer(events, PlanFailed))
    ensures Ends(limits, turn, events, FatalError, cancelled) && Final(limits, turn, FatalError) == turn.leg
  {
  }

  lemma BoundsAnyStop(limits: Limits, steps0: seq<Step>, replans0: int, steps: seq<Step>, replansUsed: int,
                      completed: seq<Entry>)
    requires LegBounds(limits, steps0, replans0, Report(steps, FatalError, replansUsed), completed)
    ensures LegBounds(limits, steps0, replans0, Report(steps, Cancelled, replansUsed), completed)
  {
  }

  lemma MayReplanIs(limits: Limits, turn: Turn)
    ensures MayReplan(limits, turn) <==>
            turn.failed.Some? && CountOf(turn.leg.failedActions, turn.failed.value) < 2 &&
            turn.leg.replansUsed < limits.maxReplans
  {
  }

  lemma AfterCallIs(limits: Limits, leg: Leg, outcome: ToolOutcome)
    requires leg.pending != []
    ensures outcome.Returned? ==>
              AfterCall(limits, leg, outcome) == Turn(Recorded(leg, DoneStep(leg.iteration + 1, leg.pending[0], outcome.value)), None)
    ensures outcome.Raised? && outcome.transient && CountOf(leg.retryCounts, leg.pending[0].identity) < limits.maxRetries ==>
              AfterCall(limits, leg, outcome) == Turn(Retried(leg), None)
    ensures outcome.Raised? && !(outcome.transient && CountOf(leg.retryCounts, leg.pending[0].identity) < limits.maxRetries) ==>
              AfterCall(limits, leg, outcome) ==
              Turn(Recorded(leg, FailedStep(leg.iteration + 1, leg.pending[0], outcome.message)), Some(ActionOf(leg.pending[0])))
  {
  }

  /** A leg that keeps its invariant and is explained by the events so far. */
  ghost predicate OnTrack(limits: Limits, steps0: seq<Step>, replans0: int, turn0: Turn, events: seq<Event>, turn: Turn,
                          dispatched: nat, cap: nat) {
    LegInv(limits, steps0, replans0, turn.leg, dispatched, cap) && Plays(limits, turn0, events, turn)
  }

  lemma CallReturned(limits: Limits, steps0: seq<Step>, replans0: int, turn0: Turn, events: seq<Event>, leg: Leg,
                     dispatched: nat, value: Value, staged: Batch) returns (next: Leg)
    requires OnTrack(limits, steps0, replans0, turn0, events, Turn(leg, None), dispatched, 1) && CanCall(limits, leg)
    ensures OnTrack(limits, steps0, replans0, turn0, events + [Called(leg.pending[0], Returned(value), staged)], Turn(next, None),
                    dispatched + 1, 1)
    ensures var step := DoneStep(leg.iteration + 1, leg.pending[0], value);
      next == Leg(leg.pending[1..], leg.steps + [step], leg.completed + [EntryOf(step)], leg.replansUsed, leg.iteration + 1,
                  leg.retryCounts, leg.failedActions, 0)
  {
    hide LegInv, Plays, AfterCall, Recorded;
    var step := DoneStep(leg.iteration + 1, leg.pending[0], value);
    RecordKeeps(limits, steps0, replans0, leg, dispatched, step, 1);
    RecordedIs(leg, step);
    PlaysCall(limits, turn0, events, leg, Returned(value), staged);
    AfterCallIs(limits, leg, Returned(value));
    next := Recorded(leg, step);
  }

  lemma CallRetried(limits: Limits, steps0: seq<Step>, replans0: int, turn0: Turn, events: seq<Event>, leg: Leg,
                    dispatched: nat, outcome: ToolOutcome, staged: Batch) returns (next: Leg)
    requires OnTrack(limits, steps0, replans0, turn0, events, Turn(leg, None), dispatched, 1) && CanCall(limits, leg)
    requires outcome.Raised? && outcome.transient && CountOf(leg.retryCounts, leg.pending[0].identity) < limits.maxRetries
    ensures OnTrack(limits, steps0, replans0, turn0, events + [Called(leg.pending[0], outcome, staged)], Turn(next, None),
                    dispatched + 1, 1)
    ensures var id := leg.pending[0].identity;
      next == leg.(retryCounts := leg.retryCounts[id := CountOf(leg.retryCounts, id) + 1], tries := leg.tries + 1)
  {
    hide LegInv, Plays, AfterCall;
    RetryKeeps(limits, steps0, replans0, leg, dispatched);
    PlaysCall(limits, turn0, events, leg, outcome, staged);
    AfterCallIs(limits, leg, outcome);
    next := Retried(leg);
  }

  lemma CallFailed(limits: Limits, steps0: seq<Step>, replans0: int, turn0: Turn, events: seq<Event>, leg: Leg,
                   dispatched: nat, outcome: ToolOutcome, staged: Batch) returns (next: Leg)
    requires OnTrack(limits, steps0, replans0, turn0, events, Turn(leg, None), dispatched, 1) && CanCall(limits, leg)
    requires outcome.Raised? && !(outcome.transient && CountOf(leg.retryCounts, leg.pending[0].identity) < limits.maxRetries)
    ensures var turn := Turn(next, Some(ActionOf(leg.pending[0])));
      && OnTrack(limits, steps0, replans0, turn0, events + [Called(leg.pending[0], outcome, staged)], turn, dispatched + 1, 2)
      && (CountOf(next.failedActions, ActionOf(leg.pending[0])) < 2 ==>
            OnTrack(limits, steps0, replans0, turn0, events + [Called(leg.pending[0], outcome, staged)], turn, dispatched + 1, 1))
    ensures var action := ActionOf(leg.pending[0]);
      next == Leg(leg.pending[1..], leg.steps + [FailedStep(leg.iteration + 1, leg.pending[0], outcome.message)], leg.completed,
                  leg.replansUsed, leg.iteration + 1, leg.retryCounts,
                  leg.failedActions[action := CountOf(leg.failedActions, action) + 1], 0)
  {
    hide LegInv, Plays, AfterCall, Recorded;
    var step := FailedStep(leg.iteration + 1, leg.pending[0], outcome.message);
    RecordKeeps(limits, steps0, replans0, leg, dispatched, step, 1);
    RecordedIs(leg, step);
    PlaysCall(limits, turn0, events, leg, outcome, staged);
    AfterCallIs(limits, leg, outcome);
    next := Recorded(leg, step);
  }

  lemma PauseOfIs(leg: Leg, stop: StopReason)
    ensures PauseOf(leg, stop).steps == leg.steps && PauseOf(leg, stop).replansUsed == leg.replansUsed
  {
  }

  lemma Explains(limits: Limits, start: PausedState, batch0: Batch, events: seq<Event>, turn: Turn, stop: StopReason,
                 report: Report, paused: Option<PausedState>, cancelled: bool)
    requires Plays(limits, Turn(StartLeg(start), None), events, turn) && Ends(limits, turn, events, stop, cancelled)
    requires var leg := Final(limits, turn, stop);
      && report == Report(leg.steps, StopsWith(stop, After(batch0, events)), leg.replansUsed)
      && paused == if report.stop == AwaitingApproval then Some(PauseOf(leg, stop)) else None
    ensures Explained(limits, start, batch0, events, report, paused, cancelled)
  {
    hide Plays, Ends, Final, StartLeg, After, StopsWith, PauseOf;
    assert ExplainedBy(limits, start, batch0, events, report, paused, cancelled, turn, stop);
  }

  class AutonomousExecutor {
    const workspace: Workspace
    const patches: Manager
    const commands: CommandManager
    const limits: Limits
    const hasVerifier: bool
    const hasReflection: bool
    const reflectionLimit: int
    /** How a shell tool writes a command it has staged, in what it returns. */
    ghost const repr: string -> string

    var paused: Option<PausedState>
    var cancelled: bool
    var preview: bool
    var lastCompleted: seq<Entry>
    var reflections: nat
    /** Tool dispatches since `Run` was last called. */
    ghost var dispatched: nat
    /** All that has been heard from tools and planner. */
    ghost var trace: seq<Event>

    constructor (workspace: Workspace, limits: Limits, hasVerifier: bool, hasReflection: bool, reflectionLimit: int,
                 ghost repr: string -> string)
      ensures Valid() && Gate() && this.workspace == workspace && this.limits == limits
      ensures fresh(patches) && fresh(commands) && paused.None? && !preview
    {
      this.workspace := workspace;
      this.patches := new Manager(workspace);
      this.commands := new CommandManager(workspace);
      this.limits, this.repr := limits, repr;
      this.hasVerifier, this.hasReflection, this.reflectionLimit := hasVerifier, hasReflection, reflectionLimit;
      paused, cancelled, preview, lastCompleted, reflections, dispatched, trace := None, false, false, [], 0, 0, [];
    }

    /** Holds between public calls, whatever happened in them. */
    ghost predicate Valid()
      reads this
    {
      && patches.workspace == workspace && commands.workspace == workspace
      && (paused.Some? ==> GoodPause(limits, paused.value) && dispatched <= Allowance(limits, |paused.value.steps|))
    }

    /** What is waiting for approval. */
    function Staged(): Batch
      reads patches, commands
    {
      Batch(patches.pending, commands.pending)
    }

    /** Nothing is waiting for approval. */
    predicate NothingStaged()
      reads patches, commands
    {
      patches.pending == [] && commands.pending == []
    }

    /** Paused exactly while something is waiting for approval. */
    predicate Gate()
      reads this, patches, commands
    {
      paused.Some? <==> !NothingStaged()
    }

    /** One more than the replans reflection may still ask for in this task. */
    function ReflectionsLeft(): int
      reads this
    {
      if hasReflection then reflectionLimit - reflections else 0
    }

    /** The world outside is as it was. */
    twostate predicate WorldUnchanged()
      reads workspace
    {
      workspace.files == old(workspace.files) && workspace.log == old(workspace.log)
    }

    /** `cancel()`: may be called at any time by any thread. */
    method Cancel()
      modifies this`cancelled
      ensures cancelled
    {
      cancelled := true;
    }

    /** `is_cancelled()`: another thread may have asked since the last look. */
    method IsCancelled() returns (r: bool)
      modifies this`cancelled
      ensures r == cancelled && (old(cancelled) ==> cancelled)
    {
      var asked: bool := *;
      cancelled := cancelled || asked;
      r := cancelled;
    }

    method Stage(batch: Batch)
      modifies patches, commands
      ensures patches.pending == old(patches.pending) + batch.edits
      ensures commands.pending == old(commands.pending) + batch.commands
    {
      for i := 0 to |batch.edits|
        invariant patches.pending == old(patches.pending) + batch.edits[..i] && commands.pending == old(commands.pending)
      {
        patches.Propose(batch.edits[i]);
        assert batch.edits[..i + 1] == batch.edits[..i] + [batch.edits[i]];
      }
      assert batch.edits[..|batch.edits|] == batch.edits;
      for i := 0 to |batch.commands|
        invariant patches.pending == old(patches.pending) + batch.edits
        invariant commands.pending == old(commands.pending) + batch.commands[..i]
      {
        commands.Propose(batch.commands[i]);
        assert batch.commands[..i + 1] == batch.commands[..i] + [batch.commands[i]];
      }
      assert batch.commands[..|batch.commands|] == batch.commands;
    }

    /** One tool call. Editing and shell tools stage their work in preview mode and
        do it at once otherwise; either may happen before the tool raises. */
    method Dispatch(call: ToolCall) returns (outcome: ToolOutcome, ghost staged: Batch)
      modifies this`dispatched, this`trace, workspace, patches, commands
      ensures preview ==> WorldUnchanged()
      ensures dispatched == old(dispatched) + 1 && trace == old(trace) + [Called(call, outcome, staged)]
      ensures Staged() == Batch(old(patches.pending) + staged.edits, old(commands.pending) + staged.commands)
    {
      var batch: Batch := *;
      staged := NONE_STAGED;
      if preview {
        Stage(batch);
        staged := batch;
      } else {
        ghost var effects: seq<Effect> := *;
        workspace.files := *;
        workspace.log := workspace.log + effects;
      }
      dispatched := dispatched + 1;
      outcome := *;
      trace := trace + [Called(call, outcome, staged)];
    }

    /** Asks the planner for a plan. */
    method AskPlanner() returns (answer: PlanOutcome)
      modifies this`trace
      ensures trace == old(trace) + [Asked(answer)]
    {
      answer := *;
      trace := trace + [Asked(answer)];
    }

    /** Pauses, keeping all that is needed to resume, if anything is staged. */
    method CheckAwaitingApproval(pending: seq<ToolCall>, steps: seq<Step>, completed: seq<Entry>,
                                 replansUsed: int, iteration: int) returns (r: Option<Report>)
      requires Valid() && paused.None?
      requires GoodPause(limits, PausedState(pending, steps, completed, replansUsed, iteration))
      requires dispatched <= Allowance(limits, |steps|)
      modifies this`paused
      ensures Valid() && Gate()
      ensures r.Some? <==> paused.Some?
      ensures r.Some? ==>
        r.value == Report(steps, AwaitingApproval, replansUsed) &&
        paused.value == PausedState(pending, steps, completed, replansUsed, iteration)
    {
      if patches.pending == [] && commands.pending == [] {
        return None;
      }
      paused := Some(PausedState(pending, steps, completed, replansUsed, iteration));
      return Some(Report(steps, AwaitingApproval, replansUsed));
    }

    /** How a leg of execution may end. */
    ghost predicate LegEnd(report: Report, steps0: seq<Step>, replans0: int)
      reads this, patches, commands
    {
      && Valid()
      && LegBounds(limits, steps0, replans0, report, lastCompleted)
      && (report.stop == AwaitingApproval <==> paused.Some?)
      && (paused.Some? ==> paused.value.steps == report.steps && paused.value.replansUsed == report.replansUsed)
      && report.stop != Rejected
      && (report.stop != Cancelled ==> Gate() && dispatched <= Allowance(limits, |report.steps|))
      && dispatched <= Allowance(limits, AtLeast0(limits.maxIterations))
    }

    lemma CancelledEnd(report: Report, steps0: seq<Step>, replans0: int)
      requires Valid() && paused.None? && report.stop == Cancelled
      requires LegBounds(limits, steps0, replans0, report, lastCompleted)
      requires dispatched <= Allowance(limits, AtLeast0(limits.maxIterations))
      ensures LegEnd(report, steps0, replans0)
    {
      hide LegBounds, Allowance;
    }

    /** Stops for the given reason, or pauses instead if anything is staged. */
    method AwaitOr(pending: seq<ToolCall>, steps: seq<Step>, completed: seq<Entry>, replansUsed: int, iteration: int,
                   stop: StopReason, ghost steps0: seq<Step>, ghost replans0: int,
                   ghost start: PausedState, ghost batch0: Batch, ghost events: seq<Event>, ghost turn: Turn)
      returns (report: Report)
      requires Valid() && paused.None? && completed == lastCompleted
      requires stop in {CompletedRun, MaxIterations, FatalError}
      requires GoodPause(limits, PausedState(pending, steps, completed, replansUsed, iteration))
      requires LegBounds(limits, steps0, replans0, Report(steps, stop, replansUsed), completed)
      requires dispatched <= Allowance(limits, |steps|)
      requires Plays(limits, Turn(StartLeg(start), None), events, turn) && Ends(limits, turn, events, stop, cancelled)
      requires PauseOf(Final(limits, turn, stop), stop) == PausedState(pending, steps, completed, replansUsed, iteration)
      requires Staged() == After(batch0, events)
      modifies this`paused
      ensures LegEnd(report, steps0, replans0) && report.steps == steps
      ensures Explained(limits, start, batch0, events, report, paused, cancelled)
    {
      hide GoodHistory, Allowance, Failures, Continues, Plays, Ends, Final, StartLeg, Explained, GoodPause, After;
      AllowanceGrows(limits, |steps|, AtLeast0(limits.maxIterations));
      var awaiting := CheckAwaitingApproval(pending, steps, completed, replansUsed, iteration);
      report := if awaiting.Some? then awaiting.value else Report(steps, stop, replansUsed);
      PauseOfIs(Final(limits, turn, stop), stop);
      Explains(limits, start, batch0, events, turn, stop, report, paused, cancelled);
    }

    /** After a failure that is no longer retried: stops, or gets a new plan. `failures`
        counts how often the action has failed. */
    method PlanAgain(pending: seq<ToolCall>, steps: seq<Step>, completed: seq<Entry>, replansUsed: int, iteration: int,
                     failures: nat, ghost steps0: seq<Step>, ghost replans0: int,
                     ghost start: PausedState, ghost batch0: Batch, ghost events: seq<Event>, ghost turn: Turn)
      returns (stopped: Option<Report>, plan: seq<ToolCall>, ghost asked: seq<Event>)
      requires Valid() && paused.None? && completed == lastCompleted
      requires GoodPause(limits, PausedState(pending, steps, completed, replansUsed, iteration))
      requires LegBounds(limits, steps0, replans0, Report(steps, FatalError, replansUsed), completed)
      requires dispatched <= Allowance(limits, |steps|)
      requires Plays(limits, Turn(StartLeg(start), None), events, turn)
      requires StateOf(turn.leg) == PausedState(pending, steps, completed, replansUsed, iteration)
      requires !LastAnswer(events, PlanFailed)
      requires Staged() == After(batch0, events)
      requires turn.failed.Some? && failures == CountOf(turn.leg.failedActions, turn.failed.value)
      modifies this`paused, this`cancelled, this`trace
      ensures trace == old(trace) + asked && (old(cancelled) ==> cancelled)
      ensures OnlyAsked(asked)
      ensures stopped.Some? ==>
        LegEnd(stopped.value, steps0, replans0) && stopped.value.steps == steps &&
        Explained(limits, start, batch0, events + asked, stopped.value, paused, cancelled)
      ensures stopped.None? ==>
        Valid() && paused.None? && failures < 2 && replansUsed < limits.maxReplans &&
        Plays(limits, Turn(StartLeg(start), None), events + asked,
              Turn(turn.leg.(pending := plan, replansUsed := replansUsed + 1), None))
    {
      hide GoodHistory, Allowance, Failures, Continues, Plays, Ends, Final, StartLeg, Explained, GoodPause, LegBounds;
      hide MayReplan, LastAnswer, CountOf, After;
      PauseFacts(limits, PausedState(pending, steps, completed, replansUsed, iteration));
      AllowanceGrows(limits, |steps|, AtLeast0(limits.maxIterations));
      BoundsAnyStop(limits, steps0, replans0, steps, replansUsed, completed);
      asked, plan := [], [];
      assert events + [] == events;
      MayReplanIs(limits, turn);
      if failures >= 2 || replansUsed >= limits.maxReplans {
        EndsFatal(limits, turn, events, cancelled);
        var report := AwaitOr(pending, steps, completed, replansUsed, iteration, FatalError, steps0, replans0,
                              start, batch0, events, turn);
        return Some(report), [], [];
      }
      var stopping := IsCancelled();
      if stopping {
        var report := Report(steps, Cancelled, replansUsed);
        EndsCancelled(limits, turn, events, cancelled);
        Explains(limits, start, batch0, events, turn, Cancelled, report, paused, cancelled);
        return Some(report), [], [];
      }
      var revised := AskPlanner();
      PlaysAnswer(limits, Turn(StartLeg(start), None), events, turn, revised);
      asked := [Asked(revised)];
      AfterAsking(batch0, events, asked);
      match revised
      case PlanCancelled =>
        var report := Report(steps, Cancelled, replansUsed);
        EndsCancelled(limits, turn, events + asked, cancelled);
        Explains(limits, start, batch0, events + asked, turn, Cancelled, report, paused, cancelled);
        return Some(report), [], asked;
      case PlanFailed =>
        EndsFatal(limits, turn, events + asked, cancelled);
        var report := AwaitOr(pending, steps, completed, replansUsed, iteration, FatalError, steps0, replans0,
                              start, batch0, events + asked, turn);
        return Some(report), [], asked;
      case Planned(newPlan) =>
        return None, newPlan, asked;
    }

    /** Makes the call at the front, and does what its outcome asks for: record it, try it
        again, or record the failure and get a new plan. */
    method CallTool(leg: Leg, ghost steps0: seq<Step>, ghost replans0: int, ghost start: PausedState,
                    ghost batch0: Batch, ghost events: seq<Event>)
      returns (stopped: Option<Report>, next: Leg, ghost heard: seq<Event>)
      requires Valid() && preview && paused.None? && lastCompleted == leg.completed && CanCall(limits, leg)
      requires OnTrack(limits, steps0, replans0, Turn(StartLeg(start), None), events, Turn(leg, None), dispatched, 1)
      requires Staged() == After(batch0, events)
      modifies this, workspace, patches, commands
      ensures WorldUnchanged() && preview && reflections == old(reflections) && (old(cancelled) ==> cancelled)
      ensures trace == old(trace) + heard && Staged() == After(batch0, events + heard)
      ensures stopped.Some? ==>
        LegEnd(stopped.value, steps0, replans0) && NoThirdFailure(steps0, stopped.value.steps) &&
        Explained(limits, start, batch0, events + heard, stopped.value, paused, cancelled) &&
        PairsKept(repr, leg.steps, old(commands.pending), heard, stopped.value.steps, commands.pending)
      ensures stopped.None? ==>
        Valid() && paused.None? && lastCompleted == next.completed &&
        OnTrack(limits, steps0, replans0, Turn(StartLeg(start), None), events + heard, Turn(next, None), dispatched, 1) &&
        PairsKept(repr, leg.steps, old(commands.pending), heard, next.steps, commands.pending) &&
        (next.iteration == leg.iteration + 1 ||
         (next.iteration == leg.iteration && next.pending == leg.pending &&
          CountOf(leg.retryCounts, leg.pending[0].identity) < limits.maxRetries &&
          CountOf(next.retryCounts, leg.pending[0].identity) == CountOf(leg.retryCounts, leg.pending[0].identity) + 1))
    {
      hide LegInv, LegBounds, NoThirdFailure, GoodPause, Allowance, Plays, Explained, Continues, LegEnd, Gate, NothingStaged;
      hide PairsKept, Paired, Orderly, OrderlyCall, GoodHistory, IsPlaceholder, FailuresKept, RetriesKept, Failures, After;
      var call := leg.pending[0];
      var outcome;
      ghost var staged;
      outcome, staged := Dispatch(call);
      heard := [Called(call, outcome, staged)];
      AfterCalled(batch0, events, call, outcome, staged);
      PairsAfterCall(repr, leg.steps, old(commands.pending), leg.iteration + 1, call, outcome, staged);
      stopped, next := None, leg;
      if outcome.Raised? {
        if outcome.transient && CountOf(leg.retryCounts, call.identity) < limits.maxRetries {
          next := leg.(retryCounts := leg.retryCounts[call.identity := CountOf(leg.retryCounts, call.identity) + 1],
                       tries := leg.tries + 1);
          ghost var _ := CallRetried(limits, steps0, replans0, Turn(StartLeg(start), None), events, leg, dispatched - 1,
                                     outcome, staged);
          return;
        }
        var action, iteration := ActionOf(call), leg.iteration + 1;
        var steps := leg.steps + [FailedStep(iteration, call, outcome.message)];
        var failures := CountOf(leg.failedActions, action) + 1;
        next := Leg(leg.pending[1..], steps, leg.completed, leg.replansUsed, iteration, leg.retryCounts,
                    leg.failedActions[action := failures], 0);
        ghost var _ := CallFailed(limits, steps0, replans0, Turn(StartLeg(start), None), events, leg, dispatched - 1,
                                  outcome, staged);
        LegStops(limits, steps0, replans0, next, dispatched, 2, FatalError);
        ghost var called, asked := heard, [];
        var plan;
        stopped, plan, asked := PlanAgain(next.pending, steps, next.completed, next.replansUsed, iteration, failures,
                                          steps0, replans0, start, batch0, events + called, Turn(next, Some(action)));
        heard := called + asked;
        assert events + heard == events + called + asked;
        AfterAsking(batch0, events + called, asked);
        PairsAsking(repr, leg.steps, old(commands.pending), called, asked, steps, commands.pending);
        if stopped.None? {
          ReplanKeeps(limits, steps0, replans0, next, dispatched, plan);
          next := next.(pending := plan, replansUsed := next.replansUsed + 1);
        }
      } else {
        var step := DoneStep(leg.iteration + 1, call, outcome.value);
        ghost var _ := CallReturned(limits, steps0, replans0, Turn(StartLeg(start), None), events, leg, dispatched - 1,
                                    outcome.value, staged);
        next := leg.(pending := leg.pending[1..], steps := leg.steps + [step], completed := leg.completed + [EntryOf(step)],
                     iteration := leg.iteration + 1, tries := 0);
        lastCompleted := next.completed;
      }
    }

    /** The core loop, from the given state until it stops or pauses. Its variables are
        the fields of `leg`. */
    method Execute(start: PausedState) returns (report: Report, ghost events: seq<Event>)
      requires Valid() && preview && paused.None? && GoodPause(limits, start)
      requires dispatched <= Allowance(limits, |start.steps|)
      modifies this, workspace, patches, commands
      ensures LegEnd(report, start.steps, start.replansUsed) && NoThirdFailure(start.steps, report.steps) && WorldUnchanged()
      ensures preview && reflections == old(reflections) && (old(cancelled) ==> cancelled)
      ensures trace == old(trace) + events && Explained(limits, start, old(Staged()), events, report, paused, cancelled)
      ensures Staged() == After(old(Staged()), events)
      ensures PairsKept(repr, start.steps, old(commands.pending), events, report.steps, commands.pending)
    {
      hide PairsKept, IsPlaceholder, After;
      hide LegInv, LegBounds, NoThirdFailure, GoodPause, Allowance, Counted, Plays, Explained, Ends, Final, LegEnd, Recorded;
      ghost var steps0, replans0, batch0 := start.steps, start.replansUsed, Staged();
      var leg := StartLeg(start);
      lastCompleted := leg.completed;
      events := [];
      LegStart(limits, start, dispatched);
      PlaysNothing(limits, start);
      AfterNothing(batch0);
      PairsStart(repr, steps0, commands.pending);
      while leg.pending != []
        invariant Valid() && preview && paused.None? && WorldUnchanged() && lastCompleted == leg.completed
        invariant reflections == old(reflections) && (old(cancelled) ==> cancelled)
        invariant trace == old(trace) + events && Staged() == After(batch0, events)
        invariant OnTrack(limits, steps0, replans0, Turn(StartLeg(start), None), events, Turn(leg, None), dispatched, 1)
        invariant PairsKept(repr, steps0, old(commands.pending), events, leg.steps, commands.pending)
        decreases AtLeast0(limits.maxIterations - leg.iteration),
          if leg.pending == [] then 0 else AtLeast0(limits.maxRetries - CountOf(leg.retryCounts, leg.pending[0].identity))
      {
        var iteration := leg.iteration + 1;
        if iteration > limits.maxIterations {
          LegStops(limits, steps0, replans0, leg, dispatched, 1, MaxIterations);
          EndsMax(limits, leg, events, cancelled);
          report := AwaitOr(leg.pending, leg.steps, leg.completed, leg.replansUsed, iteration, MaxIterations,
                            steps0, replans0, start, batch0, events, Turn(leg, None));
          return;
        }
        if leg.pending[0].tool == "none" {
          var step := NoToolStep(iteration, leg.pending[0]);
          RecordKeeps(limits, steps0, replans0, leg, dispatched, step, 0);
          RecordedIs(leg, step);
          PairsNoTool(repr, steps0, old(commands.pending), events, leg.steps, commands.pending, step);
          LegStops(limits, steps0, replans0, Recorded(leg, step), dispatched, 1, CompletedRun);
          EndsNoTool(limits, leg, events, cancelled);
          report := AwaitOr(leg.pending[1..], leg.steps + [step], leg.completed, leg.replansUsed, iteration, CompletedRun,
                            steps0, replans0, start, batch0, events, Turn(leg, None));
          return;
        }
        var stopping := IsCancelled();
        if stopping {
          LegStops(limits, steps0, replans0, leg, dispatched, 1, Cancelled);
          EndsCancelled(limits, Turn(leg, None), events, cancelled);
          report := Report(leg.steps, Cancelled, leg.replansUsed);
          CancelledEnd(report, steps0, replans0);
          Explains(limits, start, batch0, events, Turn(leg, None), Cancelled, report, paused, cancelled);
          return;
        }
        var stopped, next;
        ghost var heard, staged := [], commands.pending;
        stopped, next, heard := CallTool(leg, steps0, replans0, start, batch0, events);
        assert old(trace) + events + heard == old(trace) + (events + heard);
        PairsChain(repr, steps0, old(commands.pending), events, leg.steps, staged, heard,
                   if stopped.Some? then stopped.value.steps else next.steps, commands.pending);
        events := events + heard;
        if stopped.Some? {
          report := stopped.value;
          return;
        }
        leg := next;
      }
      LegFinished(limits, steps0, replans0, leg, dispatched);
      LegStops(limits, steps0, replans0, leg, dispatched, 1, CompletedRun);
      EndsDone(limits, leg, events, cancelled);
      report := AwaitOr(leg.pending, leg.steps, leg.completed, leg.replansUsed, leg.iteration, CompletedRun,
                        steps0, replans0, start, batch0, events, Turn(leg, None));
    }

    /** What a report from a public call guarantees. */
    ghost predicate CallEnd(report: Report, steps0: seq<Step>, replans0: int)
      reads this, patches, commands
    {
      && Valid() && Gate()
      && GoodHistory(report.steps, lastCompleted)
      && |report.steps| <= AtLeast0(limits.maxIterations) && Continues(steps0, report.steps)
      && replans0 <= report.replansUsed <= AtLeast0(limits.maxReplans)
      && (report.stop == AwaitingApproval <==> paused.Some?)
      && (paused.Some? ==> paused.value.steps == report.steps && paused.value.replansUsed == report.replansUsed)
      && report.stop != Rejected
      && dispatched <= Allowance(limits, AtLeast0(limits.maxIterations))
    }

    /** Drops everything staged and leaves preview mode. */
    method DropStaged()
      requires Valid() && paused.None?
      modifies this`preview, patches, commands
      ensures Valid() && NothingStaged() && Gate()
    {
      var files := patches.DiscardAll();
      var shell := commands.DiscardAll();
      preview := false;
    }

    /** Ends a leg: a pause is reported as it is; anything else may be reflected on
        and replanned, and finally drops whatever is still staged. */
    method FinishOrPause(report: Report, ghost steps0: seq<Step>, ghost replans0: int,
                         ghost start: PausedState, ghost batch0: Batch, ghost events: seq<Event>) returns (r: Report)
      requires LegEnd(report, steps0, replans0) && preview && 0 <= replans0
      requires Explained(limits, start, batch0, events, report, paused, cancelled) && Staged() == After(batch0, events)
      modifies this, workspace, patches, commands
      ensures CallEnd(r, steps0, replans0) && Valid() && Gate() && WorldUnchanged() && (old(cancelled) ==> cancelled)
      ensures report.stop == AwaitingApproval ==> r == report && paused == old(paused)
      ensures old(trace) <= trace &&
        Legs(limits, old(ReflectionsLeft()), start, batch0, events + trace[|old(trace)|..], r, paused, cancelled)
      ensures paused.Some? ==> Staged() == After(batch0, events + trace[|old(trace)|..])
      ensures paused.Some? ==>
        PairsKept(repr, report.steps, old(commands.pending), trace[|old(trace)|..], r.steps, commands.pending)
      decreases AtLeast0(limits.maxReplans - report.replansUsed)
    {
      hide GoodHistory, Continues, Failures, Allowance, GoodPause, Explained, Legs, PairsKept, Following;
      hide NoThirdFailure, Paired, Orderly, Reflected, Completed, After;
      ghost var early, inOneLeg := cancelled, true;
      assert trace[|trace|..] == [];
      assert events + [] == events;
      if report.stop == AwaitingApproval {
        OneLeg(limits, ReflectionsLeft(), start, batch0, events, report, paused, early, cancelled);
        PairsStart(repr, report.steps, commands.pending);
        return report;
      }
      var stopping := IsCancelled();
      if hasReflection && report.stop in {CompletedRun, MaxIterations} && !stopping {
        var shouldReplan: bool := *;
        reflections := reflections + 1;
        if shouldReplan && report.replansUsed < limits.maxReplans && reflections < reflectionLimit {
          stopping := IsCancelled();
          if !stopping {
            var resumed;
            ghost var answer, heard;
            resumed, answer, heard := ReplanFromReflection(report);
            if resumed.Some? {
              ghost var begun, staged := trace, commands.pending;
              LegFollows(limits, steps0, replans0, report, resumed.value, lastCompleted);
              r := FinishOrPause(resumed.value, steps0, replans0, Following(report, answer.plan), NONE_STAGED, heard);
              ReflectedRun(limits, old(ReflectionsLeft()), repr, start, batch0, events, report, early, answer, heard, resumed.value,
                           staged, old(trace), begun, trace, r, Staged(), paused, cancelled);
              return;
            }
            MoreLegs(limits, old(ReflectionsLeft()), start, batch0, events, report, early, answer, [], report, paused, cancelled);
            assert trace[|old(trace)|..] == [Asked(answer)] + [];
            inOneLeg := false;
          }
        }
      }
      if inOneLeg {
        OneLeg(limits, old(ReflectionsLeft()), start, batch0, events, report, paused, early, cancelled);
      }
      DropStaged();
      return report;
    }

    /** Asks for a new plan for what is missing, and runs it as another leg. */
    method ReplanFromReflection(report: Report)
      returns (r: Option<Report>, ghost answer: PlanOutcome, ghost events: seq<Event>)
      requires Valid() && preview && NothingStaged() && paused.None?
      requires GoodHistory(report.steps, lastCompleted) && |report.steps| <= AtLeast0(limits.maxIterations)
      requires 0 <= report.replansUsed < limits.maxReplans && dispatched <= Allowance(limits, |report.steps|)
      modifies this, workspace, patches, commands
      ensures WorldUnchanged() && preview && (old(cancelled) ==> cancelled) && reflections == old(reflections)
      ensures trace == old(trace) + [Asked(answer)] + events
      ensures r.Some? <==> Usable(answer)
      ensures r.None? ==>
        events == [] && Valid() && NothingStaged() && paused.None? && cancelled == old(cancelled) &&
        lastCompleted == old(lastCompleted) && dispatched == old(dispatched)
      ensures r.Some? ==>
        LegEnd(r.value, report.steps, report.replansUsed + 1) &&
        Explained(limits, Following(report, answer.plan), NONE_STAGED, events, r.value, paused, cancelled) &&
        Staged() == After(NONE_STAGED, events) &&
        PairsKept(repr, report.steps, [], [Asked(answer)] + events, r.value.steps, commands.pending)
    {
      hide Failures, Allowance, Explained, PairsKept, Quiet, Completed, After;
      var revised := AskPlanner();
      answer, events := revised, [];
      if !revised.Planned? || revised.plan == [] {
        return None, answer, [];
      }
      preview := true;
      var resumed;
      resumed, events := Execute(PausedState(revised.plan, report.steps, lastCompleted, report.replansUsed + 1, |report.steps|));
      PairsAsking(repr, report.steps, [], events, [Asked(answer)], resumed.steps, commands.pending);
      return Some(resumed), answer, events;
    }

    /** Runs a plan from the given state, and ends or pauses. */
    method Continue(start: PausedState) returns (report: Report)
      requires Valid() && preview && paused.None? && GoodPause(limits, start) && dispatched <= Allowance(limits, |start.steps|)
      modifies this, workspace, patches, commands
      ensures Valid() && WorldUnchanged() && Gate() && (old(cancelled) ==> cancelled)
      ensures CallEnd(report, start.steps, start.replansUsed)
      ensures old(trace) <= trace &&
        Legs(limits, old(ReflectionsLeft()), start, old(Staged()), trace[|old(trace)|..], report, paused, cancelled)
      ensures paused.Some? ==> Staged() == After(old(Staged()), trace[|old(trace)|..])
      ensures paused.Some? ==>
        PairsKept(repr, start.steps, old(commands.pending), trace[|old(trace)|..], report.steps, commands.pending)
    {
      hide LegBounds, GoodPause, GoodHistory, Continues, Allowance, NoThirdFailure;
      hide Explained, Legs, PairsKept, Paired, Orderly, After;
      PauseFacts(limits, start);
      var leg;
      ghost var events;
      leg, events := Execute(start);
      ghost var mid, between := trace, commands.pending;
      report := FinishOrPause(leg, start.steps, start.replansUsed, start, old(Staged()), events);
      assert trace[|old(trace)|..] == events + trace[|mid|..];
      if paused.Some? {
        PairsChain(repr, start.steps, old(commands.pending), events, leg.steps, between, trace[|mid|..],
                   report.steps, commands.pending);
      }
    }

    /** The plan to begin with: the given one, if it is valid, or one the planner makes. */
    method OpeningPlan(initialPlan: Option<seq<ToolCall>>) returns (planning: PlanOutcome)
      modifies this`trace
      ensures trace == old(trace) + [Asked(planning)]
      ensures initialPlan.Some? ==> planning in {Planned(initialPlan.value), PlanFailed}
    {
      if initialPlan.None? {
        planning := AskPlanner();
      } else {
        var accepted: bool := *;
        planning := if accepted then Planned(initialPlan.value) else PlanFailed;
        trace := trace + [Asked(planning)];
      }
    }

    /** Plans and executes a task. */
    method Run(initialPlan: Option<seq<ToolCall>>) returns (r: Outcome)
      requires Valid()
      modifies this, workspace, patches, commands
      ensures Valid() && WorldUnchanged() && (old(Gate()) ==> Gate())
      ensures r == AlreadyPaused || r.Reported?
      ensures r == AlreadyPaused <==> old(paused.Some?)
      ensures r == AlreadyPaused ==>
        paused == old(paused) && trace == old(trace) && unchanged(patches) && unchanged(commands)
      ensures r.Reported? ==>
        |r.report.steps| <= AtLeast0(limits.maxIterations) &&
        (r.report.stop == AwaitingApproval <==> paused.Some?) && r.report.stop != Rejected &&
        (paused.Some? ==> !NothingStaged() && paused.value.steps == r.report.steps) &&
        (old(Gate()) && r.report.stop != AwaitingApproval ==> NothingStaged()) &&
        dispatched <= Allowance(limits, AtLeast0(limits.maxIterations))
      // The replan budget is kept, unless planning fails when it is empty.
      ensures r.Reported? ==> 0 <= r.report.replansUsed
      ensures r.Reported? ==>
        (r.report.replansUsed > AtLeast0(limits.maxReplans) <==>
         limits.maxReplans <= 0 && |trace| > |old(trace)| && trace[|old(trace)|] == Asked(PlanFailed))
      ensures r.Reported? ==>
        old(trace) <= trace &&
        RunExplained(limits, if hasReflection then reflectionLimit else 0, initialPlan, old(Staged()),
                     trace[|old(trace)|..], r.report, paused, cancelled)
      ensures r.Reported? ==> RunWaits(old(Now()), Now(), Some(r))
      ensures r.Reported? && paused.Some? ==>
        PairsKept(repr, [], old(commands.pending), trace[|old(trace)|..], r.report.steps, commands.pending)
    {
      hide Continues, Failures, Explained, Legs, RunExplained, GoodHistory, Allowance, GoodPause, PairsKept, After;
      if paused.Some? {
        return AlreadyPaused;
      }
      reflections, dispatched, preview := 0, 0, true;
      NothingDone(limits);
      var stopping := IsCancelled();
      if stopping {
        RunNotBegun(limits, ReflectionsLeft(), initialPlan, Staged(), paused);
        AfterNothing(Staged());
        assert trace[|old(trace)|..] == [];
        return Reported(Report([], Cancelled, 0));
      }
      var planning := OpeningPlan(initialPlan);
      ghost var begun, staged, left := trace, commands.pending, ReflectionsLeft();
      ghost var more: seq<Event> := [];
      assert begun[|begun|..] == [];
      var report;
      match planning {
        case PlanCancelled =>
          report := Report([], Cancelled, 0);
        case PlanFailed =>
          preview := false;
          report := Report([], FatalError, 1);
        case Planned(plan) =>
          FreshPause(limits, plan);
          report := Continue(PausedState(plan, [], [], 0, 0));
          more := trace[|begun|..];
          if paused.Some? {
            PairsAsking(repr, [], staged, more, [Asked(planning)], report.steps, commands.pending);
          }
      }
      RunExplains(limits, left, initialPlan, old(Staged()), planning, more, report, paused, cancelled);
      TraceAfter(old(trace), begun, trace, [Asked(planning)]);
      AfterAsking(old(Staged()), more, [Asked(planning)]);
      AfterNothing(old(Staged()));
      return Reported(report);
    }

    /** A cancellation that came while paused: nothing staged survives. */
    method FinalizeCancelledWhilePaused(state: PausedState) returns (r: Outcome)
      requires Valid() && paused.None?
      modifies this`preview, patches, commands
      ensures Valid() && NothingStaged() && r == Reported(Report(state.steps, Cancelled, state.replansUsed))
    {
      DropStaged();
      return Reported(Report(state.steps, Cancelled, state.replansUsed));
    }

    /** Applies the staged edits, runs the staged commands, fills their output into
        the history, may replan on failing tests, and resumes. `fault` is what goes
        wrong while writing, if anything; `run` how the commands went, if it came to that. */
    method Approve(fault: Fault) returns (r: Outcome, ghost run: Option<BatchRun>)
      requires Valid()
      modifies this, workspace, patches, commands
      ensures Valid() && r != AlreadyPaused
      ensures r == StaleFiles <==> !UpToDate(old(workspace.files), old(patches.pending))
      ensures r == NotPaused <==> old(paused.None?) && UpToDate(old(workspace.files), old(patches.pending))
      // Refused before or while writing, the pause and everything staged are still there;
      // cancelled while paused, everything staged is dropped.
      ensures run.None? ==>
        dispatched == old(dispatched) &&
        (Refused(fault, old(Now()), Now(), Some(r)) || (cancelled && Dropped(old(Now()), Now(), Some(r), Cancelled)))
      ensures old(cancelled) ==> cancelled && run.None?
      // Otherwise the batch staged at the pause is carried out, and nothing else is.
      ensures run.Some? ==> CarriedOut(old(Now()), Now(), Some(r), run.value)
      // Escaped: the pause is used up; edits are applied, a failed command batch stays staged.
      ensures r == VerifierEscaped ==> run.Some? && hasVerifier && old(patches.pending) != []
      ensures old(Gate()) ==> (!Gate() <==> Escaped(Some(r)) && commands.pending != [])
      // The report is what the paused state, the commands' output and the answers make of it.
      ensures r.Reported? && run.Some? ==>
        var filled := Filled(old(paused.value), Outputs(run.value));
        && CallEnd(r.report, filled.steps, filled.replansUsed) && old(trace) <= trace
        && Resumption(limits, repr, old(ReflectionsLeft()), filled, Leftover(old(commands.pending), run.value),
                      hasVerifier && old(patches.pending) != [], trace[|old(trace)|..], r.report, paused, Staged(), cancelled)
    {
      hide CallEnd, LegEnd, Resumption, CarriedOut, GoodPause, UpToDate, RolledBack, Allowance, Content, StaleIn, Filled;
      var stale := patches.StalePaths();
      if stale != [] {
        return StaleFiles, None;
      }
      if paused.None? {
        return NotPaused, None;
      }
      var state := paused.value;
      ghost var before := Now();
      paused := None;
      var stopping := IsCancelled();
      if stopping {
        r := FinalizeCancelledWhilePaused(state);
        return r, None;
      }
      r, run := CarryOut(state, fault, before);
    }

    /** Carries out the staged batch and resumes; if a write fails, pauses again. */
    method CarryOut(state: PausedState, fault: Fault, ghost before: Snapshot) returns (r: Outcome, ghost run: Option<BatchRun>)
      requires Valid() && paused.None? && GoodPause(limits, state) && dispatched <= Allowance(limits, |state.steps|)
      requires before == Now().(paused := Some(state)) && UpToDate(before.files, before.edits)
      modifies this, workspace, patches, commands
      ensures Valid() && (r.ApplyFailed? || r.Reported? || Escaped(Some(r))) && (run.None? <==> r.ApplyFailed?)
      ensures run.None? ==> dispatched == old(dispatched) && Refused(fault, before, Now(), Some(r))
      ensures run.Some? ==> CarriedOut(before, Now(), Some(r), run.value)
      ensures run.Some? ==> (!Gate() <==> Escaped(Some(r)) && commands.pending != [])
      ensures r == VerifierEscaped ==> hasVerifier && before.edits != []
      ensures r.Reported? ==>
        var filled := Filled(state, Outputs(run.value));
        && CallEnd(r.report, filled.steps, filled.replansUsed) && before.trace <= trace
        && Resumption(limits, repr, old(ReflectionsLeft()), filled, Leftover(before.commands, run.value),
                      hasVerifier && before.edits != [], trace[|before.trace|..], r.report, paused, Staged(), cancelled)
    {
      hide CallEnd, LegEnd, Resumption, PathsOf, Continues, Filled, GoodHistory, CarriedOut;
      hide GoodPause, UpToDate, Replay, RolledBack, Allowance, Performed, Done, Content, StaleIn, Carried, RunOf, After;
      var applied := patches.ApplyAll(fault);
      if applied.Err? {
        paused := Some(state);
        return ApplyFailed, None;
      }
      var results;
      ghost var ran;
      ghost var log1 := workspace.log;
      results, ran := commands.ApproveAll();
      CarriedBy(before.log, log1, workspace.log, before.edits, before.commands, ran);
      assert Staged() == Leftover(before.commands, ran);
      if results == Stopped(true) {
        Carries(before, Now(), RunnerEscaped, ran);
        return RunnerEscaped, Some(ran);
      }
      var outputs := if results.AllRan? then results.outputs else [];
      SomePaths(before.edits);
      r := Resume(state, outputs, applied.value != []);
      if r.Reported? {
        ResumedWaits(limits, repr, old(ReflectionsLeft()), Filled(state, outputs), before.commands, ran,
                     hasVerifier && before.edits != [], trace[|before.trace|..], r.report, paused, Staged(), cancelled);
      }
      Carries(before, Now(), r, ran);
      return r, Some(ran);
    }

    /** Runs the verifier over what was applied; failing tests may lead to a new plan. */
    method VerifyApplied(state: PausedState) returns (r: Option<PausedState>, ghost asked: seq<Event>)
      requires Valid() && GoodPause(limits, state)
      modifies this`cancelled, this`trace
      ensures Valid() && trace == old(trace) + asked && (old(cancelled) ==> cancelled)
      ensures OnlyAsked(asked) && (r.None? ==> asked == [])
      ensures r.Some? ==> Rechecked(limits, state, true, asked, r.value) && GoodPause(limits, r.value)
    {
      asked := [];
      var verification: Verification := *;
      match verification
      case VerifierRaised =>
        return None, [];
      case Verified(failed) =>
        if failed > 0 && state.replansUsed < limits.maxReplans {
          var stopping := IsCancelled();
          if !stopping {
            var revised := AskPlanner();
            asked := [Asked(revised)];
            if revised.Planned? {
              return Some(state.(pending := revised.plan, replansUsed := state.replansUsed + 1)), asked;
            }
          }
        }
        return Some(state), asked;
    }

    /** After the batch: output into the history, a replan if tests fail, and on
        with the plan. */
    method Resume(state: PausedState, outputs: seq<string>, anyApplied: bool) returns (r: Outcome)
      requires Valid() && paused.None? && GoodPause(limits, state) && dispatched <= Allowance(limits, |state.steps|)
      modifies this, workspace, patches, commands
      ensures Valid() && WorldUnchanged() && (r.Reported? || r == VerifierEscaped) && (old(cancelled) ==> cancelled)
      ensures r == VerifierEscaped ==>
        hasVerifier && anyApplied && paused.None? && trace == old(trace) && unchanged(patches) && unchanged(commands)
      ensures r.Reported? ==>
        var filled := Filled(state, outputs);
        && Gate() && CallEnd(r.report, filled.steps, filled.replansUsed) && old(trace) <= trace
        && (if r.report.stop == AwaitingApproval then paused.Some? else paused.None? && NothingStaged())
        && Resumption(limits, repr, old(ReflectionsLeft()), filled, old(Staged()), hasVerifier && anyApplied,
                      trace[|old(trace)|..], r.report, paused, Staged(), cancelled)
    {
      hide GoodHistory, Continues, Failures, Allowance, FillSteps, FillEntries, ResumeExplained, GoodPause, PairsKept;
      hide Explained, Legs, Paired, Orderly, LegBounds, NoThirdFailure, After;
      var steps := BackfillSteps(state.steps, outputs);
      var completed := BackfillEntries(state.completed, outputs);
      FilledPause(limits, state, outputs);
      var filled := state.(steps := steps, completed := completed);
      ghost var start := filled;
      ghost var asked: seq<Event> := [];
      if hasVerifier && anyApplied {
        var verified;
        verified, asked := VerifyApplied(filled);
        if verified.None? {
          return VerifierEscaped;
        }
        filled := verified.value;
      }
      preview := true;
      ghost var begun := trace;
      var report := Continue(filled);
      r := Reported(report);
      ghost var more := trace[|begun|..];
      ResumeExplains(limits, old(ReflectionsLeft()), start, old(Staged()), hasVerifier && anyApplied, asked, filled, more,
                     r.report, paused, cancelled);
      TraceAfter(old(trace), begun, trace, asked);
      if paused.Some? {
        AfterAsking(old(Staged()), more, asked);
        PairsAsking(repr, steps, old(commands.pending), more, asked, r.report.steps, commands.pending);
      }
    }

    /** Drops everything staged and stops. */
    method Reject() returns (r: Outcome)
      requires Valid()
      modifies this, patches, commands
      ensures Valid() && paused.None? && trace == old(trace)
      ensures r == NotPaused <==> old(paused.None?)
      ensures r == NotPaused ==> unchanged(patches) && unchanged(commands)
      ensures old(paused.Some?) ==>
        NothingStaged() && r.Reported? && r.report.steps == old(paused.value.steps) &&
        r.report.stop in {Rejected, Cancelled} && r.report.replansUsed == old(paused.value.replansUsed)
    {
      if paused.None? {
        return NotPaused;
      }
      var state := paused.value;
      paused := None;
      var stopping := IsCancelled();
      if stopping {
        r := FinalizeCancelledWhilePaused(state);
        return;
      }
      DropStaged();
      return Reported(Report(state.steps, Rejected, state.replansUsed));
    }

    /** All that a session is judged by. */
    ghost function Now(): Snapshot
      reads this, patches, commands, workspace
    {
      Snapshot(paused, patches.pending, commands.pending, workspace.log, workspace.files, trace)
    }

    /** One public call, or a change the user makes to the files. */
    method Perform(call: Call) returns (answer: Option<Outcome>)
      requires Valid()
      modifies this, workspace, patches, commands
      ensures Valid() && Follows(call, answer, old(Now()), Now())
    {
      hide GoodPause, Carried, Replay, UpToDate, RolledBack, Allowance, RunExplained, ResumeExplained, PairsKept, Continues;
      hide FillSteps, Filled, Outputs, RunOf, Resumption, After;
      match call
      case CallRun(plan) =>
        var r := Run(plan);
        return Some(r);
      case CallReject =>
        var r := Reject();
        return Some(r);
      case CallCancel =>
        Cancel();
        return None;
      case UserChangesFiles(files) =>
        workspace.files := files;
        return None;
      case CallApprove(fault) =>
        var r;
        ghost var run;
        r, run := Approve(fault);
        return Some(r);
    }

    /** Any public calls in any order, with the user changing files in between. */
    method Session(calls: seq<Call>) returns (answers: seq<Option<Outcome>>, ghost history: seq<Snapshot>)
      requires Valid()
      modifies this, workspace, patches, commands
      ensures Valid() && Chronicle(calls, answers, history)
      ensures history[0] == old(Now()) && history[|calls|] == Now()
    {
      hide Follows;
      answers, history := [], [Now()];
      for i := 0 to |calls|
        invariant Valid() && |answers| == i && |history| == i + 1
        invariant history[0] == old(Now()) && history[i] == Now()
        invariant forall k :: 0 <= k < i ==> Follows(calls[k], answers[k], history[k], history[k + 1])
      {
        var answer := Perform(calls[i]);
        answers, history := answers + [answer], history + [Now()];
      }
    }
  }

  // ----- whole sessions -----

  datatype Call =
    | CallRun(plan: Option<seq<ToolCall>>)
    | CallApprove(fault: Fault)
    | CallReject
    | CallCancel
    | UserChangesFiles(files: Disk)

  datatype Snapshot = Snapshot(
    paused: Option<PausedState>, edits: seq<PendingEdit>, commands: seq<string>, log: seq<Effect>, files: Disk,
    trace: seq<Event>)

  /** What is waiting for approval. */
  function Waiting(s: Snapshot): Batch {
    Batch(s.edits, s.commands)
  }

  /** What tools and planner answered between two snapshots. */
  function Heard(a: Snapshot, b: Snapshot): seq<Event> {
    if a.trace <= b.trace then b.trace[|a.trace|..] else []
  }

  predicate Gated(s: Snapshot) {
    s.paused.Some? <==> s.edits != [] || s.commands != []
  }

  predicate SameWaiting(a: Snapshot, b: Snapshot) {
    a.paused == b.paused && a.edits == b.edits && a.commands == b.commands
  }

  predicate Untouched(a: Snapshot, b: Snapshot) {
    a.log == b.log && a.files == b.files
  }

  /** The call has paused the run. */
  predicate Awaiting(answer: Option<Outcome>) {
    answer.Some? && answer.value.Reported? && answer.value.report.stop == AwaitingApproval
  }

  predicate Escaped(answer: Option<Outcome>) {
    answer in {Some(RunnerEscaped), Some(VerifierEscaped)}
  }

  /** An approval that did nothing but, if writing failed, roll back. */
  ghost predicate Refused(fault: Fault, before: Snapshot, after: Snapshot, answer: Option<Outcome>) {
    && SameWaiting(before, after) && after.log == before.log && after.trace == before.trace
    && match answer
       case Some(StaleFiles) => !UpToDate(before.files, before.edits) && after.files == before.files
       case Some(NotPaused) => before.paused.None? && after.files == before.files
       case Some(ApplyFailed) =>
         fault.FailsAt? && fault.index < |before.edits| &&
         after.files == RolledBack(before.files, before.edits, fault.index, fault.leaves)
       case _ => false
  }

  /** The paused run was given up, and all that was staged with it. */
  predicate Dropped(before: Snapshot, after: Snapshot, answer: Option<Outcome>, stop: StopReason) {
    && Untouched(before, after) && after.trace == before.trace
    && before.paused.Some? && after.paused.None? && Waiting(after) == NONE_STAGED
    && answer == Some(Reported(Report(before.paused.value.steps, stop, before.paused.value.replansUsed)))
  }

  /** The run was given up by its user. */
  predicate GivenUp(answer: Option<Outcome>) {
    answer.Some? && answer.value.Reported? && answer.value.report.stop == Cancelled
  }

  /** The batch staged at the pause has been carried out, and the pause is used up. Its
      edits are gone, and so are its commands unless one of them failed; what waits at
      a new pause is what is left and what was staged since. */
  ghost predicate CarriedOut(before: Snapshot, after: Snapshot, answer: Option<Outcome>, run: BatchRun) {
    && before.paused.Some? && (after.paused.Some? <==> Awaiting(answer))
    && Carried(before.log, after.log, before.edits, before.commands, run)
    && (before.commands == [] ==> after.files == Replay(before.files, before.edits))
    && (answer == Some(RunnerEscaped) <==> run.failed == Some(OtherError))
    && before.trace <= after.trace && (Escaped(answer) ==> after.trace == before.trace)
    && Waiting(after) == (if Awaiting(answer) || Escaped(answer)
                          then After(Leftover(before.commands, run), Heard(before, after)) else NONE_STAGED)
    && answer.Some? && (answer.value.Reported? || Escaped(answer))
    && (run.failed.Some? ==> Awaiting(answer) || Escaped(answer) || GivenUp(answer))
  }

  /** A run that was not refused: at its pause waits what waited before and what was
      staged since; otherwise nothing, or what waited before if it did not begin. */
  predicate RunWaits(before: Snapshot, after: Snapshot, answer: Option<Outcome>) {
    if Awaiting(answer) then Waiting(after) == After(Waiting(before), Heard(before, after))
    else Waiting(after) == NONE_STAGED || Waiting(after) == Waiting(before) == After(Waiting(before), Heard(before, after))
  }

  /** What a call answers and does. */
  ghost predicate Follows(call: Call, answer: Option<Outcome>, before: Snapshot, after: Snapshot) {
    && before.trace <= after.trace
    && (Awaiting(answer) ==>
          after.paused.Some? && Gated(after) && after.paused.value.steps == answer.value.report.steps)
    && (!Awaiting(answer) && after.paused.Some? ==> SameWaiting(before, after))
    && (Gated(before) ==> (Gated(after) <==> !(Escaped(answer) && after.commands != [])))
    && (Escaped(answer) ==> call.CallApprove?)
    && match call
       case CallRun(_) =>
         Untouched(before, after) && (if before.paused.Some? then answer == Some(AlreadyPaused) && after == before
                                      else answer.Some? && answer.value.Reported? && RunWaits(before, after, answer))
       case CallReject =>
         if before.paused.None? then answer == Some(NotPaused) && after == before
         else Dropped(before, after, answer, Rejected) || Dropped(before, after, answer, Cancelled)
       case CallCancel => answer.None? && after == before
       case UserChangesFiles(files) => answer.None? && after == before.(files := files)
       case CallApprove(fault) =>
         || Refused(fault, before, after, answer) || Dropped(before, after, answer, Cancelled)
         || exists run :: CarriedOut(before, after, answer, run)
  }

  ghost predicate Chronicle(calls: seq<Call>, answers: seq<Option<Outcome>>, history: seq<Snapshot>) {
    && |answers| == |calls| && |history| == |calls| + 1
    && forall k :: 0 <= k < |calls| ==> Follows(calls[k], answers[k], history[k], history[k + 1])
  }

  lemma Carries(before: Snapshot, after: Snapshot, r: Outcome, run: BatchRun)
    requires before.paused.Some? && Carried(before.log, after.log, before.edits, before.commands, run)
    requires before.commands == [] ==> after.files == Replay(before.files, before.edits)
    requires before.trace <= after.trace
    requires if r.Reported?
             then
               && run.failed != Some(OtherError)
               && (after.paused.Some? <==> r.report.stop == AwaitingApproval)
               && Waiting(after) == (if after.paused.Some? then After(Leftover(before.commands, run), after.trace[|before.trace|..])
                                     else NONE_STAGED)
               && (run.failed.Some? ==> r.report.stop in {AwaitingApproval, Cancelled})
             else
               && (if run.failed == Some(OtherError) then r.RunnerEscaped? else r.VerifierEscaped?)
               && after.paused.None? && after.trace == before.trace && Waiting(after) == Leftover(before.commands, run)
    ensures CarriedOut(before, after, Some(r), run)
  {
    hide Carried, Replay, After;
    AfterNothing(Leftover(before.commands, run));
    assert before.trace[|before.trace|..] == [];
  }

  lemma ResumedWaits(limits: Limits, repr: string -> string, left: int, state: PausedState, commands: seq<string>,
                     run: BatchRun, verifies: bool, events: seq<Event>, report: Report, paused: Option<PausedState>,
                     staged: Batch, cancelled: bool)
    requires Resumption(limits, repr, left, state, Leftover(commands, run), verifies, events, report, paused, staged, cancelled)
    requires run.failed.Some? ==> commands != []
    ensures paused.Some? ==> staged == After(Leftover(commands, run), events)
    ensures run.failed.Some? ==> report.stop in {AwaitingApproval, Cancelled}
  {
    hide ResumeExplained, PairsKept, After;
    if run.failed.Some? {
      ResumptionHeldUp(limits, repr, left, state, Leftover(commands, run), verifies, events, report, paused, staged, cancelled);
    }
  }

  /** When the pause that stands after i calls was set. */
  function PauseSet(answers: seq<Option<Outcome>>, i: nat): (j: nat)
    requires i <= |answers|
    ensures j <= i && (j == 0 || Awaiting(answers[j - 1])) && forall k :: j <= k < i ==> !Awaiting(answers[k])
  {
    if i == 0 || Awaiting(answers[i - 1]) then i else PauseSet(answers, i - 1)
  }

  /** From when a pause was set, the pause and what is staged stay as they were then. */
  lemma {:induction false} PauseStands(calls: seq<Call>, answers: seq<Option<Outcome>>, history: seq<Snapshot>, i: nat)
    requires Chronicle(calls, answers, history) && i <= |calls| && history[i].paused.Some?
    ensures forall k :: PauseSet(answers, i) <= k <= i ==> SameWaiting(history[k], history[i])
  {
    hide Follows, Chronicle, Awaiting;
    ChronicleSizes(calls, answers, history);
    if i > 0 && !Awaiting(answers[i - 1]) {
      ChronicleAt(calls, answers, history, i - 1);
      FollowsWaiting(calls[i - 1], answers[i - 1], history[i - 1], history[i]);
      PauseStands(calls, answers, history, i - 1);
    }
  }

  lemma FollowsWaiting(call: Call, answer: Option<Outcome>, before: Snapshot, after: Snapshot)
    requires Follows(call, answer, before, after) && !Awaiting(answer) && after.paused.Some?
    ensures SameWaiting(before, after)
  {
  }

  // ----- what is staged, by its place among all that was staged -----

  /** All that has been staged up to the n-th snapshot, carried out or not. */
  ghost function Total(history: seq<Snapshot>, n: nat): Batch
    requires n < |history|
  {
    After(Waiting(history[0]), Heard(history[0], history[n]))
  }

  /** How many of these edits, and of these commands, are no longer waiting. */
  ghost function GoneEdits(history: seq<Snapshot>, n: nat): int
    requires n < |history|
  {
    |Total(history, n).edits| - |history[n].edits|
  }

  ghost function GoneCommands(history: seq<Snapshot>, n: nat): int
    requires n < |history|
  {
    |Total(history, n).commands| - |history[n].commands|
  }

  predicate EndsIn<T(==)>(whole: seq<T>, end: seq<T>) {
    |end| <= |whole| && whole[|whole| - |end|..] == end
  }

  /** Waiting is the latest of what was staged. */
  predicate Latest(waiting: Batch, total: Batch) {
    EndsIn(total.edits, waiting.edits) && EndsIn(total.commands, waiting.commands)
  }

  lemma LatestAfter(waiting: Batch, total: Batch, events: seq<Event>)
    requires Latest(waiting, total)
    ensures Latest(After(waiting, events), After(total, events))
    ensures |After(total, events).edits| - |After(waiting, events).edits| == |total.edits| - |waiting.edits|
    ensures |After(total, events).commands| - |After(waiting, events).commands| == |total.commands| - |waiting.commands|
    ensures |total.edits| <= |After(total, events).edits| && |total.commands| <= |After(total, events).commands|
  {
    hide EditsOf, CommandsOf;
  }

  /** What a call takes off the list of what waits: nothing, or all that was staged
      before it, of edits and of commands each. */
  ghost predicate Takes(before: Snapshot, after: Snapshot, total: Batch) {
    var next := After(total, Heard(before, after));
    && Latest(Waiting(after), next)
    && (|next.edits| - |after.edits| == |total.edits| - |before.edits| || |next.edits| - |after.edits| >= |total.edits|)
    && (|next.commands| - |after.commands| == |total.commands| - |before.commands| ||
        |next.commands| - |after.commands| >= |total.commands|)
  }

  /** A call that leaves `left` of what waited and adds what it staged. */
  lemma TakesLeft(before: Snapshot, after: Snapshot, total: Batch, left: Batch)
    requires Latest(Waiting(before), total)
    requires left.edits in {[], before.edits} && left.commands in {[], before.commands}
    requires Waiting(after) == After(left, Heard(before, after)) || Waiting(after) == NONE_STAGED
    ensures Takes(before, after, total)
    ensures Waiting(after) == After(left, Heard(before, after)) && left.edits == [] ==>
      |After(total, Heard(before, after)).edits| - |after.edits| == |total.edits|
    ensures Waiting(after) == After(left, Heard(before, after)) ==>
      |After(total, Heard(before, after)).commands| - |after.commands| == |total.commands| - |left.commands|
  {
    hide EditsOf, CommandsOf, Heard;
    LatestAfter(left, total, Heard(before, after));
  }

  lemma FollowsTakes(call: Call, answer: Option<Outcome>, before: Snapshot, after: Snapshot, total: Batch)
    requires Follows(call, answer, before, after) && Latest(Waiting(before), total)
    ensures Takes(before, after, total)
  {
    hide Takes, Latest, After, Carried, Replay, UpToDate, RolledBack;
    AfterNothing(Waiting(before));
    assert before.trace[|before.trace|..] == [];
    if call.CallApprove? && !Refused(call.fault, before, after, answer) && !Dropped(before, after, answer, Cancelled) {
      var run :| CarriedOut(before, after, answer, run);
      TakesLeft(before, after, total, Leftover(before.commands, run));
    } else {
      TakesLeft(before, after, total, Waiting(before));
    }
  }

  lemma CarriedTakes(before: Snapshot, after: Snapshot, answer: Option<Outcome>, run: BatchRun, total: Batch)
    requires CarriedOut(before, after, answer, run) && Latest(Waiting(before), total)
    ensures var next := After(total, Heard(before, after));
      && |next.edits| - |after.edits| >= |total.edits|
      && (if run.failed.Some? && !GivenUp(answer)
          then |next.commands| - |after.commands| == |total.commands| - |before.commands|
          else |next.commands| - |after.commands| >= |total.commands|)
  {
    hide Takes, Carried, Replay, EditsOf, CommandsOf;
    TakesLeft(before, after, total, Leftover(before.commands, run));
    LatestAfter(NONE_STAGED, total, Heard(before, after));
  }

  lemma TotalNext(history: seq<Snapshot>, n: nat)
    requires n + 1 < |history| && history[0].trace <= history[n].trace <= history[n + 1].trace
    ensures Total(history, n + 1) == After(Total(history, n), Heard(history[n], history[n + 1]))
  {
    hide After;
    AfterMore(Waiting(history[0]), Heard(history[0], history[n]), Heard(history[n], history[n + 1]));
    assert Heard(history[0], history[n + 1]) == Heard(history[0], history[n]) + Heard(history[n], history[n + 1]);
  }

  lemma FollowsTrace(call: Call, answer: Option<Outcome>, before: Snapshot, after: Snapshot)
    requires Follows(call, answer, before, after)
    ensures before.trace <= after.trace
  {
  }

  /** What waits for approval is always the latest of what tools have staged; nothing
      else gets there, and nothing is lost from between. */
  lemma {:induction false} WaitingIsLatest(calls: seq<Call>, answers: seq<Option<Outcome>>, history: seq<Snapshot>, n: nat)
    requires Chronicle(calls, answers, history) && n <= |calls|
    ensures history[0].trace <= history[n].trace && Latest(Waiting(history[n]), Total(history, n))
  {
    hide *;
    ChronicleSizes(calls, answers, history);
    if n > 0 {
      WaitingIsLatest(calls, answers, history, n - 1);
      ChronicleAt(calls, answers, history, n - 1);
      FollowsTrace(calls[n - 1], answers[n - 1], history[n - 1], history[n]);
      TotalNext(history, n - 1);
      FollowsTakes(calls[n - 1], answers[n - 1], history[n - 1], history[n], Total(history, n - 1));
      TakesLatest(history[n - 1], history[n], Total(history, n - 1));
    } else {
      TotalStart(history);
    }
  }

  lemma TakesLatest(before: Snapshot, after: Snapshot, total: Batch)
    requires Takes(before, after, total)
    ensures Latest(Waiting(after), After(total, Heard(before, after)))
  {
    hide After, Latest;
  }

  lemma TotalStart(history: seq<Snapshot>)
    requires history != []
    ensures Latest(Waiting(history[0]), Total(history, 0))
  {
    AfterNothing(Waiting(history[0]));
    assert history[0].trace[|history[0].trace|..] == [];
  }

  /** One call takes nothing off the waiting list, or all that was staged before it. */
  lemma GoneNext(calls: seq<Call>, answers: seq<Option<Outcome>>, history: seq<Snapshot>, n: nat)
    requires Chronicle(calls, answers, history) && n < |calls|
    ensures GoneEdits(history, n + 1) == GoneEdits(history, n) || GoneEdits(history, n + 1) >= |Total(history, n).edits|
    ensures GoneCommands(history, n + 1) == GoneCommands(history, n) ||
            GoneCommands(history, n + 1) >= |Total(history, n).commands|
    ensures |Total(history, n).edits| <= |Total(history, n + 1).edits|
    ensures |Total(history, n).commands| <= |Total(history, n + 1).commands|
    ensures GoneEdits(history, n) <= GoneEdits(history, n + 1) && GoneCommands(history, n) <= GoneCommands(history, n + 1)
  {
    hide Follows, Total, After, Latest;
    WaitingIsLatest(calls, answers, history, n);
    FollowsTrace(calls[n], answers[n], history[n], history[n + 1]);
    FollowsTakes(calls[n], answers[n], history[n], history[n + 1], Total(history, n));
    TotalNext(history, n);
    AfterGrows(Total(history, n), Heard(history[n], history[n + 1]));
  }

  lemma AfterGrows(total: Batch, events: seq<Event>)
    ensures |total.edits| <= |After(total, events).edits| && |total.commands| <= |After(total, events).commands|
  {
  }

  /** From one snapshot to a later one either none of the commands then staged has left
      the waiting list, or all have; and so for edits. */
  lemma {:induction false} GoneLater(calls: seq<Call>, answers: seq<Option<Outcome>>, history: seq<Snapshot>, i: nat, k: nat)
    requires Chronicle(calls, answers, history) && i <= k <= |calls|
    ensures GoneEdits(history, k) == GoneEdits(history, i) || GoneEdits(history, k) >= |Total(history, i).edits|
    ensures GoneCommands(history, k) == GoneCommands(history, i) ||
            GoneCommands(history, k) >= |Total(history, i).commands|
    ensures |Total(history, i).edits| <= |Total(history, k).edits|
    ensures |Total(history, i).commands| <= |Total(history, k).commands|
    ensures GoneEdits(history, i) <= GoneEdits(history, k) && GoneCommands(history, i) <= GoneCommands(history, k)
  {
    hide Follows, Total, GoneEdits, GoneCommands;
    if i < k {
      GoneLater(calls, answers, history, i, k - 1);
      GoneNext(calls, answers, history, k - 1);
    }
  }

  lemma GoneCarried(calls: seq<Call>, answers: seq<Option<Outcome>>, history: seq<Snapshot>, i: nat, run: BatchRun)
    requires Chronicle(calls, answers, history) && i < |calls|
    requires CarriedOut(history[i], history[i + 1], answers[i], run)
    ensures GoneEdits(history, i + 1) >= |Total(history, i).edits|
    ensures if run.failed.Some? && !GivenUp(answers[i])
            then GoneCommands(history, i + 1) == GoneCommands(history, i)
            else GoneCommands(history, i + 1) >= |Total(history, i).commands|
  {
    hide Follows, CarriedOut, Total, After, Latest;
    WaitingIsLatest(calls, answers, history, i);
    FollowsTrace(calls[i], answers[i], history[i], history[i + 1]);
    CarriedTakes(history[i], history[i + 1], answers[i], run, Total(history, i));
    TotalNext(history, i);
  }

  /** No pause outlives its batch: once that is carried out, whatever is waiting later
      was paused for after it, and all edits of it were staged after it. */
  lemma EachPauseOnce(calls: seq<Call>, answers: seq<Option<Outcome>>, history: seq<Snapshot>, i: nat, k: nat, run: BatchRun)
    requires Chronicle(calls, answers, history) && i < k <= |calls|
    requires CarriedOut(history[i], history[i + 1], answers[i], run)
    ensures history[k].paused.Some? ==> PauseSet(answers, k) > i
    ensures GoneEdits(history, k) >= |Total(history, i).edits|
  {
    hide Carried, Replay, Follows, Total, After;
    GoneCarried(calls, answers, history, i, run);
    GoneLater(calls, answers, history, i + 1, k);
    if history[k].paused.Some? {
      PauseStands(calls, answers, history, k);
    }
  }

  /** How many commands were started, the one that failed included. */
  function Started(run: BatchRun): nat {
    |run.ran| + if run.failed.Some? then 1 else 0
  }

  /** The k-th call approves a batch and gets to the q-th of all commands staged. */
  ghost predicate RunsAt(answers: seq<Option<Outcome>>, history: seq<Snapshot>, k: nat, q: int)
    requires k < |answers| && k + 1 < |history|
  {
    exists run :: CarriedOut(history[k], history[k + 1], answers[k], run) &&
      GoneCommands(history, k) <= q < GoneCommands(history, k) + Started(run)
  }

  /** The call leaves nothing waiting, or carries out all commands that did. */
  ghost predicate Clears(answer: Option<Outcome>, before: Snapshot, after: Snapshot) {
    || Waiting(after) == NONE_STAGED
    || exists run :: CarriedOut(before, after, answer, run) && run.failed.None?
  }

  lemma FollowsClears(call: Call, answer: Option<Outcome>, before: Snapshot, after: Snapshot, total: Batch)
    requires Follows(call, answer, before, after) && Latest(Waiting(before), total) && before.commands != []
    ensures |After(total, Heard(before, after)).commands| - |after.commands| == |total.commands| - |before.commands| <==>
            !Clears(answer, before, after)
  {
    hide Takes, Latest, After, Carried, Replay, UpToDate, RolledBack;
    AfterNothing(Waiting(before));
    AfterGrows(total, Heard(before, after));
    LatestSize(Waiting(before), total);
    assert before.trace[|before.trace|..] == [];
    if call.CallApprove? && !Refused(call.fault, before, after, answer) && !Dropped(before, after, answer, Cancelled) {
      var run :| CarriedOut(before, after, answer, run);
      CarriedTakes(before, after, answer, run, total);
      TakesLeft(before, after, total, Leftover(before.commands, run));
      forall other | CarriedOut(before, after, answer, other) && other.failed.None?
        ensures |After(total, Heard(before, after)).commands| - |after.commands| >= |total.commands|
      {
        CarriedTakes(before, after, answer, other, total);
      }
    } else {
      TakesLeft(before, after, total, Waiting(before));
      forall run | CarriedOut(before, after, answer, run) && run.failed.None?
        ensures |After(total, Heard(before, after)).commands| - |after.commands| >= |total.commands|
      {
        CarriedTakes(before, after, answer, run, total);
      }
    }
  }

  lemma LatestSize(waiting: Batch, total: Batch)
    requires Latest(waiting, total)
    ensures |waiting.commands| <= |total.commands|
  {
  }

  lemma GoneKept(calls: seq<Call>, answers: seq<Option<Outcome>>, history: seq<Snapshot>, m: nat)
    requires Chronicle(calls, answers, history) && m < |calls| && history[m].commands != []
    ensures GoneCommands(history, m + 1) == GoneCommands(history, m) <==> !Clears(answers[m], history[m], history[m + 1])
  {
    hide Follows, Total, After, Latest, Clears;
    WaitingIsLatest(calls, answers, history, m);
    FollowsTrace(calls[m], answers[m], history[m], history[m + 1]);
    FollowsClears(calls[m], answers[m], history[m], history[m + 1], Total(history, m));
    TotalNext(history, m);
  }

  /** None of the calls from i to k clears what waits. */
  ghost predicate Uncleared(answers: seq<Option<Outcome>>, history: seq<Snapshot>, i: nat, k: nat)
    requires i <= k <= |answers| && k < |history|
  {
    forall m :: i <= m < k ==> !Clears(answers[m], history[m], history[m + 1])
  }

  lemma UnclearedNext(answers: seq<Option<Outcome>>, history: seq<Snapshot>, i: nat, k: nat)
    requires i <= k <= |answers| && k < |history|
    ensures i == k ==> Uncleared(answers, history, i, k)
    ensures i < k ==> (Uncleared(answers, history, i, k) <==>
                       Uncleared(answers, history, i, k - 1) && !Clears(answers[k - 1], history[k - 1], history[k]))
  {
    hide Clears;
  }

  /** Commands that wait go on waiting exactly until a call clears them. */
  lemma {:induction false} StillWaitingIff(calls: seq<Call>, answers: seq<Option<Outcome>>, history: seq<Snapshot>, i: nat, k: nat)
    requires Chronicle(calls, answers, history) && i <= k <= |calls| && history[i].commands != []
    ensures GoneCommands(history, k) == GoneCommands(history, i) <==> Uncleared(answers, history, i, k)
  {
    hide *;
    ChronicleSizes(calls, answers, history);
    UnclearedNext(answers, history, i, k);
    if i < k {
      StillWaitingIff(calls, answers, history, i, k - 1);
      GoneLater(calls, answers, history, i, k - 1);
      GoneLater(calls, answers, history, k - 1, k);
      if GoneCommands(history, k - 1) == GoneCommands(history, i) {
        GoneIs(history, i);
        GoneIs(history, k - 1);
        GoneKept(calls, answers, history, k - 1);
      }
    }
  }

  /** A command that ran, and exited normally, is run again by a later approval exactly
      when its batch failed, no call cleared it in between, and that approval gets as far. */
  lemma RunAgainIff(calls: seq<Call>, answers: seq<Option<Outcome>>, history: seq<Snapshot>, i: nat, run: BatchRun, q: int, k: nat)
    requires Chronicle(calls, answers, history) && i < k < |calls|
    requires CarriedOut(history[i], history[i + 1], answers[i], run)
    requires GoneCommands(history, i) <= q < GoneCommands(history, i) + |run.ran|
    ensures RunsAt(answers, history, k, q) <==>
      && run.failed.Some? && Uncleared(answers, history, i, k)
      && exists later :: CarriedOut(history[k], history[k + 1], answers[k], later) &&
                         q - GoneCommands(history, i) < Started(later)
  {
    hide Follows, Total, GoneEdits, GoneCommands, Clears, Uncleared;
    CarriedSize(history[i], history[i + 1], answers[i], run);
    GoneIs(history, i);
    hide CarriedOut;
    GoneCarried(calls, answers, history, i, run);
    GoneLater(calls, answers, history, i + 1, k);
    GoneLater(calls, answers, history, i, k);
    StillWaitingIff(calls, answers, history, i, k);
  }

  /** "a" has exited normally and "b" with an error, and the run pauses again: whatever
      is staged by then, approving that pause runs "a" a second time. */
  lemma RunsTwice(calls: seq<Call>, answers: seq<Option<Outcome>>, history: seq<Snapshot>, output: string, later: BatchRun)
    requires Chronicle(calls, answers, history) && |calls| == 2 && history[0].commands == ["a", "b"]
    requires CarriedOut(history[0], history[1], answers[0], BatchRun([output], Some(NonZeroExit)))
    requires CarriedOut(history[1], history[2], answers[1], later)
    ensures ["a", "b"] <= history[1].commands
    ensures exists m, n, outcome :: 0 <= m < n < |history[2].log| &&
              history[2].log[m] == Ran("a", Exited(output)) && history[2].log[n] == Ran("a", outcome)
  {
    hide Follows, Done;
    var first := BatchRun([output], Some(NonZeroExit));
    assert history[1].paused.Some? && Awaiting(answers[0]);
    AfterBegins(Leftover(["a", "b"], first), Heard(history[0], history[1]));
    var m, n := |history[0].log| + |Done(history[0].edits)|, |history[1].log| + |Done(history[1].edits)|;
    FirstRun(["a", "b"], first);
    FirstRun(history[1].commands, later);
    assert history[1].log[m] == Ran("a", Exited(output));
    assert history[2].log[m] == history[1].log[m];
    var outcome := Performed(history[1].commands, later)[0].outcome;
    assert history[2].log[n] == Ran("a", outcome);
  }

  lemma AfterBegins(left: Batch, events: seq<Event>)
    ensures left.commands <= After(left, events).commands
  {
  }

  lemma FirstRun(commands: seq<string>, run: BatchRun)
    requires RunOf(commands, run) && commands != []
    ensures Performed(commands, run) != [] && Performed(commands, run)[0].Ran?
    ensures Performed(commands, run)[0].command == commands[0]
    ensures run.ran != [] ==> Performed(commands, run)[0] == Ran(commands[0], Exited(run.ran[0]))
  {
  }

  lemma GoneIs(history: seq<Snapshot>, i: nat)
    requires i < |history|
    ensures GoneCommands(history, i) + |history[i].commands| == |Total(history, i).commands|
  {
    hide Total;
  }

  lemma CarriedSize(before: Snapshot, after: Snapshot, answer: Option<Outcome>, run: BatchRun)
    requires CarriedOut(before, after, answer, run)
    ensures |run.ran| <= |before.commands| && Started(run) <= |before.commands|
  {
    hide Performed, After;
  }

  /** The batches carried out by the first n calls, each as it was staged when its
      pause was set. */
  ghost function Approved(answers: seq<Option<Outcome>>, history: seq<Snapshot>, n: nat): seq<Batch>
    requires n <= |answers| && |answers| < |history|
  {
    if n == 0 then []
    else
      var staged := history[PauseSet(answers, n - 1)];
      Approved(answers, history, n - 1) +
      if history[n].log == history[n - 1].log then [] else [Batch(staged.edits, staged.commands)]
  }

  /** From log0 to log1 exactly these batches were carried out, one after the other. */
  ghost predicate AllCarried(log0: seq<Effect>, log1: seq<Effect>, batches: seq<Batch>)
    decreases |batches|
  {
    if batches == [] then log1 == log0
    else
      var front, last := batches[..|batches| - 1], batches[|batches| - 1];
      exists mid, run :: AllCarried(log0, mid, front) && Carried(mid, log1, last.edits, last.commands, run)
  }

  lemma OneMoreCarried(log0: seq<Effect>, mid: seq<Effect>, log1: seq<Effect>, batches: seq<Batch>, batch: Batch, run: BatchRun)
    requires AllCarried(log0, mid, batches) && Carried(mid, log1, batch.edits, batch.commands, run)
    ensures AllCarried(log0, log1, batches + [batch])
  {
    hide Carried;
    var all := batches + [batch];
    assert all[..|all| - 1] == batches && all[|all| - 1] == batch;
  }

  lemma NothingCarried(log: seq<Effect>)
    ensures AllCarried(log, log, [])
  {
  }

  lemma ChronicleSizes(calls: seq<Call>, answers: seq<Option<Outcome>>, history: seq<Snapshot>)
    requires Chronicle(calls, answers, history)
    ensures |answers| == |calls| && |history| == |calls| + 1
  {
  }

  lemma ChronicleAt(calls: seq<Call>, answers: seq<Option<Outcome>>, history: seq<Snapshot>, k: nat)
    requires Chronicle(calls, answers, history) && k < |calls| == |answers| && |history| == |calls| + 1
    ensures Follows(calls[k], answers[k], history[k], history[k + 1])
  {
  }

  lemma ApprovedNext(answers: seq<Option<Outcome>>, history: seq<Snapshot>, n: nat)
    requires n < |answers| < |history|
    ensures history[n + 1].log == history[n].log ==> Approved(answers, history, n + 1) == Approved(answers, history, n)
    ensures history[n + 1].log != history[n].log ==>
      var staged := history[PauseSet(answers, n)];
      Approved(answers, history, n + 1) == Approved(answers, history, n) + [Batch(staged.edits, staged.commands)]
  {
  }

  /** The batch of a pause is the one that was staged when it was set. */
  lemma StagedWhenSet(calls: seq<Call>, answers: seq<Option<Outcome>>, history: seq<Snapshot>, n: nat)
    requires Chronicle(calls, answers, history) && n < |answers| < |history| && history[n].paused.Some?
    ensures var staged := history[PauseSet(answers, n)];
      staged.edits == history[n].edits && staged.commands == history[n].commands
  {
    hide Follows;
    PauseStands(calls, answers, history, n);
    assert SameWaiting(history[PauseSet(answers, n)], history[n]);
  }

  lemma CarriedOutIs(before: Snapshot, after: Snapshot, answer: Option<Outcome>, run: BatchRun)
    requires CarriedOut(before, after, answer, run)
    ensures before.paused.Some? && Carried(before.log, after.log, before.edits, before.commands, run)
    ensures before.commands == [] ==> after.files == Replay(before.files, before.edits)
  {
    hide Carried, Replay;
  }

  /** The outside world changes through approved batches alone. */
  lemma FollowsLog(call: Call, answer: Option<Outcome>, before: Snapshot, after: Snapshot)
    requires Follows(call, answer, before, after) && after.log != before.log
    ensures call.CallApprove? && exists run :: CarriedOut(before, after, answer, run)
  {
    hide Carried;
  }

  /** All that a session has done to the outside world is the batches staged at the
      pauses that were approved, in that order. */
  lemma {:induction false} SessionDoesApproved(calls: seq<Call>, answers: seq<Option<Outcome>>, history: seq<Snapshot>, n: nat)
    requires Chronicle(calls, answers, history) && n <= |calls|
    ensures AllCarried(history[0].log, history[n].log, Approved(answers, history, n))
  {
    hide *;
    ChronicleSizes(calls, answers, history);
    if n > 0 {
      SessionDoesApproved(calls, answers, history, n - 1);
      ChronicleAt(calls, answers, history, n - 1);
      ApprovedNext(answers, history, n - 1);
      if history[n].log != history[n - 1].log {
        FollowsLog(calls[n - 1], answers[n - 1], history[n - 1], history[n]);
        var run :| CarriedOut(history[n - 1], history[n], answers[n - 1], run);
        CarriedOutIs(history[n - 1], history[n], answers[n - 1], run);
        StagedWhenSet(calls, answers, history, n - 1);
        OneMoreCarried(history[0].log, history[n - 1].log, history[n].log, Approved(answers, history, n - 1),
                       Batch(history[n - 1].edits, history[n - 1].commands), run);
      }
    } else {
      NothingCarried(history[0].log);
      NothingApproved(answers, history);
    }
  }

  lemma NothingApproved(answers: seq<Option<Outcome>>, history: seq<Snapshot>)
    requires |answers| < |history|
    ensures Approved(answers, history, 0) == []
  {
  }

  /** The disk after all edits of the batches. */
  function WrittenBy(disk: Disk, batches: seq<Batch>): Disk {
    if batches == [] then disk
    else Replay(WrittenBy(disk, batches[..|batches| - 1]), batches[|batches| - 1].edits)
  }

  lemma FollowsFiles(call: Call, answer: Option<Outcome>, before: Snapshot, after: Snapshot)
    requires Follows(call, answer, before, after) && !call.UserChangesFiles? && answer != Some(ApplyFailed)
    requires before.commands == [] && (before.paused.Some? ==> before.edits != [])
    ensures after.log == before.log ==> after.files == before.files
    ensures after.log != before.log ==> after.files == Replay(before.files, before.edits) && before.paused.Some?
  {
    hide Replay;
  }

  lemma WrittenByNext(disk: Disk, batches: seq<Batch>, batch: Batch)
    ensures WrittenBy(disk, batches + [batch]) == Replay(WrittenBy(disk, batches), batch.edits)
  {
    hide Replay;
    assert (batches + [batch])[..|batches|] == batches;
  }

  /** Without commands, changes by the user and failing writes, the disk is what the
      approved edits make of it. */
  lemma {:induction false} SessionWritesApproved(calls: seq<Call>, answers: seq<Option<Outcome>>, history: seq<Snapshot>, n: nat)
    requires Chronicle(calls, answers, history) && n <= |calls| && Gated(history[0])
    requires forall i :: 0 <= i < n ==> !calls[i].UserChangesFiles? && answers[i] != Some(ApplyFailed) && history[i].commands == []
    ensures history[n].files == WrittenBy(history[0].files, Approved(answers, history, n))
  {
    hide *;
    ChronicleSizes(calls, answers, history);
    if n > 0 {
      SessionWritesApproved(calls, answers, history, n - 1);
      StagedWhilePaused(calls, answers, history, n - 1);
      ChronicleAt(calls, answers, history, n - 1);
      ApprovedNext(answers, history, n - 1);
      FollowsFiles(calls[n - 1], answers[n - 1], history[n - 1], history[n]);
      if history[n].log != history[n - 1].log {
        StagedWhenSet(calls, answers, history, n - 1);
        WrittenByNext(history[0].files, Approved(answers, history, n - 1), Batch(history[n - 1].edits, history[n - 1].commands));
      }
    } else {
      NothingApproved(answers, history);
      NothingWritten(history[0].files);
    }
  }

  lemma NothingWritten(disk: Disk)
    ensures WrittenBy(disk, []) == disk
  {
  }

  /** Something is staged whenever a run is paused, even after an escape. */
  lemma {:induction false} StagedWhilePaused(calls: seq<Call>, answers: seq<Option<Outcome>>, history: seq<Snapshot>, n: nat)
    requires Chronicle(calls, answers, history) && n <= |calls| && Gated(history[0])
    ensures history[n].paused.Some? ==> history[n].edits != [] || history[n].commands != []
  {
    if n > 0 {
      StagedWhilePaused(calls, answers, history, n - 1);
      assert Follows(calls[n - 1], answers[n - 1], history[n - 1], history[n]);
      hide CarriedOut, Refused, Dropped;
    }
  }

  /** Paused exactly while something is staged, as long as no approval that escaped has
      left commands behind. */
  lemma {:induction false} SessionGated(calls: seq<Call>, answers: seq<Option<Outcome>>, history: seq<Snapshot>, n: nat)
    requires Chronicle(calls, answers, history) && n <= |calls| && Gated(history[0])
    requires forall i :: 0 <= i < n ==> !(Escaped(answers[i]) && history[i + 1].commands != [])
    ensures Gated(history[n])
  {
    if n > 0 {
      SessionGated(calls, answers, history, n - 1);
      assert Follows(calls[n - 1], answers[n - 1], history[n - 1], history[n]);
      hide CarriedOut, Refused, Dropped;
    }
  }

  lemma FreshPause(limits: Limits, plan: seq<ToolCall>)
    ensures GoodPause(limits, PausedState(plan, [], [], 0, 0))
  {
  }

  lemma NothingDone(limits: Limits)
    ensures GoodHistory([], []) && Allowance(limits, 0) == 0
    ensures 0 <= Allowance(limits, AtLeast0(limits.maxIterations))
  {
    AllowanceGrows(limits, 0, AtLeast0(limits.maxIterations));
  }

  /** A leg resumed from a report goes on from where that report's leg began. */
  lemma LegFollows(limits: Limits, steps0: seq<Step>, replans0: int, first: Report, second: Report, completed: seq<Entry>)
    requires Continues(steps0, first.steps) && replans0 <= first.replansUsed
    requires LegBounds(limits, first.steps, first.replansUsed + 1, second, completed)
    ensures Continues(steps0, second.steps) && replans0 <= second.replansUsed
  {
    assert second.steps[..|steps0|] == second.steps[..|first.steps|][..|steps0|];
  }
}
