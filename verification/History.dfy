/** The record of a run: executed steps, the shorter history the planner sees, and
    filling in the output of commands that ran only after approval. */
module History {
  import opened Collections
  import opened Plan

  /** A tool's result: a string, or any other object (0 stands for none). */
  datatype Value = Str(text: string) | Obj(tag: int)

  /** `error` None for a step that succeeded; a failed step, and the step that says
      no tool is needed, carry no result (Obj(0)). */
  datatype Step = Step(iteration: int, tool: string, kwargs: map<string, Arg>, result: Value, error: Option<string>)

  datatype Entry = Entry(tool: string, kwargs: map<string, Arg>, result: Value)

  const STAGED_PREFIX: string := "Command staged for approval:"

  predicate IsPlaceholder(v: Value) {
    v.Str? && |STAGED_PREFIX| <= |v.text| && v.text[..|STAGED_PREFIX|] == STAGED_PREFIX
  }

  predicate Counted(s: Step) {
    s.error.None? && s.tool != "none"
  }

  function EntryOf(s: Step): Entry {
    Entry(s.tool, s.kwargs, s.result)
  }

  /** The planner's history: the successful tool steps, in order. */
  function Completed(steps: seq<Step>): seq<Entry> {
    if steps == [] then []
    else (if Counted(steps[0]) then [EntryOf(steps[0])] else []) + Completed(steps[1..])
  }

  lemma {:induction false} CompletedAppend(steps: seq<Step>, s: Step)
    ensures Completed(steps + [s]) == Completed(steps) + if Counted(s) then [EntryOf(s)] else []
  {
    hide Counted, EntryOf;
    if steps == [] {
      assert steps + [s] == [s] && [s][1..] == [];
    } else {
      CompletedAppend(steps[1..], s);
      assert (steps + [s])[1..] == steps[1..] + [s] && (steps + [s])[0] == steps[0];
      var first := if Counted(steps[0]) then [EntryOf(steps[0])] else [];
      var last := if Counted(s) then [EntryOf(s)] else [];
      assert first + (Completed(steps[1..]) + last) == first + Completed(steps[1..]) + last;
    }
  }

  type Action = (string, map<string, Arg>)

  /** How often the action fails among the steps. */
  function Failures(steps: seq<Step>, action: Action): nat {
    if steps == [] then 0
    else
      var last := steps[|steps| - 1];
      Failures(steps[..|steps| - 1], action) + if last.error.Some? && (last.tool, last.kwargs) == action then 1 else 0
  }

  /** Steps outside the planner's history hold no placeholder. */
  ghost predicate Quiet(steps: seq<Step>) {
    forall i :: 0 <= i < |steps| && !Counted(steps[i]) ==> !IsPlaceholder(steps[i].result)
  }

  // ----- filling in command output -----

  /** Placeholders from the left take the outputs one by one; those left over when
      the outputs run out stay. */
  function FillSteps(steps: seq<Step>, outputs: seq<string>): seq<Step> {
    if steps == [] then []
    else if IsPlaceholder(steps[0].result) && outputs != [] then
      [steps[0].(result := Str(outputs[0]))] + FillSteps(steps[1..], outputs[1..])
    else [steps[0]] + FillSteps(steps[1..], outputs)
  }

  function FillEntries(entries: seq<Entry>, outputs: seq<string>): seq<Entry> {
    if entries == [] then []
    else if IsPlaceholder(entries[0].result) && outputs != [] then
      [entries[0].(result := Str(outputs[0]))] + FillEntries(entries[1..], outputs[1..])
    else [entries[0]] + FillEntries(entries[1..], outputs)
  }

  method BackfillSteps(steps: seq<Step>, outputs: seq<string>) returns (r: seq<Step>)
    ensures r == FillSteps(steps, outputs)
  {
    r := [];
    var next := 0;
    for i := 0 to |steps|
      invariant next <= |outputs|
      invariant FillSteps(steps, outputs) == r + FillSteps(steps[i..], outputs[next..])
    {
      assert steps[i..][1..] == steps[i + 1..];
      if IsPlaceholder(steps[i].result) && next < |outputs| {
        assert outputs[next..][1..] == outputs[next + 1..];
        r := r + [steps[i].(result := Str(outputs[next]))];
        next := next + 1;
      } else {
        r := r + [steps[i]];
      }
    }
    assert r + FillSteps([], outputs[next..]) == r;
  }

  method BackfillEntries(entries: seq<Entry>, outputs: seq<string>) returns (r: seq<Entry>)
    ensures r == FillEntries(entries, outputs)
  {
    r := [];
    var next := 0;
    for i := 0 to |entries|
      invariant next <= |outputs|
      invariant FillEntries(entries, outputs) == r + FillEntries(entries[i..], outputs[next..])
    {
      assert entries[i..][1..] == entries[i + 1..];
      if IsPlaceholder(entries[i].result) && next < |outputs| {
        assert outputs[next..][1..] == outputs[next + 1..];
        r := r + [entries[i].(result := Str(outputs[next]))];
        next := next + 1;
      } else {
        r := r + [entries[i]];
      }
    }
    assert r + FillEntries([], outputs[next..]) == r;
  }

  /** How many placeholders come before position i. */
  function PlaceholdersBefore(steps: seq<Step>, i: nat): nat
    requires i <= |steps|
  {
    if i == 0 then 0 else PlaceholdersBefore(steps, i - 1) + if IsPlaceholder(steps[i - 1].result) then 1 else 0
  }

  lemma {:induction false} PlaceholdersInTail(steps: seq<Step>, i: nat)
    requires 1 <= i <= |steps|
    ensures PlaceholdersBefore(steps, i) ==
      PlaceholdersBefore(steps[1..], i - 1) + if IsPlaceholder(steps[0].result) then 1 else 0
  {
    if i > 1 {
      PlaceholdersInTail(steps, i - 1);
    }
  }

  /** The k-th placeholder receives the k-th output; nothing else changes. */
  lemma {:induction false} FilledByRank(steps: seq<Step>, outputs: seq<string>, i: nat)
    requires i < |steps|
    ensures |FillSteps(steps, outputs)| == |steps|
    ensures FillSteps(steps, outputs)[i] ==
      if IsPlaceholder(steps[i].result) && PlaceholdersBefore(steps, i) < |outputs|
      then steps[i].(result := Str(outputs[PlaceholdersBefore(steps, i)]))
      else steps[i]
    decreases |steps|
  {
    var rest := if IsPlaceholder(steps[0].result) && outputs != [] then outputs[1..] else outputs;
    if i > 0 {
      PlaceholdersInTail(steps, i);
      FilledByRank(steps[1..], rest, i - 1);
    } else if |steps| > 1 {
      FilledByRank(steps[1..], rest, 0);
    }
  }

  /** The two passes, over the steps and over the planner's history, fill in the
      same output for the same step. */
  lemma {:induction false} PassesAgree(steps: seq<Step>, outputs: seq<string>)
    requires Quiet(steps)
    ensures Completed(FillSteps(steps, outputs)) == FillEntries(Completed(steps), outputs)
    ensures |FillSteps(steps, outputs)| == |steps|
    decreases |steps|
  {
    if steps != [] {
      var s, filled := steps[0], FillSteps(steps, outputs);
      assert forall i :: 0 <= i < |steps[1..]| ==> steps[1..][i] == steps[i + 1];
      if IsPlaceholder(s.result) && outputs != [] {
        PassesAgree(steps[1..], outputs[1..]);
        assert filled[1..] == FillSteps(steps[1..], outputs[1..]);
      } else {
        PassesAgree(steps[1..], outputs);
        assert filled[1..] == FillSteps(steps[1..], outputs);
      }
      assert s == steps[0] && (IsPlaceholder(s.result) ==> Counted(s));
      assert Completed(filled) == (if Counted(filled[0]) then [EntryOf(filled[0])] else []) + Completed(filled[1..]);
      if Counted(s) {
        assert Completed(steps)[1..] == Completed(steps[1..]);
      } else {
        assert Completed(steps) == Completed(steps[1..]);
      }
    }
  }

  lemma FillKeepsQuiet(steps: seq<Step>, outputs: seq<string>)
    requires Quiet(steps)
    ensures Quiet(FillSteps(steps, outputs))
  {
    if steps != [] {
      FilledByRank(steps, outputs, 0);
      forall i | 0 <= i < |steps| && !Counted(FillSteps(steps, outputs)[i])
        ensures !IsPlaceholder(FillSteps(steps, outputs)[i].result)
      {
        FilledByRank(steps, outputs, i);
      }
    }
  }

  // ----- whose output a step receives -----

  /** What a shell tool returns for a command it has staged; `quoted` is the command
      as Python's repr writes it, which is not part of this model. */
  function Notice(quoted: string): (text: string)
    ensures IsPlaceholder(Str(text))
  {
    STAGED_PREFIX + " " + quoted
  }

  /** The texts of the placeholders, in order. */
  function Placeholders(steps: seq<Step>): seq<string> {
    if steps == [] then []
    else (if IsPlaceholder(steps[0].result) then [steps[0].result.text] else []) + Placeholders(steps[1..])
  }

  /** The k-th placeholder tells of the k-th staged command. */
  ghost predicate Paired(repr: string -> string, steps: seq<Step>, staged: seq<string>) {
    && |Placeholders(steps)| == |staged|
    && forall k :: 0 <= k < |staged| ==> Placeholders(steps)[k] == Notice(repr(staged[k]))
  }

  lemma {:induction false} PlaceholdersAppend(steps: seq<Step>, s: Step)
    ensures Placeholders(steps + [s]) == Placeholders(steps) + if IsPlaceholder(s.result) then [s.result.text] else []
  {
    if steps == [] {
      assert steps + [s] == [s] && [s][1..] == [];
    } else {
      PlaceholdersAppend(steps[1..], s);
      assert (steps + [s])[1..] == steps[1..] + [s] && (steps + [s])[0] == steps[0];
      var first := if IsPlaceholder(steps[0].result) then [steps[0].result.text] else [];
      var last := if IsPlaceholder(s.result) then [s.result.text] else [];
      assert first + (Placeholders(steps[1..]) + last) == first + Placeholders(steps[1..]) + last;
    }
  }

  lemma {:induction false} PlaceholderAt(steps: seq<Step>, i: nat)
    requires i < |steps| && IsPlaceholder(steps[i].result)
    ensures PlaceholdersBefore(steps, i) < |Placeholders(steps)|
    ensures Placeholders(steps)[PlaceholdersBefore(steps, i)] == steps[i].result.text
    decreases |steps|
  {
    hide IsPlaceholder;
    if i > 0 {
      PlaceholdersInTail(steps, i);
      PlaceholderAt(steps[1..], i - 1);
    }
  }

  /** Outputs that are no placeholders themselves leave none when there is one for each. */
  lemma {:induction false} AllFilled(steps: seq<Step>, outputs: seq<string>)
    requires |outputs| == |Placeholders(steps)|
    requires forall k :: 0 <= k < |outputs| ==> !IsPlaceholder(Str(outputs[k]))
    ensures Placeholders(FillSteps(steps, outputs)) == []
    decreases |steps|
  {
    hide IsPlaceholder;
    if steps != [] {
      var s, filled := steps[0], FillSteps(steps, outputs);
      if IsPlaceholder(s.result) {
        assert forall k :: 0 <= k < |outputs[1..]| ==> outputs[1..][k] == outputs[k + 1];
        AllFilled(steps[1..], outputs[1..]);
        assert filled[0] == s.(result := Str(outputs[0])) && filled[1..] == FillSteps(steps[1..], outputs[1..]);
      } else {
        AllFilled(steps[1..], outputs);
        assert filled[0] == s && filled[1..] == FillSteps(steps[1..], outputs);
      }
    }
  }

  /** Where placeholders and staged commands are paired, a step receives the output
      of the command its own placeholder tells of. */
  lemma OwnOutput(repr: string -> string, steps: seq<Step>, staged: seq<string>, outputs: seq<string>, i: nat)
    requires Paired(repr, steps, staged) && |outputs| == |staged|
    requires i < |steps| && IsPlaceholder(steps[i].result)
    ensures |FillSteps(steps, outputs)| == |steps|
    ensures var k := PlaceholdersBefore(steps, i);
      && k < |staged|
      && steps[i].result == Str(Notice(repr(staged[k]))) && FillSteps(steps, outputs)[i].result == Str(outputs[k])
  {
    PlaceholderAt(steps, i);
    FilledByRank(steps, outputs, i);
  }

  /** How many commands the first i steps staged. */
  function StagedBefore(staged: seq<nat>, i: nat): nat
    requires i <= |staged|
  {
    if i == 0 then 0 else StagedBefore(staged, i - 1) + staged[i - 1]
  }

  /** Only steps with a placeholder stage commands, as far as the last placeholder. */
  ghost predicate OnlyPlaceholdersStage(steps: seq<Step>, staged: seq<nat>) {
    forall j, i :: 0 <= j < i < |steps| && i < |staged| ==>
      IsPlaceholder(steps[i].result) && !IsPlaceholder(steps[j].result) ==> staged[j] == 0
  }

  lemma {:induction false} StagedSurplus(steps: seq<Step>, staged: seq<nat>, i: nat)
    requires |staged| == |steps| && i <= |steps|
    requires forall j :: 0 <= j < |steps| && IsPlaceholder(steps[j].result) ==> staged[j] == 1
    ensures PlaceholdersBefore(steps, i) <= StagedBefore(staged, i)
    ensures PlaceholdersBefore(steps, i) == StagedBefore(staged, i) <==>
      forall j :: 0 <= j < i && !IsPlaceholder(steps[j].result) ==> staged[j] == 0
  {
    hide IsPlaceholder;
    if i > 0 {
      StagedSurplus(steps, staged, i - 1);
    }
  }

  /** With `staged[j]` commands staged by step j, and one by each step that holds a
      placeholder, every placeholder's own command has the rank of the output it
      receives if and only if no other step before a placeholder staged a command. */
  lemma OwnOutputIff(steps: seq<Step>, staged: seq<nat>)
    requires |staged| == |steps|
    requires forall j :: 0 <= j < |steps| && IsPlaceholder(steps[j].result) ==> staged[j] == 1
    ensures (forall i :: 0 <= i < |steps| && IsPlaceholder(steps[i].result) ==>
               PlaceholdersBefore(steps, i) == StagedBefore(staged, i)) <==>
            OnlyPlaceholdersStage(steps, staged)
  {
    hide IsPlaceholder;
    forall i | 0 <= i < |steps| && IsPlaceholder(steps[i].result)
      ensures PlaceholdersBefore(steps, i) == StagedBefore(staged, i) <==>
              forall j :: 0 <= j < i && !IsPlaceholder(steps[j].result) ==> staged[j] == 0
    {
      StagedSurplus(steps, staged, i);
    }
  }

  /** What a git tool returns for a command it has staged is no placeholder. */
  function GitNotice(summary: string): (text: string)
    ensures !IsPlaceholder(Str(text))
  {
    var text := "Approval required: " + summary;
    assert text[0] == 'A' && STAGED_PREFIX[0] == 'C';
    text
  }

  /** So a shell step after a git step receives the git command's output. */
  lemma GitOutputMisplaced(summary: string, quoted: string, gitOutput: string, shellOutput: string)
    ensures
      var steps := [Step(1, "git_commit", map[], Str(GitNotice(summary)), None),
                    Step(2, "execute_shell", map[], Str(Notice(quoted)), None)];
      && FillSteps(steps, [gitOutput, shellOutput]) == [steps[0], steps[1].(result := Str(gitOutput))]
      && !OnlyPlaceholdersStage(steps, [1, 1])
  {
    var steps := [Step(1, "git_commit", map[], Str(GitNotice(summary)), None),
                  Step(2, "execute_shell", map[], Str(Notice(quoted)), None)];
    hide IsPlaceholder, GitNotice, Notice;
    assert steps[1..] == [steps[1]] && steps[1..][1..] == [];
    assert FillSteps(steps[1..], [gitOutput, shellOutput]) ==
           [steps[1].(result := Str(gitOutput))] + FillSteps([], [gitOutput, shellOutput][1..]);
    assert IsPlaceholder(steps[1].result) && !IsPlaceholder(steps[0].result) && [1, 1][0] != 0;
  }
}
