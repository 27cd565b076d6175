/** Staged shell commands: nothing runs until the batch is approved. */
module CommandApproval {
  import opened Collections
  import opened ChangeManager

  datatype ApproveOutcome = AllRan(outputs: seq<string>) | Stopped(escaped: bool)

  /** How far a batch of commands came: the output of those that exited normally,
      and how the one after them failed, if it did. */
  datatype BatchRun = BatchRun(ran: seq<string>, failed: Option<RunOutcome>)

  /** The record of the first commands, which exited with these outputs. */
  function RanAll(commands: seq<string>, outputs: seq<string>): (r: seq<Effect>)
    requires |outputs| <= |commands|
    ensures |r| == |outputs| && forall k :: 0 <= k < |r| ==> r[k] == Ran(commands[k], Exited(outputs[k]))
  {
    if outputs == [] then []
    else
      var n := |outputs| - 1;
      RanAll(commands, outputs[..n]) + [Ran(commands[n], Exited(outputs[n]))]
  }

  /** Every command ran, or all before one that failed and that one. */
  predicate RunOf(commands: seq<string>, run: BatchRun) {
    if run.failed.None? then |run.ran| == |commands| else |run.ran| < |commands| && !run.failed.value.Exited?
  }

  function Performed(commands: seq<string>, run: BatchRun): seq<Effect>
    requires RunOf(commands, run)
  {
    RanAll(commands, run.ran) + if run.failed.None? then [] else [Ran(commands[|run.ran|], run.failed.value)]
  }

  lemma RanOneMore(commands: seq<string>, outputs: seq<string>, output: string)
    requires |outputs| < |commands|
    ensures RanAll(commands, outputs + [output]) ==
            RanAll(commands, outputs) + [Ran(commands[|outputs|], Exited(output))]
  {
    assert (outputs + [output])[..|outputs|] == outputs;
  }

  /** Runs a command: it may do anything to the files and end in any way. */
  method RunCommand(workspace: Workspace, command: string) returns (outcome: RunOutcome)
    modifies workspace
    ensures workspace.log == old(workspace.log) + [Ran(command, outcome)]
  {
    workspace.files := *;
    outcome := *;
    workspace.log := workspace.log + [Ran(command, outcome)];
  }

  class CommandManager {
    const workspace: Workspace
    var pending: seq<string>

    constructor (workspace: Workspace)
      ensures this.workspace == workspace && pending == []
    {
      this.workspace := workspace;
      pending := [];
    }

    method Propose(command: string)
      modifies this
      ensures pending == old(pending) + [command]
    {
      pending := pending + [command];
    }

    /** Runs the batch in order and clears it; if a command raises, the later ones
        do not run and the whole batch stays staged. */
    method ApproveAll() returns (r: ApproveOutcome, ghost run: BatchRun)
      modifies this, workspace
      ensures RunOf(old(pending), run) && workspace.log == old(workspace.log) + Performed(old(pending), run)
      ensures run.failed.None? ==> pending == [] && r == AllRan(run.ran)
      ensures run.failed.Some? ==> pending == old(pending) && r == Stopped(run.failed.value.OtherError?)
      ensures old(pending) == [] ==> workspace.files == old(workspace.files)
    {
      hide RanAll;
      var outputs: seq<string> := [];
      for i := 0 to |pending|
        invariant pending == old(pending) && |outputs| == i
        invariant workspace.log == old(workspace.log) + RanAll(pending, outputs)
        invariant i == 0 ==> workspace.files == old(workspace.files)
      {
        var outcome := RunCommand(workspace, pending[i]);
        match outcome
        case Exited(output) =>
          RanOneMore(pending, outputs, output);
          outputs := outputs + [output];
        case NonZeroExit => return Stopped(false), BatchRun(outputs, Some(NonZeroExit));
        case OtherError => return Stopped(true), BatchRun(outputs, Some(OtherError));
      }
      pending := [];
      return AllRan(outputs), BatchRun(outputs, None);
    }

    method DiscardAll() returns (discarded: seq<string>)
      modifies this
      ensures pending == [] && discarded == old(pending)
    {
      discarded := pending;
      pending := [];
    }
  }
}
