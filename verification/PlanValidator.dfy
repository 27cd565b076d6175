/** The checks a plan must pass before it runs, and what an accepted plan
    guarantees. Error messages are counted, not spelled out. */
module PlanValidator {
  import opened Collections
  import opened Strings
  import opened Reachability
  import opened Plan
  import opened DependencyGraph

  const MAX_STEPS := 25

  const FORBIDDEN_PATH_PREFIXES: seq<string> := [
    "/etc/", "/sys/", "/proc/", "/root/", "/boot/", "/dev/",
    "C:/Windows/", "C:/Program Files/", "C:/Program Files (x86)/",
    "C:\\Windows\\", "C:\\Program Files\\", "C:\\Program Files (x86)\\",
    "HKEY_", "HKLM\\", "HKCU\\"]

  const DESTRUCTIVE_WRITE_TOOLS: set<string> := {"write_file", "replace_in_file", "edit_lines", "patch_file"}

  const PATH_CHECKED_TOOLS: set<string> := {"read_file", "write_file", "replace_in_file", "edit_lines"}

  // ----- what is asked of a plan -----

  predicate NoSelfDependency(steps: seq<ToolCall>) {
    forall i :: 0 <= i < |steps| ==> steps[i].stepId.None? || steps[i].stepId.value !in steps[i].dependsOn
  }

  ghost predicate Known(steps: seq<ToolCall>, name: string) {
    exists i :: 0 <= i < |steps| && steps[i].stepId == Some(name)
  }

  ghost predicate AllKnown(steps: seq<ToolCall>) {
    forall i, name :: 0 <= i < |steps| && name in steps[i].dependsOn ==> Known(steps, name)
  }

  /** Ids are unambiguous, every reference resolves to another step, and no step
      waits for itself. */
  ghost predicate GoodDependencies(steps: seq<ToolCall>) {
    DistinctIds(steps) && NoSelfDependency(steps) && AllKnown(steps) && !HasCycle(DepsOf(steps))
  }

  predicate ForbiddenArg(a: Arg) {
    a.Text? && exists k :: 0 <= k < |FORBIDDEN_PATH_PREFIXES| && StartsWith(a.text, FORBIDDEN_PATH_PREFIXES[k])
  }

  predicate WithinScope(s: ToolCall) {
    s.tool == "none" || forall name :: name in s.kwargs ==> !ForbiddenArg(s.kwargs[name])
  }

  /** The `path` argument when it is a non-empty string. */
  function PathOf(s: ToolCall): Option<string> {
    if "path" in s.kwargs && s.kwargs["path"].Text? && s.kwargs["path"].text != "" then Some(s.kwargs["path"].text)
    else None
  }

  /** The file's extension occurs in the workspace, or nothing speaks against it. */
  predicate KnownExtension(s: ToolCall, suffix: string -> string, extensions: set<string>) {
    s.tool in PATH_CHECKED_TOOLS && PathOf(s).Some? && suffix(PathOf(s).value) != "" && extensions != {} ==>
      suffix(PathOf(s).value) in extensions
  }

  ghost predicate ReadBefore(steps: seq<ToolCall>, i: nat)
    requires i <= |steps|
  {
    exists j :: 0 <= j < i && steps[j].tool == "read_file"
  }

  /** Every destructive write comes after some read. */
  ghost predicate ReadsBeforeWrites(steps: seq<ToolCall>) {
    forall i :: 0 <= i < |steps| && steps[i].tool in DESTRUCTIVE_WRITE_TOOLS ==> ReadBefore(steps, i)
  }

  predicate Writes(s: ToolCall) {
    s.tool in DESTRUCTIVE_WRITE_TOOLS + {"create_file"} && PathOf(s).Some?
  }

  /** No path is written twice. */
  ghost predicate DistinctWrites(steps: seq<ToolCall>) {
    forall i, j :: 0 <= i < j < |steps| && Writes(steps[i]) && Writes(steps[j]) ==> PathOf(steps[i]) != PathOf(steps[j])
  }

  ghost predicate GoodPlan(steps: seq<ToolCall>, suffix: string -> string, extensions: set<string>) {
    && 0 < |steps| <= MAX_STEPS
    && (forall i :: 0 <= i < |steps| ==> steps[i].tool == "none" || WithinScope(steps[i]))
    && (forall i :: 0 <= i < |steps| ==> steps[i].tool == "none" || KnownExtension(steps[i], suffix, extensions))
    && ReadsBeforeWrites(steps) && DistinctWrites(steps) && GoodDependencies(steps)
  }

  // ----- the validator -----

  /** Accepts exactly the plans with good dependencies. */
  method ValidateDependencies(steps: seq<ToolCall>) returns (ok: bool)
    ensures ok <==> GoodDependencies(steps)
  {
    var duplicates, seen := CollectIds(steps);
    var bad := BadReferences(steps, seen);
    if duplicates > 0 || bad > 0 {
      return false;
    }
    var sorted := TopologicalSort(steps);
    return sorted.Ok?;
  }

  method CollectIds(steps: seq<ToolCall>) returns (errors: nat, seen: map<string, nat>)
    ensures errors == 0 <==> DistinctIds(steps)
    ensures forall name :: name in seen <==> Known(steps, name)
  {
    errors, seen := 0, map[];
    for i := 0 to |steps|
      invariant errors == 0 <==> DistinctIds(steps[..i])
      invariant forall name :: name in seen <==> Known(steps[..i], name)
    {
      var id := steps[i].stepId;
      assert steps[..i + 1] == steps[..i] + [steps[i]];
      KnownAppend(steps[..i], steps[i]);
      if id.None? {
        continue;
      }
      if id.value in seen {
        errors := errors + 1;
      } else {
        seen := seen[id.value := i + 1];
      }
    }
    assert steps[..|steps|] == steps;
  }

  lemma KnownAppend(steps: seq<ToolCall>, s: ToolCall)
    ensures forall name :: Known(steps + [s], name) <==> Known(steps, name) || s.stepId == Some(name)
    ensures DistinctIds(steps + [s]) <==> DistinctIds(steps) && (s.stepId.Some? ==> !Known(steps, s.stepId.value))
  {
    var more := steps + [s];
    forall name ensures Known(more, name) <==> Known(steps, name) || s.stepId == Some(name) {
      if Known(steps, name) {
        var i :| 0 <= i < |steps| && steps[i].stepId == Some(name);
        assert more[i].stepId == Some(name);
      }
      assert more[|steps|] == s;
    }
    if DistinctIds(more) {
      assert forall i :: 0 <= i < |steps| ==> more[i] == steps[i];
      assert more[|steps|] == s;
    }
  }

  method BadReferences(steps: seq<ToolCall>, seen: map<string, nat>) returns (errors: nat)
    requires forall name :: name in seen <==> Known(steps, name)
    ensures errors == 0 <==> NoSelfDependency(steps) && AllKnown(steps)
  {
    errors := 0;
    for i := 0 to |steps|
      invariant errors == 0 <==> forall j :: 0 <= j < i ==> References(steps, j, |steps[j].dependsOn|)
    {
      for h := 0 to |steps[i].dependsOn|
        invariant errors == 0 <==>
          (forall j :: 0 <= j < i ==> References(steps, j, |steps[j].dependsOn|)) && References(steps, i, h)
      {
        var dep := steps[i].dependsOn[h];
        ReferencesOneMore(steps, i, h);
        if Some(dep) == steps[i].stepId {
          errors := errors + 1;
        } else if dep !in seen {
          errors := errors + 1;
        }
      }
    }
    ReferencesMeaning(steps);
  }

  /** The first h references of step j are to other, existing steps. */
  ghost predicate References(steps: seq<ToolCall>, j: nat, h: nat)
    requires j < |steps| && h <= |steps[j].dependsOn|
  {
    forall k :: 0 <= k < h ==> Some(steps[j].dependsOn[k]) != steps[j].stepId && Known(steps, steps[j].dependsOn[k])
  }

  lemma ReferencesOneMore(steps: seq<ToolCall>, j: nat, h: nat)
    requires j < |steps| && h < |steps[j].dependsOn|
    ensures References(steps, j, h + 1) <==>
      References(steps, j, h) && Some(steps[j].dependsOn[h]) != steps[j].stepId && Known(steps, steps[j].dependsOn[h])
  {
  }

  lemma ReferencesMeaning(steps: seq<ToolCall>)
    ensures (forall j :: 0 <= j < |steps| ==> References(steps, j, |steps[j].dependsOn|)) <==>
      NoSelfDependency(steps) && AllKnown(steps)
  {
    if forall j :: 0 <= j < |steps| ==> References(steps, j, |steps[j].dependsOn|) {
      forall i, name | 0 <= i < |steps| && name in steps[i].dependsOn ensures Known(steps, name) {
        assert References(steps, i, |steps[i].dependsOn|);
      }
      forall i | 0 <= i < |steps| && steps[i].stepId.Some?
        ensures steps[i].stepId.value !in steps[i].dependsOn
      {
        assert References(steps, i, |steps[i].dependsOn|);
      }
    }
  }

  /** Accepts exactly the good plans. `suffix` and `extensions` stand for the path
      library and the scan of the workspace. */
  method ValidatePlan(steps: seq<ToolCall>, suffix: string -> string, extensions: set<string>) returns (ok: bool)
    ensures ok <==> GoodPlan(steps, suffix, extensions)
  {
    if steps == [] {
      return false;
    }
    var scope := ScopeErrors(steps, suffix, extensions);
    var unread := ReadErrors(steps);
    var writes := WriteErrors(steps);
    if |steps| > MAX_STEPS || scope > 0 || unread > 0 || writes > 0 {
      return false;
    }
    if exists i :: 0 <= i < |steps| && Annotated(steps[i]) {
      ok := ValidateDependencies(steps);
    } else {
      FastPath(steps);
      return true;
    }
  }

  method ScopeErrors(steps: seq<ToolCall>, suffix: string -> string, extensions: set<string>) returns (errors: nat)
    ensures errors == 0 <==>
      forall i :: 0 <= i < |steps| ==>
        steps[i].tool == "none" || (WithinScope(steps[i]) && KnownExtension(steps[i], suffix, extensions))
  {
    errors := 0;
    for i := 0 to |steps|
      invariant errors == 0 <==>
        forall j :: 0 <= j < i ==>
          steps[j].tool == "none" || (WithinScope(steps[j]) && KnownExtension(steps[j], suffix, extensions))
    {
      if steps[i].tool == "none" {
        continue;
      }
      if !WithinScope(steps[i]) {
        errors := errors + 1;
      }
      if !KnownExtension(steps[i], suffix, extensions) {
        errors := errors + 1;
      }
    }
  }

  method ReadErrors(steps: seq<ToolCall>) returns (errors: nat)
    ensures errors == 0 <==> ReadsBeforeWrites(steps)
  {
    errors := 0;
    var hasRead := false;
    for i := 0 to |steps|
      invariant hasRead <==> ReadBefore(steps, i)
      invariant errors == 0 <==>
        forall j :: 0 <= j < i && steps[j].tool in DESTRUCTIVE_WRITE_TOOLS ==> ReadBefore(steps, j)
    {
      if steps[i].tool == "read_file" {
        hasRead := true;
      } else if steps[i].tool in DESTRUCTIVE_WRITE_TOOLS && !hasRead {
        errors := errors + 1;
      }
    }
  }

  method WriteErrors(steps: seq<ToolCall>) returns (errors: nat)
    ensures errors == 0 <==> DistinctWrites(steps)
  {
    hide DistinctWrites, WrittenBefore;
    errors := 0;
    var written: map<string, nat> := map[];
    NothingWritten(steps);
    for i := 0 to |steps|
      invariant forall p :: p in written <==> WrittenBefore(steps, i, p)
      invariant errors == 0 <==> DistinctWrites(steps[..i])
    {
      ghost var before := steps[..i];
      assert steps[..i + 1] == before + [steps[i]];
      WritesAppend(steps, i);
      if Writes(steps[i]) {
        var path := PathOf(steps[i]).value;
        if path in written {
          errors := errors + 1;
        } else {
          written := written[path := i + 1];
        }
      }
    }
    assert steps[..|steps|] == steps;
  }

  lemma NothingWritten(steps: seq<ToolCall>)
    ensures DistinctWrites(steps[..0]) && forall p :: !WrittenBefore(steps, 0, p)
  {
  }

  ghost predicate WrittenBefore(steps: seq<ToolCall>, i: nat, p: string)
    requires i <= |steps|
  {
    exists j :: 0 <= j < i && Writes(steps[j]) && PathOf(steps[j]) == Some(p)
  }

  lemma WritesAppend(steps: seq<ToolCall>, i: nat)
    requires i < |steps|
    ensures DistinctWrites(steps[..i + 1]) <==>
      DistinctWrites(steps[..i]) && (Writes(steps[i]) ==> !WrittenBefore(steps, i, PathOf(steps[i]).value))
    ensures forall p :: WrittenBefore(steps, i + 1, p) <==>
      WrittenBefore(steps, i, p) || (Writes(steps[i]) && PathOf(steps[i]) == Some(p))
  {
    var front, more := steps[..i], steps[..i + 1];
    assert more[i] == steps[i];
    assert forall j :: 0 <= j < i ==> more[j] == front[j] == steps[j];
    if DistinctWrites(more) {
      forall a, b | 0 <= a < b < i && Writes(front[a]) && Writes(front[b])
        ensures PathOf(front[a]) != PathOf(front[b])
      {
        assert PathOf(more[a]) != PathOf(more[b]);
      }
      forall j | 0 <= j < i && Writes(steps[j]) && Writes(steps[i])
        ensures PathOf(steps[j]) != PathOf(steps[i])
      {
        assert PathOf(more[j]) != PathOf(more[i]);
      }
    }
  }

  // ----- what acceptance means -----

  lemma ArrangeKeepsIdsDistinct(steps: seq<ToolCall>, o: seq<nat>)
    requires IsPermutation(|steps|, o) && DistinctIds(Arrange(steps, o))
    ensures DistinctIds(steps)
  {
    var sorted := Arrange(steps, o);
    forall i, j | 0 <= i < j < |steps| && steps[i].stepId.Some?
      ensures steps[i].stepId != steps[j].stepId
    {
      PosInOrder(|steps|, o, i);
      PosInOrder(|steps|, o, j);
      assert sorted[Pos(o, i)] == steps[i] && sorted[Pos(o, j)] == steps[j];
    }
  }

  lemma {:induction false} ResolveHas(steps: seq<ToolCall>, names: seq<string>, name: string)
    requires name in names && IndexOfId(steps, name).Some?
    ensures IndexOfId(steps, name).value in Resolve(steps, names)
  {
    if names[|names| - 1] != name {
      ResolveHas(steps, names[..|names| - 1], name);
    }
  }

  /** Sorted by the planner and then accepted, a plan names in each step's
      depends_on only steps that run earlier, and sorting it again, as the
      validator does, gives the same plan back. */
  lemma AcceptedPlanRunsInOrder(parsed: seq<ToolCall>, o: seq<nat>, k: nat, name: string)
    requires IsKahnOrder(DepsOf(parsed), o) && GoodDependencies(Arrange(parsed, o))
    requires k < |parsed| && name in Arrange(parsed, o)[k].dependsOn
    ensures exists j :: 0 <= j < k && Arrange(parsed, o)[j].stepId == Some(name)
    ensures IsKahnOrder(DepsOf(Arrange(parsed, o)), Identity(|parsed|))
  {
    var plan, id := Arrange(parsed, o), Identity(|parsed|);
    ArrangeKeepsIdsDistinct(parsed, o);
    SortedIsKahn(parsed, o);
    IndexOfIdBound(plan, name);
    assert Known(plan, name);
    ResolveHas(plan, plan[k].dependsOn, name);
    var deps := DepsOf(plan)[k];
    var j := IndexOfId(plan, name).value;
    assert id[k] == k;
    ReleaseBounds(deps, id);
    PosInIdentity(|plan|, j);
  }

  // ----- a plan that is given and not sorted -----

  /** Every step comes after the steps it names. */
  ghost predicate InOrder(steps: seq<ToolCall>) {
    forall k, name :: 0 <= k < |steps| && name in steps[k].dependsOn ==> Known(steps[..k], name)
  }

  lemma {:induction false} IndexInPrefix(steps: seq<ToolCall>, n: nat, name: string)
    requires n <= |steps| && DistinctIds(steps) && IndexOfId(steps[..n], name).Some?
    ensures IndexOfId(steps, name) == IndexOfId(steps[..n], name)
  {
    IndexOfIdBound(steps[..n], name);
    IndexOfIdBound(steps, name);
  }

  lemma {:induction false} ResolveInPrefix(steps: seq<ToolCall>, n: nat, names: seq<string>, d: nat)
    requires n <= |steps| && DistinctIds(steps) && d in Resolve(steps[..n], names)
    ensures d in Resolve(steps, names)
  {
    var front, name := names[..|names| - 1], names[|names| - 1];
    if d in Resolve(steps[..n], front) {
      ResolveInPrefix(steps, n, front, d);
    } else {
      IndexInPrefix(steps, n, name);
    }
  }

  lemma PrefixHasNoCycle(steps: seq<ToolCall>, n: nat)
    requires n <= |steps| && DistinctIds(steps) && !HasCycle(DepsOf(steps))
    ensures !HasCycle(DepsOf(steps[..n]))
  {
    var part, whole := Edges(DepsOf(steps[..n])), Edges(DepsOf(steps));
    forall e | e in part ensures e in whole {
      EdgeIn(DepsOf(steps[..n]), e.0, e.1);
      ResolveInPrefix(steps, n, steps[e.0].dependsOn, e.1);
      EdgeOf(DepsOf(steps), e.0, e.1);
    }
    hide Edges, Reach;
    if CycleIn(part) {
      var a, b :| (a, b) in part && Reach(part, b, a);
      ReachMonotone(part, whole, b, a);
    }
  }

  /** A plan given to `run` is validated but not sorted. An accepted one runs every step
      after the steps it names exactly when the validator's dependency check accepts
      each of its beginnings. */
  lemma GivenPlanInOrderIff(steps: seq<ToolCall>)
    requires GoodDependencies(steps)
    ensures InOrder(steps) <==> forall n :: 0 <= n <= |steps| ==> GoodDependencies(steps[..n])
  {
    hide HasCycle;
    if InOrder(steps) {
      forall n | 0 <= n <= |steps| ensures GoodDependencies(steps[..n]) {
        PrefixHasNoCycle(steps, n);
        forall i, name | 0 <= i < n && name in steps[..n][i].dependsOn ensures Known(steps[..n], name) {
          var j :| 0 <= j < i && steps[..i][j].stepId == Some(name);
          assert steps[..n][j].stepId == Some(name);
        }
      }
    }
    if forall n :: 0 <= n <= |steps| ==> GoodDependencies(steps[..n]) {
      forall k, name | 0 <= k < |steps| && name in steps[k].dependsOn ensures Known(steps[..k], name) {
        var part := steps[..k + 1];
        assert GoodDependencies(part) && part[k] == steps[k];
        assert Known(part, name);
        var j :| 0 <= j < |part| && part[j].stepId == Some(name);
        assert j != k && steps[..k][j].stepId == Some(name);
      }
    }
  }

  /** Accepted, and in the wrong order: "b" runs before "a", which it depends on. */
  lemma GivenPlanOutOfOrder(suffix: string -> string, extensions: set<string>)
    ensures
      var plan := [ToolCall(0, "list_files", map[], Some("b"), ["a"]), ToolCall(1, "list_files", map[], Some("a"), [])];
      GoodPlan(plan, suffix, extensions) && !InOrder(plan)
  {
    var plan := [ToolCall(0, "list_files", map[], Some("b"), ["a"]), ToolCall(1, "list_files", map[], Some("a"), [])];
    assert "a" != "b";
    assert plan[1].stepId == Some("a") && Known(plan, "a");
    assert "a" in plan[0].dependsOn && !Known(plan[..0], "a");
    OneNameResolved(plan, "a", 1);
    OneEdge(DepsOf(plan));
  }

  lemma OneNameResolved(steps: seq<ToolCall>, name: string, i: nat)
    requires |steps| == i + 1 && steps[i].stepId == Some(name)
    ensures Resolve(steps, [name]) == [i]
  {
    assert [name][..0] == [] && Resolve(steps, []) == [];
  }

  lemma OneEdge(deps: Deps)
    requires deps == [[1], []]
    ensures !HasCycle(deps)
  {
    forall a, b | (a, b) in Edges(deps) ensures !Reach(Edges(deps), b, a) {
      EdgeIn(deps, a, b);
      if Reach(Edges(deps), 1, 0) {
        var p :| PathBetween(Edges(deps), p, 1, 0);
        assert (p[0], p[1]) in Edges(deps);
        EdgeIn(deps, p[0], p[1]);
      }
    }
  }
}
