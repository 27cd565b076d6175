/** Staged file edits: noticing that a file moved on, applying a batch all or
    nothing, and discarding it. The disk is a map from paths to contents. */
module ChangeManager {
  import opened Collections

  type Disk = map<string, string>

  /** `original` None for a new file, `updated` None for a deletion. */
  datatype PendingEdit = PendingEdit(path: string, original: Option<string>, updated: Option<string>)

  /** How a command ended: with output, with a non-zero exit (CalledProcessError),
      or with another exception, such as a timeout. */
  datatype RunOutcome = Exited(output: string) | NonZeroExit | OtherError

  /** What has been done to the outside world, in order. */
  datatype Effect = Applied(edits: seq<PendingEdit>) | Ran(command: string, outcome: RunOutcome)

  function Content(disk: Disk, path: string): Option<string> {
    if path in disk then Some(disk[path]) else None
  }

  /** Writes the content, or removes the file for None. */
  function Put(disk: Disk, path: string, content: Option<string>): Disk {
    match content case None => disk - {path} case Some(text) => disk[path := text]
  }

  lemma PutContent(disk: Disk, path: string, content: Option<string>)
    ensures Content(Put(disk, path, content), path) == content
    ensures forall p :: p != path ==> Content(Put(disk, path, content), p) == Content(disk, p)
  {
  }

  lemma SameDisk(a: Disk, b: Disk)
    requires forall p :: Content(a, p) == Content(b, p)
    ensures a == b
  {
    forall p | p in a || p in b ensures p in a && p in b && a[p] == b[p] {
      assert Content(a, p) == Content(b, p);
    }
    assert a.Keys == b.Keys by {
      forall p | p in a.Keys || p in b.Keys ensures p in a.Keys && p in b.Keys {
        assert p in a || p in b;
      }
    }
  }

  /** The disk after the edits, one after the other. */
  function Replay(disk: Disk, edits: seq<PendingEdit>): Disk {
    if edits == [] then disk
    else
      var last := edits[|edits| - 1];
      Put(Replay(disk, edits[..|edits| - 1]), last.path, last.updated)
  }

  /** Every edit was computed against what the disk holds when its turn comes. */
  ghost predicate UpToDate(disk: Disk, edits: seq<PendingEdit>) {
    forall i :: 0 <= i < |edits| ==> Content(Replay(disk, edits[..i]), edits[i].path) == edits[i].original
  }

  /** Where the edits lead: the last edit of a path decides, other paths stay. */
  lemma {:induction false} ReplayDecidedByLast(disk: Disk, edits: seq<PendingEdit>, path: string)
    ensures (forall i :: 0 <= i < |edits| ==> edits[i].path != path) ==>
      Content(Replay(disk, edits), path) == Content(disk, path)
    ensures forall i :: 0 <= i < |edits| && edits[i].path == path && (forall j :: i < j < |edits| ==> edits[j].path != path) ==>
      Content(Replay(disk, edits), path) == edits[i].updated
  {
    hide Content, Put;
    if edits == [] {
    } else {
      hide Replay;
      var front, last := edits[..|edits| - 1], edits[|edits| - 1];
      ReplayDecidedByLast(disk, front, path);
      PutContent(Replay(disk, front), last.path, last.updated);
      assert forall i :: 0 <= i < |front| ==> front[i] == edits[i];
      ReplayLast(disk, edits);
    }
  }

  lemma ReplayLast(disk: Disk, edits: seq<PendingEdit>)
    requires edits != []
    ensures Replay(disk, edits) ==
      Put(Replay(disk, edits[..|edits| - 1]), edits[|edits| - 1].path, edits[|edits| - 1].updated)
  {
  }

  lemma ReplayOne(disk: Disk, edits: seq<PendingEdit>, k: nat)
    requires k < |edits|
    ensures Replay(disk, edits[..k + 1]) == Put(Replay(disk, edits[..k]), edits[k].path, edits[k].updated)
  {
    assert edits[..k + 1][..k] == edits[..k];
  }

  /** What can go wrong while writing: the write with this index raises, leaving
      its file alone (None) or holding something else. */
  datatype Fault = NoFault | FailsAt(index: nat, leaves: Option<Option<string>>)

  function AfterFault(disk: Disk, path: string, leaves: Option<Option<string>>): Disk {
    match leaves case None => disk case Some(content) => Put(disk, path, content)
  }

  datatype ApplyError = Stale(paths: seq<string>) | WriteFailed

  ghost predicate Mismatch(disk: Disk, edits: seq<PendingEdit>, i: nat)
    requires i < |edits|
  {
    Content(Replay(disk, edits[..i]), edits[i].path) != edits[i].original
  }

  ghost predicate StaleIn(disk: Disk, edits: seq<PendingEdit>, n: nat, p: string)
    requires n <= |edits|
  {
    exists i :: 0 <= i < n && edits[i].path == p && Mismatch(disk, edits, i)
  }

  lemma StaleInNext(disk: Disk, edits: seq<PendingEdit>, n: nat)
    requires n < |edits|
    ensures forall p :: StaleIn(disk, edits, n + 1, p) <==>
      StaleIn(disk, edits, n, p) || (edits[n].path == p && Mismatch(disk, edits, n))
  {
    hide Mismatch;
    forall p ensures StaleIn(disk, edits, n + 1, p) <==>
      StaleIn(disk, edits, n, p) || (edits[n].path == p && Mismatch(disk, edits, n))
    {
      if edits[n].path == p && Mismatch(disk, edits, n) {
        assert 0 <= n < n + 1 && edits[n].path == p;
      }
      if StaleIn(disk, edits, n, p) {
        var i :| 0 <= i < n && edits[i].path == p && Mismatch(disk, edits, i);
        assert 0 <= i < n + 1;
      }
    }
  }

  lemma UpToDateIff(disk: Disk, edits: seq<PendingEdit>)
    ensures UpToDate(disk, edits) <==> forall p :: !StaleIn(disk, edits, |edits|, p)
  {
    hide Replay, Content;
    if !UpToDate(disk, edits) {
      var i :| 0 <= i < |edits| && Content(Replay(disk, edits[..i]), edits[i].path) != edits[i].original;
      assert Mismatch(disk, edits, i);
      assert StaleIn(disk, edits, |edits|, edits[i].path);
    }
  }

  /** The running projection: what each path holds after the first n edits. */
  ghost predicate Projected(disk: Disk, edits: seq<PendingEdit>, n: nat, projected: map<string, Option<string>>)
    requires n <= |edits|
  {
    forall p :: Content(Replay(disk, edits[..n]), p) == (if p in projected then projected[p] else Content(disk, p))
  }

  lemma ProjectedStart(disk: Disk, edits: seq<PendingEdit>)
    ensures Projected(disk, edits, 0, map[])
  {
  }

  lemma ProjectedNext(disk: Disk, edits: seq<PendingEdit>, n: nat, projected: map<string, Option<string>>)
    requires n < |edits| && Projected(disk, edits, n, projected)
    ensures Projected(disk, edits, n + 1, projected[edits[n].path := edits[n].updated])
  {
    ReplayOne(disk, edits, n);
    PutContent(Replay(disk, edits[..n]), edits[n].path, edits[n].updated);
  }

  class Workspace {
    var files: Disk
    ghost var log: seq<Effect>

    constructor (files: Disk)
      ensures this.files == files && log == []
    {
      this.files := files;
      log := [];
    }
  }

  class Manager {
    const workspace: Workspace
    var pending: seq<PendingEdit>

    constructor (workspace: Workspace)
      ensures this.workspace == workspace && pending == []
    {
      this.workspace := workspace;
      pending := [];
    }

    method Propose(edit: PendingEdit)
      modifies this
      ensures pending == old(pending) + [edit]
    {
      pending := pending + [edit];
    }

    /** Exactly the staged paths whose file is not what some edit was computed
        against; none exactly when the batch is up to date. */
    method StalePaths() returns (stale: seq<string>)
      ensures forall p :: p in stale <==> StaleIn(workspace.files, pending, |pending|, p)
      ensures stale == [] <==> UpToDate(workspace.files, pending)
    {
      hide Replay, Content, Put;
      stale := [];
      var projected: map<string, Option<string>> := map[];
      ProjectedStart(workspace.files, pending);
      for i := 0 to |pending|
        invariant Projected(workspace.files, pending, i, projected)
        invariant forall p :: p in stale <==> StaleIn(workspace.files, pending, i, p)
      {
        var edit := pending[i];
        var expected := if edit.path in projected then projected[edit.path] else Content(workspace.files, edit.path);
        StaleInNext(workspace.files, pending, i);
        if expected != edit.original && edit.path !in stale {
          stale := stale + [edit.path];
        }
        ProjectedNext(workspace.files, pending, i, projected);
        projected := projected[edit.path := edit.updated];
      }
      UpToDateIff(workspace.files, pending);
      hide StaleIn;
      if stale != [] {
        assert stale[0] in stale;
      }
    }

    /** Applies the whole batch and clears it, or raises and keeps it staged. A
        failed write is rolled back, path by path, from snapshots taken before. */
    method ApplyAll(fault: Fault) returns (r: Result<seq<string>, ApplyError>)
      modifies this, workspace
      ensures r.Ok? ==>
        UpToDate(old(workspace.files), old(pending)) && pending == [] &&
        workspace.files == Replay(old(workspace.files), old(pending)) &&
        workspace.log == old(workspace.log) + Done(old(pending)) && r.value == PathsOf(old(pending))
      ensures r.Err? ==> pending == old(pending) != [] && workspace.log == old(workspace.log)
      ensures r.Err? && r.error.Stale? ==>
        !UpToDate(old(workspace.files), old(pending)) && workspace.files == old(workspace.files)
      ensures r.Err? && r.error.WriteFailed? ==>
        fault.FailsAt? && fault.index < |pending| &&
        workspace.files == RolledBack(old(workspace.files), pending, fault.index, fault.leaves)
      ensures fault.NoFault? && UpToDate(old(workspace.files), old(pending)) ==> r.Ok?
    {
      if pending == [] {
        return Ok([]);
      }
      var stale := StalePaths();
      if stale != [] {
        return Err(Stale(stale));
      }
      var snapshots := workspace.files;
      var applied: seq<string> := [];
      for i := 0 to |pending|
        invariant pending == old(pending) && workspace.log == old(workspace.log)
        invariant workspace.files == Replay(snapshots, pending[..i])
        invariant fault.FailsAt? ==> i <= fault.index
        invariant applied == PathsOf(pending[..i])
      {
        var edit := pending[i];
        if fault.FailsAt? && fault.index == i {
          workspace.files := AfterFault(workspace.files, edit.path, fault.leaves);
          Rollback(snapshots, applied);
          RolledBackIs(snapshots, pending, i, fault.leaves);
          return Err(WriteFailed);
        }
        ReplayOne(snapshots, pending, i);
        workspace.files := Put(workspace.files, edit.path, edit.updated);
        applied := applied + [edit.path];
        assert pending[..i + 1][..i] == pending[..i];
      }
      assert pending[..|pending|] == pending;
      workspace.log := workspace.log + Done(pending);
      pending := [];
      return Ok(applied);
    }

    method Rollback(snapshots: Disk, applied: seq<string>)
      modifies workspace
      ensures workspace.log == old(workspace.log)
      ensures workspace.files == Restore(old(workspace.files), snapshots, applied)
    {
      for i := 0 to |applied|
        invariant workspace.log == old(workspace.log)
        invariant workspace.files == Restore(old(workspace.files), snapshots, applied[..i])
      {
        assert applied[..i + 1][..i] == applied[..i];
        workspace.files := Put(workspace.files, applied[i], Content(snapshots, applied[i]));
      }
      assert applied[..|applied|] == applied;
    }

    method DiscardAll() returns (discarded: seq<string>)
      modifies this
      ensures pending == [] && discarded == PathsOf(old(pending))
    {
      discarded := PathsOf(pending);
      pending := [];
    }
  }

  /** The effect of applying a batch; an empty batch has none. */
  function Done(edits: seq<PendingEdit>): seq<Effect> {
    if edits == [] then [] else [Applied(edits)]
  }

  function PathsOf(edits: seq<PendingEdit>): seq<string> {
    if edits == [] then [] else PathsOf(edits[..|edits| - 1]) + [edits[|edits| - 1].path]
  }

  function Restore(disk: Disk, snapshots: Disk, paths: seq<string>): Disk {
    if paths == [] then disk
    else
      var last := paths[|paths| - 1];
      Put(Restore(disk, snapshots, paths[..|paths| - 1]), last, Content(snapshots, last))
  }

  /** The disk after a failed batch: as before it, except that the file whose write
      failed may keep what the failed write left, unless an earlier edit of the
      same file was rolled back. */
  function RolledBack(disk: Disk, edits: seq<PendingEdit>, k: nat, leaves: Option<Option<string>>): Disk
    requires k < |edits|
  {
    if edits[k].path in PathsOf(edits[..k]) then disk else AfterFault(disk, edits[k].path, leaves)
  }

  lemma {:induction false} RestoreContent(disk: Disk, snapshots: Disk, paths: seq<string>, p: string)
    ensures Content(Restore(disk, snapshots, paths), p) ==
      if p in paths then Content(snapshots, p) else Content(disk, p)
  {
    if paths != [] {
      var front, last := paths[..|paths| - 1], paths[|paths| - 1];
      RestoreContent(disk, snapshots, front, p);
      PutContent(Restore(disk, snapshots, front), last, Content(snapshots, last));
      assert paths == front + [last];
    }
  }

  lemma {:induction false} PathsOfMember(edits: seq<PendingEdit>, p: string)
    ensures p in PathsOf(edits) <==> exists i :: 0 <= i < |edits| && edits[i].path == p
  {
    if edits != [] {
      var front := edits[..|edits| - 1];
      PathsOfMember(front, p);
      assert forall i :: 0 <= i < |front| ==> front[i] == edits[i];
    }
  }

  lemma RolledBackIs(disk: Disk, edits: seq<PendingEdit>, k: nat, leaves: Option<Option<string>>)
    requires k < |edits|
    ensures Restore(AfterFault(Replay(disk, edits[..k]), edits[k].path, leaves), disk, PathsOf(edits[..k])) ==
      RolledBack(disk, edits, k, leaves)
  {
    var paths, path := PathsOf(edits[..k]), edits[k].path;
    var broken := AfterFault(Replay(disk, edits[..k]), path, leaves);
    var restored := Restore(broken, disk, paths);
    forall p ensures Content(restored, p) == Content(RolledBack(disk, edits, k, leaves), p) {
      RestoreContent(broken, disk, paths, p);
      PathsOfMember(edits[..k], p);
      ReplayDecidedByLast(disk, edits[..k], p);
      if leaves.Some? {
        PutContent(Replay(disk, edits[..k]), path, leaves.value);
        PutContent(disk, path, leaves.value);
      }
    }
    SameDisk(restored, RolledBack(disk, edits, k, leaves));
  }

  /** A failed batch leaves the disk exactly as it was if and only if the failed
      write left its own file as it was, or that file had been written before in
      the same batch and so was restored. */
  lemma RollbackExact(disk: Disk, edits: seq<PendingEdit>, k: nat, leaves: Option<Option<string>>)
    requires k < |edits|
    ensures RolledBack(disk, edits, k, leaves) == disk <==>
      leaves.None? || leaves.value == Content(disk, edits[k].path) || edits[k].path in PathsOf(edits[..k])
  {
    var path := edits[k].path;
    if leaves.Some? {
      PutContent(disk, path, leaves.value);
      if leaves.value == Content(disk, path) {
        SameDisk(Put(disk, path, leaves.value), disk);
      }
    }
  }

  /** The file a failed write was working on is not among those restored. */
  lemma HalfWrittenFileStays()
    ensures var disk: Disk := map["a" := "old"];
      RolledBack(disk, [PendingEdit("a", Some("old"), Some("new"))], 0, Some(Some("ne"))) != disk
  {
    var disk: Disk, edits := map["a" := "old"], [PendingEdit("a", Some("old"), Some("new"))];
    assert edits[..0] == [];
    RollbackExact(disk, edits, 0, Some(Some("ne")));
    assert "old"[0] != "ne"[0];
    assert Content(disk, "a") == Some("old");
  }
}
