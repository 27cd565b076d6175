/** The repository walk: `.gitignore` files cached as directories are visited, ignored
    directories pruned, and what the scan collects in the end. */
module Scanner {
  import opened Collections
  import opened Gitignore
  import opened Strings

  /** `lines` is the text of the file, read only from a `.gitignore`. */
  datatype File = File(name: string, size: nat, lines: seq<string>)
  datatype Dir = Dir(name: string, files: seq<File>, dirs: seq<Dir>)

  /** Directory names never entered, and the largest size collected. */
  datatype Settings = Settings(ignoreDirs: set<string>, maxSize: nat)

  /** What any file system gives: names are unique within a directory. */
  predicate WellFormed(d: Dir) {
    && (forall i, j :: 0 <= i < j < |d.files| ==> d.files[i].name != d.files[j].name)
    && (forall i, j :: 0 <= i < j < |d.dirs| ==> d.dirs[i].name != d.dirs[j].name)
    && (forall i :: 0 <= i < |d.dirs| ==> WellFormed(d.dirs[i]))
  }

  function IgnoreLines(files: seq<File>): seq<string> {
    if files == [] then []
    else if files[0].name == ".gitignore" then files[0].lines
    else IgnoreLines(files[1..])
  }

  function RulesIn(d: Dir): seq<Rule> {
    ParseAll(IgnoreLines(d.files))
  }

  // ----- what the scan should collect -----

  function Names(trail: seq<Dir>): Path {
    seq(|trail|, i requires 0 <= i < |trail| => trail[i].name)
  }

  /** A descent of the tree: each directory lies in the one before, the first in `top`. */
  ghost predicate Descends(top: Dir, trail: seq<Dir>) {
    forall k :: 0 <= k < |trail| ==> trail[k] in Parent(top, trail, k).dirs
  }

  function Parent(top: Dir, trail: seq<Dir>, k: nat): Dir
    requires k <= |trail|
  {
    if k == 0 then top else trail[k - 1]
  }

  /** A directory being listed: its path, the rules in force inside it, and itself. */
  datatype Scope = Scope(path: Path, rules: seq<Placed>, here: Dir)

  function RootScope(root: Dir): Scope {
    Scope([], Place([], RulesIn(root)), root)
  }

  /** The rules in force at the end of a descent: those of every `.gitignore` on the
      way, from the top down. */
  ghost function RulesAt(p: Scope, trail: seq<Dir>): seq<Placed> {
    if trail == [] then p.rules
    else
      RulesAt(p, trail[..|trail| - 1]) + Place(p.path + Names(trail), RulesIn(trail[|trail| - 1]))
  }

  /** The directory may be entered from one with these rules. */
  ghost predicate Entered(settings: Settings, rules: seq<Placed>, path: Path) {
    path != [] && path[|path| - 1] !in settings.ignoreDirs && !Ignored(rules, path, true)
  }

  /** The k-th directory of the descent is not ignored, judged by the rules above it. */
  ghost predicate OpenAt(settings: Settings, p: Scope, trail: seq<Dir>, k: nat)
    requires k < |trail|
  {
    Entered(settings, RulesAt(p, trail[..k]), p.path + Names(trail[..k + 1]))
  }

  ghost predicate Open(settings: Settings, p: Scope, trail: seq<Dir>) {
    forall k :: 0 <= k < |trail| ==> OpenAt(settings, p, trail, k)
  }

  ghost predicate Kept(settings: Settings, rules: seq<Placed>, path: Path, f: File) {
    !Ignored(rules, path + [f.name], false) && f.size <= settings.maxSize
  }

  /** The file at the end of this descent belongs in the scan. */
  ghost predicate Visible(settings: Settings, p: Scope, trail: seq<Dir>, f: File) {
    && Descends(p.here, trail) && Open(settings, p, trail)
    && f in Parent(p.here, trail, |trail|).files
    && Kept(settings, RulesAt(p, trail), p.path + Names(trail), f)
  }

  ghost predicate IsVisible(settings: Settings, p: Scope, path: Path) {
    exists trail, f: File :: Visible(settings, p, trail, f) && path == p.path + Names(trail) + [f.name]
  }

  // ----- the same, listed directory by directory -----

  function Inside(p: Scope, d: Dir): Scope {
    Scope(p.path + [d.name], p.rules + Place(p.path + [d.name], RulesIn(d)), d)
  }

  ghost function FilesListed(settings: Settings, p: Scope, files: seq<File>): seq<Path> {
    if files == [] then []
    else
      (if Kept(settings, p.rules, p.path, files[0]) then [p.path + [files[0].name]] else []) +
      FilesListed(settings, p, files[1..])
  }

  ghost function Listed(settings: Settings, p: Scope): seq<Path>
    decreases p.here
  {
    FilesListed(settings, p, p.here.files) + DirsListed(settings, p, p.here.dirs)
  }

  ghost function DirsListed(settings: Settings, p: Scope, dirs: seq<Dir>): seq<Path>
    decreases dirs
  {
    if dirs == [] then []
    else
      (if Entered(settings, p.rules, p.path + [dirs[0].name]) then Listed(settings, Inside(p, dirs[0])) else []) +
      DirsListed(settings, p, dirs[1..])
  }

  // ----- the listing collects what is visible -----

  lemma {:induction false} FileListed(settings: Settings, p: Scope, files: seq<File>, path: Path)
    ensures path in FilesListed(settings, p, files) <==>
            exists f: File :: f in files && Kept(settings, p.rules, p.path, f) && path == p.path + [f.name]
  {
    hide Kept;
    if files != [] {
      FileListed(settings, p, files[1..], path);
      assert forall f: File :: f in files <==> f == files[0] || f in files[1..];
    }
  }

  ghost predicate Below(settings: Settings, p: Scope, d: Dir, path: Path) {
    Entered(settings, p.rules, p.path + [d.name]) && path in Listed(settings, Inside(p, d))
  }

  lemma {:induction false} DirListed(settings: Settings, p: Scope, dirs: seq<Dir>, path: Path)
    ensures path in DirsListed(settings, p, dirs) <==> exists d: Dir :: d in dirs && Below(settings, p, d, path)
  {
    hide Entered, Listed, Inside;
    if dirs != [] {
      DirListed(settings, p, dirs[1..], path);
      assert forall d: Dir :: d in dirs <==> d == dirs[0] || d in dirs[1..];
      var first := if Entered(settings, p.rules, p.path + [dirs[0].name]) then Listed(settings, Inside(p, dirs[0])) else [];
      assert path in DirsListed(settings, p, dirs) <==> path in first || path in DirsListed(settings, p, dirs[1..]);
      assert path in first <==> Below(settings, p, dirs[0], path);
    }
  }

  lemma NamesCons(trail: seq<Dir>)
    requires trail != []
    ensures Names(trail) == [trail[0].name] + Names(trail[1..])
  {
  }

  lemma {:induction false} RulesInside(p: Scope, trail: seq<Dir>)
    requires trail != []
    ensures RulesAt(p, trail) == RulesAt(Inside(p, trail[0]), trail[1..])
  {
    var n := |trail| - 1;
    NamesCons(trail);
    assert p.path + [trail[0].name] + Names(trail[1..]) == p.path + Names(trail);
    if n == 0 {
      assert trail[..0] == [] && trail[1..] == [] && Names(trail) == [trail[0].name];
    } else {
      RulesInside(p, trail[..n]);
      assert trail[..n][1..] == trail[1..][..n - 1];
    }
  }

  lemma OpenAtInside(settings: Settings, p: Scope, trail: seq<Dir>, k: nat)
    requires k + 1 < |trail|
    ensures OpenAt(settings, p, trail, k + 1) <==> OpenAt(settings, Inside(p, trail[0]), trail[1..], k)
  {
    var q, t := Inside(p, trail[0]), trail[1..];
    RulesInside(p, trail[..k + 1]);
    assert trail[..k + 1][1..] == t[..k];
    NamesCons(trail[..k + 2]);
    assert trail[..k + 2][1..] == t[..k + 1];
    hide RulesAt, Names, Entered;
    assert p.path + ([trail[0].name] + Names(t[..k + 1])) == q.path + Names(t[..k + 1]);
  }

  lemma OpenInside(settings: Settings, p: Scope, trail: seq<Dir>)
    requires trail != []
    ensures Open(settings, p, trail) <==>
            Entered(settings, p.rules, p.path + [trail[0].name]) && Open(settings, Inside(p, trail[0]), trail[1..])
  {
    hide Entered, OpenAt;
    var q, t := Inside(p, trail[0]), trail[1..];
    forall k | 0 <= k < |t| ensures OpenAt(settings, p, trail, k + 1) <==> OpenAt(settings, q, t, k) {
      OpenAtInside(settings, p, trail, k);
    }
    FirstOpen(settings, p, trail);
    if OpenAt(settings, p, trail, 0) && Open(settings, q, t) {
      forall k | 0 <= k < |trail| ensures OpenAt(settings, p, trail, k) {
        assert k > 0 ==> OpenAt(settings, q, t, k - 1) && k - 1 + 1 == k;
      }
    }
  }

  lemma FirstOpen(settings: Settings, p: Scope, trail: seq<Dir>)
    requires trail != []
    ensures OpenAt(settings, p, trail, 0) <==> Entered(settings, p.rules, p.path + [trail[0].name])
  {
    assert trail[..0] == [] && Names(trail[..1]) == [trail[0].name];
  }

  lemma DescendsInside(top: Dir, trail: seq<Dir>)
    requires trail != []
    ensures Descends(top, trail) <==> trail[0] in top.dirs && Descends(trail[0], trail[1..])
    ensures Parent(top, trail, |trail|) == Parent(trail[0], trail[1..], |trail[1..]|)
  {
    var t := trail[1..];
    assert forall k :: 0 <= k < |t| ==> t[k] == trail[k + 1] && Parent(trail[0], t, k) == Parent(top, trail, k + 1);
    if trail[0] in top.dirs && Descends(trail[0], t) {
      forall k | 0 <= k < |trail| ensures trail[k] in Parent(top, trail, k).dirs {
        assert k > 0 ==> t[k - 1] in Parent(trail[0], t, k - 1).dirs;
      }
    }
  }

  /** What is visible below a directory is what is visible from inside it, if it may be
      entered. */
  lemma VisibleInside(settings: Settings, p: Scope, trail: seq<Dir>, f: File)
    requires trail != []
    ensures Visible(settings, p, trail, f) <==>
            && trail[0] in p.here.dirs && Entered(settings, p.rules, p.path + [trail[0].name])
            && Visible(settings, Inside(p, trail[0]), trail[1..], f)
    ensures p.path + Names(trail) + [f.name] == Inside(p, trail[0]).path + Names(trail[1..]) + [f.name]
  {
    hide Names, Entered, Open, RulesAt, Kept, Descends;
    DescendsInside(p.here, trail);
    OpenInside(settings, p, trail);
    RulesInside(p, trail);
    NamesCons(trail);
    assert p.path + ([trail[0].name] + Names(trail[1..])) == p.path + [trail[0].name] + Names(trail[1..]);
  }

  lemma VisibleHere(settings: Settings, p: Scope, f: File)
    ensures Visible(settings, p, [], f) <==> f in p.here.files && Kept(settings, p.rules, p.path, f)
    ensures p.path + Names([]) == p.path
  {
    hide Kept;
    assert Names([]) == [] && p.path + [] == p.path;
  }

  /** Listing directory by directory collects exactly the visible files. */
  lemma {:induction false} ListedIsVisible(settings: Settings, p: Scope, path: Path)
    ensures path in Listed(settings, p) <==> IsVisible(settings, p, path)
    decreases p.here
  {
    hide *;
    forall d: Dir | d in p.here.dirs
      ensures Agrees(settings, Inside(p, d), path)
    {
      InsideHere(p, d);
      ListedIsVisible(settings, Inside(p, d), path);
      AgreesIs(settings, Inside(p, d), path);
    }
    if path in Listed(settings, p) {
      ListedVisible(settings, p, path);
    }
    if IsVisible(settings, p, path) {
      VisibleListed(settings, p, path);
    }
  }

  lemma ListedParts(settings: Settings, p: Scope, path: Path)
    ensures path in Listed(settings, p) <==>
            path in FilesListed(settings, p, p.here.files) || path in DirsListed(settings, p, p.here.dirs)
  {
  }

  lemma InsideHere(p: Scope, d: Dir)
    ensures Inside(p, d).here == d && Inside(p, d).path == p.path + [d.name]
  {
  }

  ghost predicate Agrees(settings: Settings, p: Scope, path: Path) {
    path in Listed(settings, p) <==> IsVisible(settings, p, path)
  }

  lemma AgreesIs(settings: Settings, p: Scope, path: Path)
    requires path in Listed(settings, p) <==> IsVisible(settings, p, path)
    ensures Agrees(settings, p, path)
  {
  }

  lemma ListedVisible(settings: Settings, p: Scope, path: Path)
    requires forall d: Dir :: d in p.here.dirs ==> Agrees(settings, Inside(p, d), path)
    requires path in Listed(settings, p)
    ensures IsVisible(settings, p, path)
  {
    hide Kept, Entered, Visible, Inside, Listed, Names;
    ListedParts(settings, p, path);
    FileListed(settings, p, p.here.files, path);
    DirListed(settings, p, p.here.dirs, path);
    if path in FilesListed(settings, p, p.here.files) {
      var f: File :| f in p.here.files && Kept(settings, p.rules, p.path, f) && path == p.path + [f.name];
      VisibleHere(settings, p, f);
      assert Visible(settings, p, [], f) && path == p.path + Names([]) + [f.name];
    } else {
      var d: Dir :| d in p.here.dirs && Below(settings, p, d, path);
      var t, f: File :| Visible(settings, Inside(p, d), t, f) && path == Inside(p, d).path + Names(t) + [f.name];
      assert ([d] + t)[1..] == t;
      VisibleInside(settings, p, [d] + t, f);
    }
  }

  lemma VisibleListed(settings: Settings, p: Scope, path: Path)
    requires forall d: Dir :: d in p.here.dirs ==> Agrees(settings, Inside(p, d), path)
    requires IsVisible(settings, p, path)
    ensures path in Listed(settings, p)
  {
    hide Kept, Entered, Visible, Inside, Listed, Names;
    ListedParts(settings, p, path);
    FileListed(settings, p, p.here.files, path);
    DirListed(settings, p, p.here.dirs, path);
    var trail, f: File :| Visible(settings, p, trail, f) && path == p.path + Names(trail) + [f.name];
    if trail == [] {
      VisibleHere(settings, p, f);
    } else {
      VisibleInside(settings, p, trail, f);
      assert IsVisible(settings, Inside(p, trail[0]), path);
      assert Below(settings, p, trail[0], path);
    }
  }

  // ----- and each of them once -----

  lemma DistinctConcat<T>(a: seq<T>, b: seq<T>)
    requires Distinct(a) && Distinct(b) && forall x :: x in a ==> x !in b
    ensures Distinct(a + b)
  {
    forall i, j | 0 <= i < j < |a + b| ensures (a + b)[i] != (a + b)[j] {
      assert i < |a| <= j ==> a[i] in a && b[j - |a|] in b;
    }
  }

  lemma {:induction false} FilesDistinct(settings: Settings, p: Scope, files: seq<File>)
    requires forall i, j :: 0 <= i < j < |files| ==> files[i].name != files[j].name
    ensures Distinct(FilesListed(settings, p, files))
    ensures forall q :: q in FilesListed(settings, p, files) ==> |q| == |p.path| + 1
  {
    hide Kept;
    if files != [] {
      var more := FilesListed(settings, p, files[1..]);
      FilesDistinct(settings, p, files[1..]);
      forall q | q in more ensures q != p.path + [files[0].name] {
        FileListed(settings, p, files[1..], q);
        var f: File :| f in files[1..] && q == p.path + [f.name];
        assert q[|p.path|] == f.name && (p.path + [files[0].name])[|p.path|] == files[0].name;
      }
      DistinctConcat([p.path + [files[0].name]], more);
    }
  }

  ghost predicate Under(path: Path, q: Path) {
    |path| < |q| && path <= q
  }

  lemma {:induction false} DirsDistinct(settings: Settings, p: Scope, dirs: seq<Dir>)
    requires forall i, j :: 0 <= i < j < |dirs| ==> dirs[i].name != dirs[j].name
    requires forall i :: 0 <= i < |dirs| ==> WellFormed(dirs[i])
    ensures Distinct(DirsListed(settings, p, dirs))
    ensures forall q :: q in DirsListed(settings, p, dirs) ==>
              |q| > |p.path| + 1 && p.path <= q && exists d: Dir :: d in dirs && d.name == q[|p.path|]
    decreases dirs
  {
    hide Entered, Kept, Listed, WellFormed;
    if dirs != [] {
      var d, more := dirs[0], DirsListed(settings, p, dirs[1..]);
      InsideHere(p, d);
      DirsDistinct(settings, p, dirs[1..]);
      ListedDistinct(settings, Inside(p, d));
      forall q | q in Listed(settings, Inside(p, d)) ensures q !in more && q[|p.path|] == d.name && p.path <= q {
        assert Under(p.path + [d.name], q);
        assert q[..|p.path| + 1][|p.path|] == d.name;
      }
      DistinctConcat(Listed(settings, Inside(p, d)), more);
    }
  }

  lemma {:induction false} ListedDistinct(settings: Settings, p: Scope)
    requires WellFormed(p.here)
    ensures Distinct(Listed(settings, p))
    ensures forall q :: q in Listed(settings, p) ==> Under(p.path, q)
    decreases p.here
  {
    FilesDistinct(settings, p, p.here.files);
    DirsDistinct(settings, p, p.here.dirs);
    hide *;
    UnderPath(settings, p);
    ListedIs(settings, p);
    DistinctConcat(FilesListed(settings, p, p.here.files), DirsListed(settings, p, p.here.dirs));
  }

  lemma ListedIs(settings: Settings, p: Scope)
    ensures Listed(settings, p) == FilesListed(settings, p, p.here.files) + DirsListed(settings, p, p.here.dirs)
  {
  }

  lemma UnderPath(settings: Settings, p: Scope)
    requires forall q :: q in DirsListed(settings, p, p.here.dirs) ==> |q| > |p.path| + 1 && p.path <= q
    ensures forall q :: q in DirsListed(settings, p, p.here.dirs) ==> Under(p.path, q)
    ensures forall q :: q in FilesListed(settings, p, p.here.files) ==> Under(p.path, q)
  {
    hide FilesListed, DirsListed, Kept;
    forall q | q in FilesListed(settings, p, p.here.files) ensures Under(p.path, q) {
      FileListed(settings, p, p.here.files, q);
    }
  }

  // ----- the cache of rule sets -----

  type Cache = map<Path, Ruleset>

  /** The cached rule sets on the way to a directory, from the root down. */
  function Gathered(path: Path, cache: Cache): seq<Ruleset> {
    (if path == [] then [] else Gathered(path[..|path| - 1], cache)) + (if path in cache then [cache[path]] else [])
  }

  method CollectRules(path: Path, cache: Cache) returns (collected: seq<Ruleset>)
    ensures collected == Gathered(path, cache)
  {
    collected := [];
    var current: Path := [];
    if current in cache {
      collected := collected + [cache[current]];
    }
    for i := 0 to |path|
      invariant current == path[..i] && collected == Gathered(current, cache)
    {
      current := current + [path[i]];
      assert current == path[..i + 1] && current[..|current| - 1] == path[..i];
      if current in cache {
        collected := collected + [cache[current]];
      }
    }
    assert path[..|path|] == path;
  }

  method LoadGitignore(d: Dir, path: Path) returns (r: Option<Ruleset>)
    ensures r == if RulesIn(d) == [] then None else Some(RulesetOf(path, RulesIn(d)))
  {
    var rules := CompileRules(path, IgnoreLines(d.files));
    assert |rules.patterns| == |RulesIn(d)|;
    return if |rules.patterns| > 0 then Some(rules) else None;
  }

  lemma {:induction false} GatheredFrame(path: Path, a: Cache, b: Cache)
    requires forall k :: 0 <= k <= |path| ==> (path[..k] in a <==> path[..k] in b)
    requires forall k :: 0 <= k <= |path| ==> path[..k] in a && path[..k] in b ==> a[path[..k]] == b[path[..k]]
    ensures Gathered(path, a) == Gathered(path, b)
    decreases |path|
  {
    assert path[..|path|] == path;
    if path != [] {
      var up := path[..|path| - 1];
      forall k | 0 <= k <= |up| ensures up[..k] == path[..k] {
      }
      GatheredFrame(up, a, b);
    }
  }

  // ----- the walk -----

  /** A directory waiting to be visited. */
  datatype Job = Job(path: Path, dir: Dir)

  function Loaded(cache: Cache, job: Job): Cache {
    if job.path != [] && RulesIn(job.dir) != [] then cache[job.path := RulesetOf(job.path, RulesIn(job.dir))] else cache
  }

  function Extend(layers: seq<Layer>, job: Job): seq<Layer> {
    if RulesIn(job.dir) == [] then layers else layers + [Layer(job.path, RulesIn(job.dir))]
  }

  /** Nothing below the directory has been cached yet, and its own rules cached, the
      cache holds the rule sets above it. */
  ghost predicate Ready(cache: Cache, job: Job, layers: seq<Layer>) {
    && Gathered(job.path, Loaded(cache, job)) == Stacked(Extend(layers, job))
    && (forall q :: q in cache ==> !Under(job.path, q))
    && (job.path != [] ==> job.path !in cache)
    && WellFormed(job.dir)
  }

  predicate Apart(a: Path, b: Path) {
    !(a <= b) && !(b <= a)
  }

  lemma ReadyStays(cache: Cache, job: Job, other: Job, layers: seq<Layer>)
    requires Ready(cache, other, layers) && Apart(job.path, other.path)
    ensures Ready(Loaded(cache, job), other, layers)
  {
    hide RulesIn, WellFormed, RulesetOf, Stacked, Extend;
    forall k | 0 <= k <= |other.path| ensures other.path[..k] != job.path {
    }
    GatheredFrame(other.path, Loaded(cache, other), Loaded(Loaded(cache, job), other));
  }

  lemma ChildReady(cache: Cache, job: Job, layers: seq<Layer>, d: Dir)
    requires Ready(cache, job, layers) && WellFormed(d)
    ensures Ready(Loaded(cache, job), Job(job.path + [d.name], d), Extend(layers, job))
  {
    hide RulesIn, WellFormed, RulesetOf;
    var child, now := Job(job.path + [d.name], d), Loaded(cache, job);
    var next := Loaded(now, child);
    assert child.path[..|child.path| - 1] == job.path;
    forall k | 0 <= k <= |job.path| ensures job.path[..k] != child.path {
    }
    GatheredFrame(job.path, now, next);
    assert Under(job.path, child.path);
    assert Gathered(child.path, next) == Gathered(job.path, next) + (if child.path in next then [next[child.path]] else []);
    StackedExtend(Extend(layers, job), child);
  }

  lemma StackedExtend(layers: seq<Layer>, job: Job)
    ensures Stacked(Extend(layers, job)) ==
            Stacked(layers) + (if RulesIn(job.dir) == [] then [] else [RulesetOf(job.path, RulesIn(job.dir))])
  {
    hide RulesetOf, RulesIn;
  }

  function SizeAll(dirs: seq<Dir>): nat
    decreases dirs
  {
    if dirs == [] then 0 else 1 + SizeAll(dirs[0].dirs) + SizeAll(dirs[1..])
  }

  function Weight(jobs: seq<Job>): nat {
    if jobs == [] then 0 else 1 + SizeAll(jobs[0].dir.dirs) + Weight(jobs[1..])
  }

  lemma {:induction false} WeightConcat(a: seq<Job>, b: seq<Job>)
    ensures Weight(a + b) == Weight(a) + Weight(b)
  {
    if a == [] {
      assert a + b == b;
    } else {
      WeightConcat(a[1..], b);
      assert (a + b)[1..] == a[1..] + b;
    }
  }

  function ScopeOf(job: Job, layers: seq<Layer>): Scope {
    Scope(job.path, Flatten(layers) + Place(job.path, RulesIn(job.dir)), job.dir)
  }

  /** What the waiting directories will still add. */
  ghost function Outstanding(settings: Settings, jobs: seq<Job>, above: seq<seq<Layer>>): seq<Path>
    requires |jobs| == |above|
  {
    if jobs == [] then []
    else Listed(settings, ScopeOf(jobs[0], above[0])) + Outstanding(settings, jobs[1..], above[1..])
  }

  lemma {:induction false} OutstandingConcat(settings: Settings, a: seq<Job>, fa: seq<seq<Layer>>, b: seq<Job>, fb: seq<seq<Layer>>)
    requires |a| == |fa| && |b| == |fb|
    ensures Outstanding(settings, a + b, fa + fb) == Outstanding(settings, a, fa) + Outstanding(settings, b, fb)
  {
    hide Listed, ScopeOf;
    if a == [] {
      assert a + b == b && fa + fb == fb;
    } else {
      OutstandingConcat(settings, a[1..], fa[1..], b, fb);
      assert (a + b)[1..] == a[1..] + b && (fa + fb)[1..] == fa[1..] + fb;
    }
  }

  lemma FilesStep(settings: Settings, p: Scope, files: seq<File>, i: nat)
    requires i < |files|
    ensures FilesListed(settings, p, files[i..]) ==
      (if !Ignored(p.rules, p.path + [files[i].name], false) && files[i].size <= settings.maxSize
       then [p.path + [files[i].name]] else []) + FilesListed(settings, p, files[i + 1..])
  {
    hide Ignored;
    assert files[i..][0] == files[i] && files[i..][1..] == files[i + 1..];
  }

  lemma FilesEnds(settings: Settings, p: Scope, files: seq<File>)
    ensures files[0..] == files && files[|files|..] == [] && FilesListed(settings, p, []) == []
  {
  }

  method ListFiles(settings: Settings, dir: Path, files: seq<File>, active: seq<Ruleset>, ghost layers: seq<Layer>, ghost p: Scope)
    returns (found: seq<Path>)
    requires active == Stacked(layers) && p.rules == Flatten(layers) && p.path == dir
    ensures found == FilesListed(settings, p, files)
  {
    hide *;
    found := [];
    FilesEnds(settings, p, files);
    for i := 0 to |files|
      invariant FilesListed(settings, p, files) == found + FilesListed(settings, p, files[i..])
    {
      var f := files[i];
      FilesStep(settings, p, files, i);
      var path := dir + [f.name];
      var ignored := IsGitignored(path, false, active, layers);
      if ignored {
        continue;
      }
      if f.size > settings.maxSize {
        continue;
      }
      found := found + [path];
    }
  }

  /** The directories entered from here, in order, and the rules above them. */
  ghost function KeptJobs(settings: Settings, p: Scope, dirs: seq<Dir>): seq<Job> {
    if dirs == [] then []
    else
      (if Entered(settings, p.rules, p.path + [dirs[0].name]) then [Job(p.path + [dirs[0].name], dirs[0])] else []) +
      KeptJobs(settings, p, dirs[1..])
  }

  lemma KeptStep(settings: Settings, p: Scope, dirs: seq<Dir>, i: nat)
    requires i < |dirs|
    ensures var path := p.path + [dirs[i].name];
      KeptJobs(settings, p, dirs[i..]) ==
        (if dirs[i].name !in settings.ignoreDirs && !Ignored(p.rules, path, true) then [Job(path, dirs[i])] else []) +
        KeptJobs(settings, p, dirs[i + 1..])
  {
    hide Ignored;
    assert dirs[i..][0] == dirs[i] && dirs[i..][1..] == dirs[i + 1..];
  }

  lemma KeptEnds(settings: Settings, p: Scope, dirs: seq<Dir>)
    ensures dirs[0..] == dirs && dirs[|dirs|..] == [] && KeptJobs(settings, p, []) == []
  {
  }

  method KeepDirs(settings: Settings, dir: Path, dirs: seq<Dir>, active: seq<Ruleset>, ghost layers: seq<Layer>, ghost p: Scope)
    returns (kept: seq<Job>)
    requires active == Stacked(layers) && p.rules == Flatten(layers) && p.path == dir
    ensures kept == KeptJobs(settings, p, dirs)
  {
    hide *;
    kept := [];
    KeptEnds(settings, p, dirs);
    for i := 0 to |dirs|
      invariant KeptJobs(settings, p, dirs) == kept + KeptJobs(settings, p, dirs[i..])
    {
      var d := dirs[i];
      KeptStep(settings, p, dirs, i);
      var path := dir + [d.name];
      if d.name in settings.ignoreDirs {
        continue;
      }
      var ignored := IsGitignored(path, true, active, layers);
      if !ignored {
        kept := kept + [Job(path, d)];
      }
    }
  }

  function Same(layers: seq<Layer>, n: nat): seq<seq<Layer>> {
    seq(n, _ => layers)
  }

  lemma {:induction false} KeptOutstanding(settings: Settings, p: Scope, dirs: seq<Dir>, layers: seq<Layer>)
    requires p.rules == Flatten(layers)
    ensures var kept := KeptJobs(settings, p, dirs);
            Outstanding(settings, kept, Same(layers, |kept|)) == DirsListed(settings, p, dirs)
  {
    hide Listed, Entered, Flatten, RulesIn, Place;
    if dirs != [] {
      KeptOutstanding(settings, p, dirs[1..], layers);
      var d := dirs[0];
      var kept, more := KeptJobs(settings, p, dirs), KeptJobs(settings, p, dirs[1..]);
      if Entered(settings, p.rules, p.path + [d.name]) {
        assert kept[1..] == more && Same(layers, |kept|)[1..] == Same(layers, |more|);
        assert ScopeOf(kept[0], layers) == Inside(p, d);
      } else {
        assert kept == more;
      }
    }
  }

  lemma {:induction false} KeptWeight(settings: Settings, p: Scope, dirs: seq<Dir>)
    ensures Weight(KeptJobs(settings, p, dirs)) <= SizeAll(dirs)
  {
    hide Entered;
    if dirs != [] {
      KeptWeight(settings, p, dirs[1..]);
      var kept, more := KeptJobs(settings, p, dirs), KeptJobs(settings, p, dirs[1..]);
      assert kept == more || kept[1..] == more;
    }
  }

  predicate ChildOf(p: Scope, dirs: seq<Dir>, job: Job) {
    job.dir in dirs && job.path == p.path + [job.dir.name]
  }

  lemma {:induction false} KeptAre(settings: Settings, p: Scope, dirs: seq<Dir>, i: nat)
    requires i < |KeptJobs(settings, p, dirs)|
    ensures ChildOf(p, dirs, KeptJobs(settings, p, dirs)[i])
  {
    hide Entered;
    var kept, more := KeptJobs(settings, p, dirs), KeptJobs(settings, p, dirs[1..]);
    var n := |kept| - |more|;
    if i >= n {
      KeptAre(settings, p, dirs[1..], i - n);
      assert kept[i] == more[i - n];
    }
  }

  lemma {:induction false} KeptApart(settings: Settings, p: Scope, dirs: seq<Dir>, i: nat, j: nat)
    requires forall a, b :: 0 <= a < b < |dirs| ==> dirs[a].name != dirs[b].name
    requires i < j < |KeptJobs(settings, p, dirs)|
    ensures Apart(KeptJobs(settings, p, dirs)[i].path, KeptJobs(settings, p, dirs)[j].path)
  {
    hide Entered;
    var kept, more := KeptJobs(settings, p, dirs), KeptJobs(settings, p, dirs[1..]);
    var n := |kept| - |more|;
    if i >= n {
      KeptApart(settings, p, dirs[1..], i - n, j - n);
      assert kept[i] == more[i - n] && kept[j] == more[j - n];
    } else {
      KeptAre(settings, p, dirs[1..], j - n);
      assert kept[j] == more[j - n];
      SiblingsApart(p.path, dirs[0].name, kept[j].dir.name);
    }
  }

  lemma SiblingsApart(path: Path, a: string, b: string)
    requires a != b
    ensures Apart(path + [a], path + [b])
  {
    assert (path + [a])[|path|] == a && (path + [b])[|path|] == b;
  }

  lemma ExtendFlatten(layers: seq<Layer>, job: Job)
    ensures Flatten(Extend(layers, job)) == ScopeOf(job, layers).rules
  {
    var rules := RulesIn(job.dir);
    hide RulesIn;
    if rules == [] {
      assert Place(job.path, rules) == [];
    } else {
      assert (layers + [Layer(job.path, rules)])[..|layers|] == layers;
    }
  }

  // ----- one visit keeps everything -----

  ghost predicate AllReady(cache: Cache, jobs: seq<Job>, above: seq<seq<Layer>>) {
    |jobs| == |above| && forall i :: 0 <= i < |jobs| ==> Ready(cache, jobs[i], above[i])
  }

  /** No waiting directory lies on the way to another. */
  ghost predicate Antichain(jobs: seq<Job>) {
    forall i, j :: 0 <= i < j < |jobs| ==> Apart(jobs[i].path, jobs[j].path)
  }

  ghost function Children(settings: Settings, job: Job, layers: seq<Layer>): seq<Job> {
    KeptJobs(settings, ScopeOf(job, layers), job.dir.dirs)
  }

  ghost function LayersAfter(settings: Settings, jobs: seq<Job>, above: seq<seq<Layer>>): seq<seq<Layer>>
    requires jobs != [] && |jobs| == |above|
  {
    Same(Extend(above[0], jobs[0]), |Children(settings, jobs[0], above[0])|) + above[1..]
  }

  lemma VisitKeepsReady(settings: Settings, cache: Cache, jobs: seq<Job>, above: seq<seq<Layer>>)
    requires jobs != [] && AllReady(cache, jobs, above) && Antichain(jobs)
    ensures AllReady(Loaded(cache, jobs[0]), Children(settings, jobs[0], above[0]) + jobs[1..], LayersAfter(settings, jobs, above))
  {
    hide Ready, Loaded, Extend, Children, Apart;
    var job, kept := jobs[0], Children(settings, jobs[0], above[0]);
    var todo, layers := kept + jobs[1..], LayersAfter(settings, jobs, above);
    forall i | 0 <= i < |todo| ensures Ready(Loaded(cache, job), todo[i], layers[i]) {
      assert Ready(cache, job, above[0]);
      if i < |kept| {
        KeptReady(settings, cache, job, above[0], i);
      } else {
        var k := i - |kept| + 1;
        assert todo[i] == jobs[k] && layers[i] == above[k];
        assert Apart(jobs[0].path, jobs[k].path) && Ready(cache, jobs[k], above[k]);
        ReadyStays(cache, job, jobs[k], above[k]);
      }
    }
  }

  lemma KeptReady(settings: Settings, cache: Cache, job: Job, layers: seq<Layer>, i: nat)
    requires Ready(cache, job, layers) && i < |Children(settings, job, layers)|
    ensures Ready(Loaded(cache, job), Children(settings, job, layers)[i], Extend(layers, job))
  {
    hide Ready, Loaded, Extend, WellFormed, KeptJobs;
    var kept := Children(settings, job, layers);
    ReadyIsWellFormed(cache, job, layers);
    KeptAre(settings, ScopeOf(job, layers), job.dir.dirs, i);
    assert kept[i] == Job(job.path + [kept[i].dir.name], kept[i].dir);
    ChildReady(cache, job, layers, kept[i].dir);
  }

  lemma ReadyIsWellFormed(cache: Cache, job: Job, layers: seq<Layer>)
    requires Ready(cache, job, layers)
    ensures forall i :: 0 <= i < |job.dir.dirs| ==> WellFormed(job.dir.dirs[i])
    ensures forall i, j :: 0 <= i < j < |job.dir.dirs| ==> job.dir.dirs[i].name != job.dir.dirs[j].name
  {
  }

  lemma VisitKeepsApart(settings: Settings, cache: Cache, jobs: seq<Job>, above: seq<seq<Layer>>)
    requires jobs != [] && AllReady(cache, jobs, above) && Antichain(jobs)
    ensures Antichain(Children(settings, jobs[0], above[0]) + jobs[1..])
  {
    var job, kept := jobs[0], Children(settings, jobs[0], above[0]);
    var todo := kept + jobs[1..];
    ReadyIsWellFormed(cache, job, above[0]);
    hide Ready, WellFormed, Apart;
    forall i, j | 0 <= i < j < |todo| ensures Apart(todo[i].path, todo[j].path) {
      if j < |kept| {
        KeptApart(settings, ScopeOf(job, above[0]), job.dir.dirs, i, j);
      } else if i < |kept| {
        KeptAre(settings, ScopeOf(job, above[0]), job.dir.dirs, i);
        assert Apart(jobs[0].path, jobs[j - |kept| + 1].path);
        ChildApart(job.path, kept[i].dir.name, todo[j].path);
      } else {
        assert Apart(jobs[i - |kept| + 1].path, jobs[j - |kept| + 1].path);
      }
    }
  }

  lemma ChildApart(path: Path, name: string, other: Path)
    requires Apart(path, other)
    ensures Apart(path + [name], other)
  {
    assert forall k :: 0 <= k <= |path| ==> (path + [name])[..k] == path[..k];
    assert path <= path + [name];
  }

  lemma VisitListed(settings: Settings, jobs: seq<Job>, above: seq<seq<Layer>>)
    requires jobs != [] && |jobs| == |above|
    ensures |Children(settings, jobs[0], above[0]) + jobs[1..]| == |LayersAfter(settings, jobs, above)|
    ensures Outstanding(settings, jobs, above) ==
            FilesListed(settings, ScopeOf(jobs[0], above[0]), jobs[0].dir.files) +
            Outstanding(settings, Children(settings, jobs[0], above[0]) + jobs[1..], LayersAfter(settings, jobs, above))
    ensures Weight(Children(settings, jobs[0], above[0]) + jobs[1..]) < Weight(jobs)
  {
    hide *;
    var p, layers := ScopeOf(jobs[0], above[0]), Extend(above[0], jobs[0]);
    var kept := Children(settings, jobs[0], above[0]);
    ExtendFlatten(above[0], jobs[0]);
    ScopeIs(settings, jobs[0], above[0]);
    KeptOutstanding(settings, p, jobs[0].dir.dirs, layers);
    SameSize(layers, |kept|);
    OutstandingConcat(settings, kept, Same(layers, |kept|), jobs[1..], above[1..]);
    ListedIs(settings, p);
    OutstandingStep(settings, jobs, above);
    assert FilesListed(settings, p, jobs[0].dir.files) + DirsListed(settings, p, jobs[0].dir.dirs) +
           Outstanding(settings, jobs[1..], above[1..]) ==
           FilesListed(settings, p, jobs[0].dir.files) +
           (DirsListed(settings, p, jobs[0].dir.dirs) + Outstanding(settings, jobs[1..], above[1..]));
    KeptWeight(settings, p, jobs[0].dir.dirs);
    WeightConcat(kept, jobs[1..]);
  }

  lemma SameSize(layers: seq<Layer>, n: nat)
    ensures |Same(layers, n)| == n
  {
  }

  lemma OutstandingStep(settings: Settings, jobs: seq<Job>, above: seq<seq<Layer>>)
    requires jobs != [] && |jobs| == |above|
    ensures Outstanding(settings, jobs, above) ==
            Listed(settings, ScopeOf(jobs[0], above[0])) + Outstanding(settings, jobs[1..], above[1..])
    ensures LayersAfter(settings, jobs, above) ==
            Same(Extend(above[0], jobs[0]), |Children(settings, jobs[0], above[0])|) + above[1..]
    ensures |Children(settings, jobs[0], above[0]) + jobs[1..]| == |LayersAfter(settings, jobs, above)|
    ensures Weight(jobs) == 1 + SizeAll(jobs[0].dir.dirs) + Weight(jobs[1..])
  {
    hide Listed, ScopeOf, Extend, Children, SizeAll;
  }

  lemma WalkStarts(settings: Settings, root: Dir, cache: Cache)
    requires WellFormed(root)
    requires cache == if RulesIn(root) == [] then map[] else map[[] := RulesetOf([], RulesIn(root))]
    ensures AllReady(cache, [Job([], root)], [[]]) && Antichain([Job([], root)])
    ensures Outstanding(settings, [Job([], root)], [[]]) == Listed(settings, RootScope(root))
  {
    hide WellFormed, RulesetOf, RulesIn, Listed;
    var job := Job([], root);
    StackedExtend([], job);
    assert Stacked([]) == [] && Flatten([]) == [];
    assert Flatten([]) + Place([], RulesIn(root)) == Place([], RulesIn(root));
    assert Ready(cache, job, []);
    var above: seq<seq<Layer>> := [[]];
    assert [job][1..] == [] && above[1..] == [];
    assert Listed(settings, RootScope(root)) + [] == Listed(settings, RootScope(root));
  }

  lemma LoadedIs(before: Cache, job: Job, cache: Cache)
    requires cache == if job.path != [] && RulesIn(job.dir) != []
                      then before[job.path := RulesetOf(job.path, RulesIn(job.dir))] else before
    ensures cache == Loaded(before, job)
  {
  }

  lemma ReadyGathers(cache: Cache, jobs: seq<Job>, above: seq<seq<Layer>>)
    requires AllReady(cache, jobs, above) && jobs != []
    ensures |jobs| == |above| && Ready(cache, jobs[0], above[0])
    ensures Gathered(jobs[0].path, Loaded(cache, jobs[0])) == Stacked(Extend(above[0], jobs[0]))
  {
  }

  lemma ScopeIs(settings: Settings, job: Job, layers: seq<Layer>)
    ensures ScopeOf(job, layers).path == job.path && ScopeOf(job, layers).here == job.dir
    ensures Children(settings, job, layers) == KeptJobs(settings, ScopeOf(job, layers), job.dir.dirs)
  {
    hide KeptJobs;
  }

  lemma NothingOutstanding(settings: Settings)
    ensures Outstanding(settings, [], []) == []
  {
  }

  /** Walks the tree from the root, loading each `.gitignore` on the way and entering
      only what is not ignored; the paths come in the order they are found. */
  method Walk(settings: Settings, root: Dir) returns (found: seq<Path>)
    requires WellFormed(root)
    ensures found == Listed(settings, RootScope(root))
  {
    hide *;
    var cache: Cache := map[];
    var rootRules := LoadGitignore(root, []);
    if rootRules.Some? {
      cache := cache[[] := rootRules.value];
    }
    var jobs: seq<Job> := [Job([], root)];
    ghost var above: seq<seq<Layer>> := [[]];
    found := [];
    WalkStarts(settings, root, cache);
    while jobs != []
      invariant AllReady(cache, jobs, above) && Antichain(jobs) && |jobs| == |above|
      invariant found + Outstanding(settings, jobs, above) == Listed(settings, RootScope(root))
      decreases Weight(jobs)
    {
      var job := jobs[0];
      ghost var layers := Extend(above[0], job);
      ghost var before := cache;
      if job.path != [] {
        var rules := LoadGitignore(job.dir, job.path);
        if rules.Some? {
          cache := cache[job.path := rules.value];
        }
      }
      LoadedIs(before, job, cache);
      ReadyGathers(before, jobs, above);
      ReadyIsWellFormed(before, job, above[0]);
      ExtendFlatten(above[0], job);
      ScopeIs(settings, job, above[0]);
      var active := CollectRules(job.path, cache);
      var kept := KeepDirs(settings, job.path, job.dir.dirs, active, layers, ScopeOf(job, above[0]));
      var files := ListFiles(settings, job.path, job.dir.files, active, layers, ScopeOf(job, above[0]));
      VisitKeepsReady(settings, before, jobs, above);
      VisitKeepsApart(settings, before, jobs, above);
      VisitListed(settings, jobs, above);
      found := found + files;
      above := LayersAfter(settings, jobs, above);
      jobs := kept + jobs[1..];
    }
    NothingOutstanding(settings);
  }

  // ----- the scan -----

  function InsertPath(p: Path, s: seq<Path>): seq<Path> {
    if s == [] || StrLe(Posix(p), Posix(s[0])) then [p] + s else [s[0]] + InsertPath(p, s[1..])
  }

  /** `sort(key=relative_path)`. */
  function SortPaths(s: seq<Path>): seq<Path> {
    if s == [] then [] else InsertPath(s[0], SortPaths(s[1..]))
  }

  ghost predicate Sorted(s: seq<Path>) {
    forall i, j :: 0 <= i < j < |s| ==> StrLe(Posix(s[i]), Posix(s[j]))
  }

  lemma {:induction false} InsertPathSorted(p: Path, s: seq<Path>)
    requires Sorted(s)
    ensures Sorted(InsertPath(p, s)) && multiset(InsertPath(p, s)) == multiset(s) + multiset{p}
  {
    hide Posix, StrLe;
    if s == [] {
    } else if StrLe(Posix(p), Posix(s[0])) {
      forall j | 0 < j < |s| ensures StrLe(Posix(p), Posix(s[j])) {
        StrLeTransitive(Posix(p), Posix(s[0]), Posix(s[j]));
      }
    } else {
      StrLeTotal(Posix(p), Posix(s[0]));
      InsertPathSorted(p, s[1..]);
      var r := InsertPath(p, s[1..]);
      assert s == [s[0]] + s[1..];
      forall j | 0 <= j < |r| ensures StrLe(Posix(s[0]), Posix(r[j])) {
        assert r[j] in multiset(r);
        assert r[j] == p || r[j] in s[1..];
      }
    }
  }

  lemma {:induction false} SortPathsSorted(s: seq<Path>)
    ensures Sorted(SortPaths(s)) && multiset(SortPaths(s)) == multiset(s)
  {
    if s != [] {
      SortPathsSorted(s[1..]);
      InsertPathSorted(s[0], SortPaths(s[1..]));
      assert s == [s[0]] + s[1..];
    }
  }

  lemma {:induction false} DistinctCounts<T>(a: seq<T>)
    requires Distinct(a)
    ensures forall x :: multiset(a)[x] <= 1
  {
    if a != [] {
      DistinctCounts(a[1..]);
      assert a == [a[0]] + a[1..];
      assert a[0] !in a[1..];
    }
  }

  lemma DistinctMultiset<T>(a: seq<T>, b: seq<T>)
    requires multiset(a) == multiset(b) && Distinct(a)
    ensures Distinct(b) && forall x :: x in a <==> x in b
  {
    DistinctCounts(a);
    forall x ensures x in a <==> x in b {
      assert x in multiset(a) <==> x in multiset(b);
    }
    forall i, j | 0 <= i < j < |b| ensures b[i] != b[j] {
      assert b == b[..j] + [b[j]] + b[j + 1..];
      assert multiset(b) == multiset(b[..j]) + multiset{b[j]} + multiset(b[j + 1..]);
      assert b[i] in b[..j];
      assert multiset(b[..j])[b[i]] >= 1;
      assert multiset(b)[b[i]] <= 1;
    }
  }

  /** The scan collects each file once, by relative path, that neither is ignored nor
      lies below an ignored directory, and only those. */
  method Scan(settings: Settings, root: Dir) returns (files: seq<Path>)
    requires WellFormed(root)
    ensures forall path :: path in files <==> IsVisible(settings, RootScope(root), path)
    ensures Distinct(files) && Sorted(files)
  {
    hide *;
    var found := Walk(settings, root);
    files := SortPaths(found);
    SortPathsSorted(found);
    RootIs(root);
    ListedDistinct(settings, RootScope(root));
    DistinctMultiset(found, files);
    forall path ensures path in files <==> IsVisible(settings, RootScope(root), path) {
      ListedIsVisible(settings, RootScope(root), path);
    }
  }

  lemma RootIs(root: Dir)
    ensures RootScope(root).here == root && RootScope(root).path == []
  {
  }

  // ----- oversized files -----

  lemma NameInDir(dirs: seq<Dir>, a: Dir, b: Dir)
    requires forall i, j :: 0 <= i < j < |dirs| ==> dirs[i].name != dirs[j].name
    requires a in dirs && b in dirs && a.name == b.name
    ensures a == b
  {
    var i :| 0 <= i < |dirs| && dirs[i] == a;
    var j :| 0 <= j < |dirs| && dirs[j] == b;
  }

  lemma NamesSplit(a: seq<Dir>, b: seq<Dir>)
    requires Names(a) == Names(b)
    ensures |a| == |b|
    ensures a != [] ==> a[0].name == b[0].name && Names(a[1..]) == Names(b[1..])
  {
    assert |Names(a)| == |a| && |Names(b)| == |b|;
    if a != [] {
      assert Names(a)[0] == a[0].name && Names(b)[0] == b[0].name;
      NamesCons(a);
      NamesCons(b);
      assert Names(a)[1..] == Names(a[1..]) && Names(b)[1..] == Names(b[1..]);
    }
  }

  lemma WellFormedInside(top: Dir, d: Dir)
    requires WellFormed(top) && d in top.dirs
    ensures WellFormed(d)
    ensures forall i, j :: 0 <= i < j < |top.dirs| ==> top.dirs[i].name != top.dirs[j].name
  {
  }

  /** A path leads to one directory only. */
  lemma {:induction false} SameTrail(top: Dir, a: seq<Dir>, b: seq<Dir>)
    requires WellFormed(top) && Descends(top, a) && Descends(top, b) && Names(a) == Names(b)
    ensures a == b && WellFormed(Parent(top, a, |a|))
  {
    NamesSplit(a, b);
    if a == [] {
    } else {
      hide *;
      DescendsInside(top, a);
      DescendsInside(top, b);
      WellFormedInside(top, a[0]);
      NameInDir(top.dirs, a[0], b[0]);
      SameTrail(a[0], a[1..], b[1..]);
      assert a == [a[0]] + a[1..] && b == [b[0]] + b[1..];
    }
  }

  /** A path names one file only. */
  lemma SameFile(top: Dir, a: seq<Dir>, f: File, b: seq<Dir>, g: File)
    requires WellFormed(top) && Descends(top, a) && Descends(top, b)
    requires f in Parent(top, a, |a|).files && g in Parent(top, b, |b|).files
    requires Names(a) + [f.name] == Names(b) + [g.name]
    ensures a == b && f == g
  {
    hide *;
    LastNames(Names(a), f.name, Names(b), g.name);
    SameTrail(top, a, b);
    FilesNamed(Parent(top, a, |a|));
    FileInDir(Parent(top, a, |a|).files, f, g);
  }

  lemma LastNames(a: Path, x: string, b: Path, y: string)
    requires a + [x] == b + [y]
    ensures a == b && x == y
  {
    assert |a + [x]| == |a| + 1 && |b + [y]| == |b| + 1;
    assert (a + [x])[..|a|] == a && (b + [y])[..|b|] == b;
    assert (a + [x])[|a|] == x && (b + [y])[|b|] == y;
  }

  lemma FilesNamed(d: Dir)
    requires WellFormed(d)
    ensures forall i, j :: 0 <= i < j < |d.files| ==> d.files[i].name != d.files[j].name
  {
  }

  lemma VisibleFits(settings: Settings, p: Scope, trail: seq<Dir>, f: File)
    requires Visible(settings, p, trail, f)
    ensures Descends(p.here, trail) && f in Parent(p.here, trail, |trail|).files && f.size <= settings.maxSize
  {
    hide Ignored, Open, RulesAt;
  }

  /** No oversized file is in the scan's result, whatever the rules say. */
  lemma OversizedLeftOut(settings: Settings, root: Dir, trail: seq<Dir>, f: File)
    requires WellFormed(root) && Descends(root, trail) && f in Parent(root, trail, |trail|).files
    requires f.size > settings.maxSize
    ensures !IsVisible(settings, RootScope(root), Names(trail) + [f.name])
  {
    hide Visible, WellFormed, Descends, Parent, Names, RulesIn;
    var p := RootScope(root);
    if IsVisible(settings, p, Names(trail) + [f.name]) {
      var t, g: File :| Visible(settings, p, t, g) && Names(trail) + [f.name] == p.path + Names(t) + [g.name];
      assert [] + Names(t) == Names(t);
      VisibleFits(settings, p, t, g);
      SameFile(root, trail, f, t, g);
    }
  }

  lemma FileInDir(files: seq<File>, a: File, b: File)
    requires forall i, j :: 0 <= i < j < |files| ==> files[i].name != files[j].name
    requires a in files && b in files && a.name == b.name
    ensures a == b
  {
    var i :| 0 <= i < |files| && files[i] == a;
    var j :| 0 <= j < |files| && files[j] == b;
  }
}
