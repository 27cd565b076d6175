/** Kahn's ordering of plan steps, and what kind of order it is: the unique one
    sorted by the position of a step's last dependency, ties broken by original
    position. Graphs are lists of dependency lists: deps[i] names the steps that
    step i waits for, repeats included. */
module DependencyGraph {
  import opened Collections
  import opened Reachability
  import opened Plan

  type Deps = seq<seq<nat>>

  ghost predicate WellFormed(deps: Deps) {
    forall i, k :: 0 <= i < |deps| && 0 <= k < |deps[i]| ==> deps[i][k] < |deps|
  }

  // ----- from names to positions -----

  /** Position of the last step with this id; a later duplicate wins. */
  function IndexOfId(steps: seq<ToolCall>, name: string): Option<nat> {
    if steps == [] then None
    else if steps[|steps| - 1].stepId == Some(name) then Some(|steps| - 1)
    else IndexOfId(steps[..|steps| - 1], name)
  }

  /** The positions named by a depends_on list; unknown names are dropped. */
  function Resolve(steps: seq<ToolCall>, names: seq<string>): seq<nat> {
    if names == [] then []
    else
      var front := Resolve(steps, names[..|names| - 1]);
      match IndexOfId(steps, names[|names| - 1])
      case None => front
      case Some(i) => front + [i]
  }

  function DepsOf(steps: seq<ToolCall>): Deps {
    seq(|steps|, i requires 0 <= i < |steps| => Resolve(steps, steps[i].dependsOn))
  }

  lemma {:induction false} IndexOfIdBound(steps: seq<ToolCall>, name: string)
    ensures IndexOfId(steps, name).Some? ==>
      IndexOfId(steps, name).value < |steps| && steps[IndexOfId(steps, name).value].stepId == Some(name)
    ensures IndexOfId(steps, name).None? ==> forall i :: 0 <= i < |steps| ==> steps[i].stepId != Some(name)
  {
    if steps != [] && steps[|steps| - 1].stepId != Some(name) {
      IndexOfIdBound(steps[..|steps| - 1], name);
    }
  }

  lemma {:induction false} ResolveBound(steps: seq<ToolCall>, names: seq<string>)
    ensures forall k :: 0 <= k < |Resolve(steps, names)| ==> Resolve(steps, names)[k] < |steps|
  {
    if names != [] {
      ResolveBound(steps, names[..|names| - 1]);
      IndexOfIdBound(steps, names[|names| - 1]);
    }
  }

  lemma DepsWellFormed(steps: seq<ToolCall>)
    ensures WellFormed(DepsOf(steps)) && |DepsOf(steps)| == |steps|
  {
    forall i | 0 <= i < |steps| ensures forall k :: 0 <= k < |DepsOf(steps)[i]| ==> DepsOf(steps)[i][k] < |steps| {
      ResolveBound(steps, steps[i].dependsOn);
    }
  }

  // ----- Kahn orders -----

  /** Position of d in o, or |o| when it is absent. */
  function Pos(o: seq<nat>, d: nat): (r: nat)
    ensures r <= |o|
    ensures r < |o| ==> o[r] == d && d !in o[..r]
    ensures r == |o| ==> d !in o
  {
    if o == [] then 0 else if o[0] == d then 0 else
      var r := Pos(o[1..], d);
      assert o == [o[0]] + o[1..];
      assert r < |o[1..]| ==> o[..r + 1] == [o[0]] + o[1..][..r];
      1 + r
  }

  /** How many steps must have run before the last of ds has: one more than the
      position of that last dependency, 0 without dependencies. */
  function Release(ds: seq<nat>, o: seq<nat>): nat {
    if ds == [] then 0 else Max(Pos(o, ds[0]) + 1, Release(ds[1..], o))
  }

  ghost predicate IsPermutation(n: nat, o: seq<nat>) {
    |o| == n && Distinct(o) && forall k :: 0 <= k < |o| ==> o[k] < n
  }

  ghost predicate Sooner(deps: Deps, o: seq<nat>, x: nat, y: nat)
    requires x < |deps| && y < |deps|
  {
    Release(deps[x], o) < Release(deps[y], o) || (Release(deps[x], o) == Release(deps[y], o) && x < y)
  }

  /** Every step comes after its dependencies, and steps are sorted by release
      time, those released together by original position. */
  ghost predicate IsKahnOrder(deps: Deps, o: seq<nat>) {
    && IsPermutation(|deps|, o)
    && (forall k :: 0 <= k < |o| ==> Release(deps[o[k]], o) <= k)
    && (forall i, j :: 0 <= i < j < |o| ==> Sooner(deps, o, o[i], o[j]))
  }

  ghost function Edges(deps: Deps): set<(nat, nat)> {
    set i, k | 0 <= i < |deps| && 0 <= k < |deps[i]| :: (i, deps[i][k])
  }

  ghost predicate CycleIn(edges: set<(nat, nat)>) {
    exists a, b :: (a, b) in edges && Reach(edges, b, a)
  }

  /** Some step waits, directly or through others, for itself. */
  ghost predicate HasCycle(deps: Deps) {
    CycleIn(Edges(deps))
  }

  function Arrange<T>(xs: seq<T>, o: seq<nat>): seq<T>
    requires forall k :: 0 <= k < |o| ==> o[k] < |xs|
  {
    seq(|o|, k requires 0 <= k < |o| => xs[o[k]])
  }

  // ----- facts about release times -----

  lemma {:induction false} ReleaseBounds(ds: seq<nat>, o: seq<nat>)
    ensures forall k :: 0 <= k < |ds| ==> Pos(o, ds[k]) + 1 <= Release(ds, o)
    ensures ds != [] ==> exists k :: 0 <= k < |ds| && Pos(o, ds[k]) + 1 == Release(ds, o)
  {
    if ds != [] {
      ReleaseBounds(ds[1..], o);
      forall k | 0 <= k < |ds| ensures Pos(o, ds[k]) + 1 <= Release(ds, o) {
        if k > 0 {
          assert ds[k] == ds[1..][k - 1];
        }
      }
      if Pos(o, ds[0]) + 1 < Release(ds, o) {
        var k :| 0 <= k < |ds[1..]| && Pos(o, ds[1..][k]) + 1 == Release(ds[1..], o);
        assert ds[k + 1] == ds[1..][k];
      } else {
        assert Pos(o, ds[0]) + 1 == Release(ds, o);
      }
    }
  }

  lemma {:induction false} PosOfPrefix(o: seq<nat>, more: seq<nat>, d: nat)
    requires d in o
    ensures Pos(o + more, d) == Pos(o, d)
  {
    var r, q := Pos(o, d), Pos(o + more, d);
    assert (o + more)[r] == d;
    assert forall k :: 0 <= k < r ==> o[k] in o[..r] && (o + more)[k] == o[k];
    assert forall k :: 0 <= k < q ==> (o + more)[k] in (o + more)[..q];
  }

  lemma {:induction false} ReleaseOfPrefix(ds: seq<nat>, o: seq<nat>, more: seq<nat>)
    requires forall k :: 0 <= k < |ds| ==> ds[k] in o
    ensures Release(ds, o + more) == Release(ds, o)
  {
    if ds != [] {
      PosOfPrefix(o, more, ds[0]);
      assert forall k :: 0 <= k < |ds[1..]| ==> ds[1..][k] == ds[k + 1];
      ReleaseOfPrefix(ds[1..], o, more);
    }
  }

  /** A released step has its dependencies among the first Release(..) steps. */
  lemma ReleasedDeps(ds: seq<nat>, o: seq<nat>, k: nat)
    requires Release(ds, o) <= k <= |o|
    ensures forall i :: 0 <= i < |ds| ==> ds[i] in o[..k]
  {
    ReleaseBounds(ds, o);
    forall i | 0 <= i < |ds| ensures ds[i] in o[..k] {
      assert o[..k][Pos(o, ds[i])] == ds[i];
    }
  }

  // ----- the order is unique -----

  lemma {:induction false} KahnOrderAgrees(deps: Deps, o: seq<nat>, p: seq<nat>, k: nat)
    requires IsKahnOrder(deps, o) && IsKahnOrder(deps, p) && k <= |deps|
    ensures k <= |o| == |p| && o[..k] == p[..k]
  {
    hide *;
    KahnSize(deps, o);
    KahnSize(deps, p);
    if k > 0 {
      KahnOrderAgrees(deps, o, p, k - 1);
      KahnNextAgrees(deps, o, p, k - 1);
      assert o[..k] == o[..k - 1] + [o[k - 1]] && p[..k] == p[..k - 1] + [p[k - 1]];
    }
  }

  lemma KahnSize(deps: Deps, o: seq<nat>)
    requires IsKahnOrder(deps, o)
    ensures |o| == |deps|
  {
    hide Release;
  }

  /** After the same beginning the next step is the same: each candidate would have to
      be sooner than the other. */
  lemma KahnNextAgrees(deps: Deps, o: seq<nat>, p: seq<nat>, k: nat)
    requires IsKahnOrder(deps, o) && IsKahnOrder(deps, p) && k < |deps|
    requires |o| == |p| == |deps| && o[..k] == p[..k]
    ensures o[k] == p[k]
  {
    hide *;
    KahnAt(deps, o, k);
    KahnAt(deps, p, k);
    var x, y := o[k], p[k];
    ReleasedDeps(deps[x], o, k);
    ReleasedDeps(deps[y], p, k);
    SameRelease(deps[x], o, p, k);
    SameRelease(deps[y], o, p, k);
    if x != y {
      var i := LaterIn(|deps|, o, k, y);
      var j := LaterIn(|deps|, p, k, x);
      KahnSooner(deps, o, k, i);
      KahnSooner(deps, p, k, j);
      NotBothSooner(deps, o, p, x, y);
    }
  }

  lemma NotBothSooner(deps: Deps, o: seq<nat>, p: seq<nat>, x: nat, y: nat)
    requires x < |deps| && y < |deps| && Sooner(deps, o, x, y)
    requires Release(deps[x], o) == Release(deps[x], p) && Release(deps[y], o) == Release(deps[y], p)
    ensures !Sooner(deps, p, y, x)
  {
    hide Release;
  }

  lemma KahnAt(deps: Deps, o: seq<nat>, k: nat)
    requires IsKahnOrder(deps, o) && k < |deps|
    ensures IsPermutation(|deps|, o) && |o| == |deps| && o[k] < |deps|
    ensures Release(deps[o[k]], o) <= k && o[k] !in o[..k]
  {
    hide Release;
  }

  lemma KahnSooner(deps: Deps, o: seq<nat>, i: nat, j: nat)
    requires IsKahnOrder(deps, o) && i < j < |deps|
    ensures |o| == |deps| && o[i] < |deps| && o[j] < |deps| && Sooner(deps, o, o[i], o[j])
  {
    hide Release;
  }

  lemma SameRelease(ds: seq<nat>, o: seq<nat>, p: seq<nat>, k: nat)
    requires k <= |o| && k <= |p| && o[..k] == p[..k] && forall i :: 0 <= i < |ds| ==> ds[i] in o[..k]
    ensures Release(ds, o) == Release(ds, p)
  {
    ReleaseOfPrefix(ds, o[..k], o[k..]);
    ReleaseOfPrefix(ds, p[..k], p[k..]);
    assert o == o[..k] + o[k..] && p == p[..k] + p[k..];
  }

  /** In a permutation, what is neither before nor at position k comes later. */
  lemma LaterIn(n: nat, o: seq<nat>, k: nat, y: nat) returns (i: nat)
    requires IsPermutation(n, o) && k < n && y < n && y !in o[..k] && y != o[k]
    ensures k < i < n && o[i] == y
  {
    PermutationCovers(n, o, y);
    i :| 0 <= i < n && o[i] == y;
    assert forall h :: 0 <= h < k ==> o[h] in o[..k];
  }

  lemma PermutationCovers(n: nat, o: seq<nat>, y: nat)
    requires IsPermutation(n, o) && y < n
    ensures y in o
  {
    DistinctSize(o);
    Range(n);
    assert Elements(o) <= UpTo(n);
    if y !in o {
      assert Elements(o) <= UpTo(n) - {y};
      SubsetSize(Elements(o), UpTo(n) - {y});
    }
  }

  lemma {:induction false} DistinctSize(o: seq<nat>)
    requires Distinct(o)
    ensures |Elements(o)| == |o|
  {
    if o != [] {
      DistinctSize(o[1..]);
      assert o == [o[0]] + o[1..];
      assert Elements(o) == {o[0]} + Elements(o[1..]);
    }
  }

  ghost function UpTo(n: nat): (r: set<nat>)
    ensures forall i: nat :: i in r <==> i < n
  {
    if n == 0 then {} else UpTo(n - 1) + {n - 1}
  }

  lemma {:induction false} Range(n: nat)
    ensures |UpTo(n)| == n
  {
    if n > 0 {
      Range(n - 1);
    }
  }

  lemma {:induction false} SubsetSize<T>(a: set<T>, b: set<T>)
    requires a <= b
    ensures |a| <= |b|
    decreases b
  {
    if b != {} {
      var x :| x in b;
      SubsetSize(a - {x}, b - {x});
    }
  }

  /** There is only one Kahn order. */
  lemma KahnOrderUnique(deps: Deps, o: seq<nat>, p: seq<nat>)
    requires IsKahnOrder(deps, o) && IsKahnOrder(deps, p)
    ensures o == p
  {
    KahnOrderAgrees(deps, o, p, |deps|);
    assert o == o[..|deps|] && p == p[..|deps|];
  }

  function Identity(n: nat): seq<nat> {
    seq(n, i requires 0 <= i < n => i)
  }

  /** Without dependencies the original order is the Kahn order, which is what
      the fast path returns. */
  lemma FastPathIsKahn(deps: Deps)
    requires forall i :: 0 <= i < |deps| ==> deps[i] == []
    ensures IsKahnOrder(deps, Identity(|deps|))
  {
  }

  // ----- a Kahn order exists exactly without cycles -----

  lemma EdgeIn(deps: Deps, a: nat, b: nat)
    requires (a, b) in Edges(deps)
    ensures a < |deps| && b in deps[a]
  {
  }

  lemma EdgeOf(deps: Deps, a: nat, b: nat)
    requires a < |deps| && b in deps[a]
    ensures (a, b) in Edges(deps)
  {
    var k :| 0 <= k < |deps[a]| && deps[a][k] == b;
  }

  /** Along dependency edges positions go down. */
  lemma EdgeDescends(deps: Deps, o: seq<nat>, a: nat, b: nat)
    requires IsKahnOrder(deps, o) && (a, b) in Edges(deps)
    ensures Pos(o, b) < Pos(o, a)
  {
    EdgeIn(deps, a, b);
    PermutationCovers(|deps|, o, a);
    ReleaseBounds(deps[a], o);
    assert o[Pos(o, a)] == a;
  }

  lemma {:induction false} PathDescends(deps: Deps, o: seq<nat>, p: seq<nat>)
    requires IsKahnOrder(deps, o) && IsPath(Edges(deps), p)
    ensures Pos(o, p[|p| - 1]) <= Pos(o, p[0])
  {
    if |p| > 1 {
      var front := p[..|p| - 1];
      assert IsPath(Edges(deps), front);
      PathDescends(deps, o, front);
      assert (p[|p| - 2], p[|p| - 2 + 1]) in Edges(deps);
      EdgeDescends(deps, o, p[|p| - 2], p[|p| - 1]);
    }
  }

  lemma KahnOrderHasNoCycle(deps: Deps, o: seq<nat>)
    requires IsKahnOrder(deps, o)
    ensures !HasCycle(deps)
  {
    if HasCycle(deps) {
      var a, b :| (a, b) in Edges(deps) && Reach(Edges(deps), b, a);
      EdgeDescends(deps, o, a, b);
      var p :| PathBetween(Edges(deps), p, b, a);
      PathDescends(deps, o, p);
    }
  }

  ghost predicate Waits(edges: set<(nat, nat)>, stuck: set<nat>, i: nat) {
    exists j :: j in stuck && (i, j) in edges
  }

  ghost predicate AllWait(edges: set<(nat, nat)>, stuck: set<nat>) {
    forall i :: i in stuck ==> Waits(edges, stuck, i)
  }

  ghost function Onward(edges: set<(nat, nat)>, stuck: set<nat>, b: nat): set<nat> {
    set x | x in stuck && Reach(edges, b, x)
  }

  /** Steps that all wait for one another contain a cycle: looking on from a, either a
      is found again or there are fewer to look through. */
  lemma {:induction false} StuckHasCycle(edges: set<(nat, nat)>, stuck: set<nat>)
    requires stuck != {} && AllWait(edges, stuck)
    ensures CycleIn(edges)
    decreases |stuck|
  {
    hide Reach;
    var a :| a in stuck;
    assert Waits(edges, stuck, a);
    var b :| b in stuck && (a, b) in edges;
    hide AllWait, Waits, Onward;
    if !Reach(edges, b, a) {
      OnwardIsFewer(edges, stuck, a, b);
      StuckHasCycle(edges, Onward(edges, stuck, b));
    }
  }

  lemma OnwardIsFewer(edges: set<(nat, nat)>, stuck: set<nat>, a: nat, b: nat)
    requires AllWait(edges, stuck) && a in stuck && b in stuck && !Reach(edges, b, a)
    ensures Onward(edges, stuck, b) != {} && |Onward(edges, stuck, b)| < |stuck|
    ensures AllWait(edges, Onward(edges, stuck, b))
  {
    hide Reach;
    var onward := Onward(edges, stuck, b);
    forall i | i in onward ensures Waits(edges, onward, i) {
      assert Waits(edges, stuck, i);
      OneStepOn(edges, stuck, b, i);
    }
    ReachSelf(edges, b);
    hide Waits;
    assert b in onward && onward <= stuck - {a};
    SubsetSize(onward, stuck - {a});
  }

  lemma OneStepOn(edges: set<(nat, nat)>, stuck: set<nat>, b: nat, i: nat)
    requires Waits(edges, stuck, i) && Reach(edges, b, i)
    ensures exists j :: j in stuck && Reach(edges, b, j) && (i, j) in edges
  {
    hide Reach;
    var j :| j in stuck && (i, j) in edges;
    ReachEdge(edges, i, j);
    ReachTransitive(edges, b, i, j);
  }

  // ----- depth -----

  /** One more than the greatest depth among ds, 0 for no dependencies. */
  function DepthOver(ds: seq<nat>, depth: seq<nat>): nat
    requires forall k :: 0 <= k < |ds| ==> ds[k] < |depth|
  {
    if ds == [] then 0
    else
      assert forall k :: 0 <= k < |ds[1..]| ==> ds[1..][k] == ds[k + 1];
      Max(depth[ds[0]] + 1, DepthOver(ds[1..], depth))
  }

  /** `depth` gives every step the length of its longest chain of dependencies. */
  ghost predicate IsDepth(deps: Deps, depth: seq<nat>) {
    && WellFormed(deps) && |depth| == |deps|
    && forall i :: 0 <= i < |deps| ==> depth[i] == DepthOver(deps[i], depth)
  }

  lemma {:induction false} DepthBounds(ds: seq<nat>, depth: seq<nat>)
    requires forall k :: 0 <= k < |ds| ==> ds[k] < |depth|
    ensures forall k :: 0 <= k < |ds| ==> depth[ds[k]] + 1 <= DepthOver(ds, depth)
    ensures ds != [] ==> exists k :: 0 <= k < |ds| && depth[ds[k]] + 1 == DepthOver(ds, depth)
  {
    if ds != [] {
      assert forall k :: 0 <= k < |ds[1..]| ==> ds[1..][k] == ds[k + 1];
      DepthBounds(ds[1..], depth);
      forall k | 0 <= k < |ds| ensures depth[ds[k]] + 1 <= DepthOver(ds, depth) {
        if k > 0 {
          assert ds[k] == ds[1..][k - 1];
        }
      }
      if depth[ds[0]] + 1 < DepthOver(ds, depth) {
        var k :| 0 <= k < |ds[1..]| && depth[ds[1..][k]] + 1 == DepthOver(ds[1..], depth);
        assert ds[k + 1] == ds[1..][k];
      } else {
        assert depth[ds[0]] + 1 == DepthOver(ds, depth);
      }
    }
  }

  /** The depth of step i bounds every chain of dependencies from it, and one
      chain has exactly that length. */
  lemma {:induction false} DepthIsLongestChain(deps: Deps, depth: seq<nat>, p: seq<nat>)
    requires IsDepth(deps, depth) && IsPath(Edges(deps), p) && p[0] < |deps|
    ensures |p| - 1 <= depth[p[0]]
    decreases |p|
  {
    if |p| > 1 {
      assert (p[0], p[0 + 1]) in Edges(deps);
      EdgeIn(deps, p[0], p[1]);
      var rest := p[1..];
      forall i | 0 <= i < |rest| - 1 ensures (rest[i], rest[i + 1]) in Edges(deps) {
        assert (p[i + 1], p[i + 1 + 1]) in Edges(deps);
      }
      DepthIsLongestChain(deps, depth, rest);
      DepthBounds(deps[p[0]], depth);
    }
  }

  lemma {:induction false} DepthIsReached(deps: Deps, depth: seq<nat>, i: nat) returns (p: seq<nat>)
    requires IsDepth(deps, depth) && i < |deps|
    ensures IsPath(Edges(deps), p) && p[0] == i && |p| - 1 == depth[i]
    decreases depth[i]
  {
    DepthBounds(deps[i], depth);
    if deps[i] == [] {
      p := [i];
    } else {
      var k :| 0 <= k < |deps[i]| && depth[deps[i][k]] + 1 == DepthOver(deps[i], depth);
      var q := DepthIsReached(deps, depth, deps[i][k]);
      EdgeOf(deps, i, deps[i][k]);
      p := [i] + q;
      forall j | 0 <= j < |p| - 1 ensures (p[j], p[j + 1]) in Edges(deps) {
        if j > 0 {
          assert (q[j - 1], q[j - 1 + 1]) in Edges(deps);
        }
      }
    }
  }

  /** Kahn's order never goes back to a smaller depth. */
  lemma {:induction false} DepthNonDecreasing(deps: Deps, o: seq<nat>, depth: seq<nat>, i: nat, j: nat)
    requires IsKahnOrder(deps, o) && IsDepth(deps, depth) && i <= j < |o|
    ensures depth[o[i]] <= depth[o[j]]
    decreases j
  {
    var x, y := o[i], o[j];
    assert i < j ==> Sooner(deps, o, x, y);
    if deps[x] != [] && i < j {
      var d := DeepestDep(deps[x], depth);
      var e := LastDep(deps[x], deps[y], o);
      PosInOrder(|deps|, o, d);
      PosInOrder(|deps|, o, e);
      ReleaseBounds(deps[x], o);
      DepthBounds(deps[y], depth);
      hide DepthOver, Pos, Release;
      DepthNonDecreasing(deps, o, depth, Pos(o, d), Pos(o, e));
    } else if i < j {
      NoDepsNoDepth(deps[x], depth);
    }
  }

  lemma PosInOrder(n: nat, o: seq<nat>, d: nat)
    requires IsPermutation(n, o) && d < n
    ensures Pos(o, d) < |o| && o[Pos(o, d)] == d
  {
    PermutationCovers(n, o, d);
  }

  /** If ys are released no earlier than xs, some y runs no earlier than any x. */
  lemma LastDep(xs: seq<nat>, ys: seq<nat>, o: seq<nat>) returns (e: nat)
    requires xs != [] && Release(xs, o) <= Release(ys, o)
    ensures e in ys && Pos(o, e) + 1 == Release(ys, o)
  {
    ReleaseBounds(xs, o);
    ReleaseBounds(ys, o);
    var m :| 0 <= m < |ys| && Pos(o, ys[m]) + 1 == Release(ys, o);
    e := ys[m];
  }

  lemma DeepestDep(ds: seq<nat>, depth: seq<nat>) returns (d: nat)
    requires ds != [] && forall k :: 0 <= k < |ds| ==> ds[k] < |depth|
    ensures d in ds && d < |depth| && depth[d] + 1 == DepthOver(ds, depth)
  {
    DepthBounds(ds, depth);
    var k :| 0 <= k < |ds| && depth[ds[k]] + 1 == DepthOver(ds, depth);
    d := ds[k];
  }

  lemma NoDepsNoDepth(ds: seq<nat>, depth: seq<nat>)
    requires ds == []
    ensures DepthOver(ds, depth) == 0
  {
  }

  /** Of two steps, the one listed first runs first exactly when its last
      dependency runs no later than the other's. */
  lemma OriginalOrderKept(deps: Deps, o: seq<nat>, x: nat, y: nat)
    requires IsKahnOrder(deps, o) && x < y < |deps|
    ensures Pos(o, x) < Pos(o, y) <==> Release(deps[x], o) <= Release(deps[y], o)
  {
    PermutationCovers(|deps|, o, x);
    PermutationCovers(|deps|, o, y);
    assert Sooner(deps, o, o[Pos(o, x)], o[Pos(o, y)]) || Sooner(deps, o, o[Pos(o, y)], o[Pos(o, x)]);
  }

  // ----- when steps of one depth keep their order -----

  /** The largest entry of the given depth, 0 when there is none. */
  function LargestAt(ds: seq<nat>, depth: seq<nat>, d: nat): nat
    requires forall k :: 0 <= k < |ds| ==> ds[k] < |depth|
  {
    if ds == [] then 0
    else
      assert forall k :: 0 <= k < |ds[1..]| ==> ds[1..][k] == ds[k + 1];
      var rest := LargestAt(ds[1..], depth, d);
      if depth[ds[0]] == d then Max(ds[0], rest) else rest
  }

  lemma {:induction false} LargestAtIs(ds: seq<nat>, depth: seq<nat>, d: nat)
    requires forall k :: 0 <= k < |ds| ==> ds[k] < |depth|
    ensures forall e :: e in ds && depth[e] == d ==> e <= LargestAt(ds, depth, d)
    ensures (exists e :: e in ds && depth[e] == d) ==>
      LargestAt(ds, depth, d) in ds && depth[LargestAt(ds, depth, d)] == d
    ensures (forall e :: e in ds ==> depth[e] != d) ==> LargestAt(ds, depth, d) == 0
  {
    if ds != [] {
      assert forall k :: 0 <= k < |ds[1..]| ==> ds[1..][k] == ds[k + 1];
      assert forall e :: e in ds <==> e == ds[0] || e in ds[1..];
      LargestAtIs(ds[1..], depth, d);
    }
  }

  /** The deepest dependency of step x that is listed last. */
  function DeepestListedLast(deps: Deps, depth: seq<nat>, x: nat): nat
    requires IsDepth(deps, depth) && x < |deps| && depth[x] > 0
  {
    LargestAt(deps[x], depth, depth[x] - 1)
  }

  lemma DeepestListed(deps: Deps, depth: seq<nat>, x: nat)
    requires IsDepth(deps, depth) && x < |deps| && depth[x] > 0
    ensures var m := DeepestListedLast(deps, depth, x);
      && m in deps[x] && m < |deps| && depth[m] + 1 == depth[x]
      && forall e :: e in deps[x] ==> e < |deps| && depth[e] + 1 <= depth[x] && (depth[e] + 1 == depth[x] ==> e <= m)
  {
    var ds := deps[x];
    NoDepsNoDepthAt(ds, depth);
    var d := DeepestDep(ds, depth);
    DepthBounds(ds, depth);
    LargestAtIs(ds, depth, depth[x] - 1);
    hide DepthOver, LargestAt;
    assert forall e :: e in ds ==> depth[e] + 1 <= DepthOver(ds, depth);
  }

  lemma NoDepsNoDepthAt(ds: seq<nat>, depth: seq<nat>)
    requires forall k :: 0 <= k < |ds| ==> ds[k] < |depth|
    requires DepthOver(ds, depth) > 0
    ensures ds != []
  {
  }

  ghost predicate KeepsOrderAt(o: seq<nat>, depth: seq<nat>, d: nat) {
    forall x, y :: 0 <= x < y < |depth| && depth[x] == depth[y] == d ==> Pos(o, x) < Pos(o, y)
  }

  /** Steps of one depth run in the order they are listed. */
  ghost predicate KeepsOrder(o: seq<nat>, depth: seq<nat>) {
    forall x, y :: 0 <= x < y < |depth| && depth[x] == depth[y] ==> Pos(o, x) < Pos(o, y)
  }

  /** Of two steps of one depth, the one listed first does not have the later deepest
      dependency. */
  ghost predicate DeepestInOrder(deps: Deps, depth: seq<nat>)
    requires IsDepth(deps, depth)
  {
    forall x, y :: 0 <= x < y < |deps| && depth[x] == depth[y] > 0 ==>
      DeepestListedLast(deps, depth, x) <= DeepestListedLast(deps, depth, y)
  }

  /** One level down in order, a step is released by its deepest dependency listed
      last. */
  lemma ReleasedByDeepest(deps: Deps, o: seq<nat>, depth: seq<nat>, x: nat)
    requires IsKahnOrder(deps, o) && IsDepth(deps, depth) && x < |deps| && depth[x] > 0
    requires KeepsOrderAt(o, depth, depth[x] - 1)
    ensures Release(deps[x], o) == Pos(o, DeepestListedLast(deps, depth, x)) + 1
  {
    var m := DeepestListedLast(deps, depth, x);
    DeepestListed(deps, depth, x);
    KahnSize(deps, o);
    var e := LastToRun(deps[x], o, m);
    PosOfBoth(deps, o, e, m);
    hide *;
    DepthNonDecreasing(deps, o, depth, Pos(o, m), Pos(o, e));
    OrderAt(o, depth, depth[x] - 1, e, m);
  }

  lemma LastToRun(ds: seq<nat>, o: seq<nat>, m: nat) returns (e: nat)
    requires m in ds
    ensures e in ds && Pos(o, e) + 1 == Release(ds, o) && Pos(o, m) <= Pos(o, e)
  {
    ReleaseBounds(ds, o);
    var k :| 0 <= k < |ds| && Pos(o, ds[k]) + 1 == Release(ds, o);
    e := ds[k];
  }

  lemma PosOfBoth(deps: Deps, o: seq<nat>, x: nat, y: nat)
    requires IsKahnOrder(deps, o) && x < |deps| && y < |deps|
    ensures Pos(o, x) < |o| && o[Pos(o, x)] == x && Pos(o, y) < |o| && o[Pos(o, y)] == y
  {
    PosInOrder(|deps|, o, x);
    PosInOrder(|deps|, o, y);
  }

  lemma OrderAt(o: seq<nat>, depth: seq<nat>, d: nat, x: nat, y: nat)
    requires KeepsOrderAt(o, depth, d) && x <= y < |depth| && depth[x] == depth[y] == d
    ensures Pos(o, x) <= Pos(o, y) && (x < y ==> Pos(o, x) < Pos(o, y))
  {
  }

  /** One level down in order, two steps of a depth are in order exactly when their
      deepest dependencies listed last are. */
  lemma PairInOrder(deps: Deps, o: seq<nat>, depth: seq<nat>, x: nat, y: nat)
    requires IsKahnOrder(deps, o) && IsDepth(deps, depth)
    requires x < y < |deps| == |depth| && depth[x] == depth[y] > 0 && KeepsOrderAt(o, depth, depth[x] - 1)
    ensures Pos(o, x) < Pos(o, y) <==> DeepestListedLast(deps, depth, x) <= DeepestListedLast(deps, depth, y)
  {
    var a, b := DeepestListedLast(deps, depth, x), DeepestListedLast(deps, depth, y);
    ReleasedByDeepest(deps, o, depth, x);
    ReleasedByDeepest(deps, o, depth, y);
    DeepestListed(deps, depth, x);
    DeepestListed(deps, depth, y);
    OriginalOrderKept(deps, o, x, y);
    hide *;
    OrderAt(o, depth, depth[x] - 1, Min(a, b), Max(a, b));
    MinMax(a, b);
  }

  lemma MinMax(a: int, b: int)
    ensures a <= b ==> Min(a, b) == a && Max(a, b) == b
    ensures b <= a ==> Min(a, b) == b && Max(a, b) == a
  {
  }

  /** Steps without dependencies run in the order they are listed. */
  lemma FreeStepsKeepOrder(deps: Deps, o: seq<nat>, depth: seq<nat>)
    requires IsKahnOrder(deps, o) && IsDepth(deps, depth)
    ensures KeepsOrderAt(o, depth, 0)
  {
    forall x, y | 0 <= x < y < |depth| && depth[x] == depth[y] == 0 ensures Pos(o, x) < Pos(o, y) {
      DepthZero(deps[x], depth);
      OriginalOrderKept(deps, o, x, y);
    }
  }

  lemma DepthZero(ds: seq<nat>, depth: seq<nat>)
    requires forall k :: 0 <= k < |ds| ==> ds[k] < |depth|
    requires DepthOver(ds, depth) == 0
    ensures ds == []
  {
  }

  lemma {:induction false} OrderKeptUpTo(deps: Deps, o: seq<nat>, depth: seq<nat>, d: nat)
    requires IsKahnOrder(deps, o) && IsDepth(deps, depth) && DeepestInOrder(deps, depth)
    ensures KeepsOrderAt(o, depth, d)
  {
    hide IsKahnOrder, DeepestListedLast, Pos;
    if d == 0 {
      FreeStepsKeepOrder(deps, o, depth);
    } else {
      OrderKeptUpTo(deps, o, depth, d - 1);
      forall x, y | 0 <= x < y < |depth| && depth[x] == depth[y] == d ensures Pos(o, x) < Pos(o, y) {
        PairInOrder(deps, o, depth, x, y);
      }
    }
  }

  /** Steps of one depth keep their order exactly when the plan lists, at every depth,
      the deepest dependencies in order too: a condition on the plan alone. */
  lemma SameDepthKeepsOrderIff(deps: Deps, o: seq<nat>, depth: seq<nat>)
    requires IsKahnOrder(deps, o) && IsDepth(deps, depth)
    ensures KeepsOrder(o, depth) <==> DeepestInOrder(deps, depth)
  {
    hide IsKahnOrder, DeepestListedLast, Pos;
    if DeepestInOrder(deps, depth) {
      forall x, y | 0 <= x < y < |depth| && depth[x] == depth[y] ensures Pos(o, x) < Pos(o, y) {
        OrderKeptUpTo(deps, o, depth, depth[x]);
      }
    }
    if KeepsOrder(o, depth) {
      forall x, y | 0 <= x < y < |deps| && depth[x] == depth[y] > 0
        ensures DeepestListedLast(deps, depth, x) <= DeepestListedLast(deps, depth, y)
      {
        PairInOrder(deps, o, depth, x, y);
      }
    }
  }

  /** The depths of the first k steps of an order; the others are not settled yet. */
  ghost predicate DepthSoFar(deps: Deps, o: seq<nat>, depth: seq<nat>, k: nat)
    requires WellFormed(deps) && |depth| == |deps| && k <= |o|
  {
    forall j :: 0 <= j < k ==> o[j] < |deps| && depth[o[j]] == DepthOver(deps[o[j]], depth)
  }

  lemma {:induction false} DepthOverElsewhere(ds: seq<nat>, depth: seq<nat>, x: nat, v: nat)
    requires (forall k :: 0 <= k < |ds| ==> ds[k] < |depth|) && x < |depth| && x !in ds
    ensures DepthOver(ds, depth[x := v]) == DepthOver(ds, depth)
  {
    if ds != [] {
      assert forall k :: 0 <= k < |ds[1..]| ==> ds[1..][k] == ds[k + 1];
      DepthOverElsewhere(ds[1..], depth, x, v);
    }
  }

  /** A plan that can be ordered has depths. */
  lemma OrderedHasDepth(deps: Deps, o: seq<nat>) returns (depth: seq<nat>)
    requires WellFormed(deps) && IsKahnOrder(deps, o)
    ensures IsDepth(deps, depth)
  {
    KahnSize(deps, o);
    depth := seq(|deps|, _ => 0);
    var k := 0;
    while k < |o|
      invariant k <= |o| == |deps| == |depth| && DepthSoFar(deps, o, depth, k)
    {
      DepthSettled(deps, o, depth, k);
      depth := depth[o[k] := DepthOver(deps[o[k]], depth)];
      k := k + 1;
    }
    forall i | 0 <= i < |deps| ensures depth[i] == DepthOver(deps[i], depth) {
      PosInOrder(|deps|, o, i);
    }
  }

  lemma DepthSettled(deps: Deps, o: seq<nat>, depth: seq<nat>, k: nat)
    requires WellFormed(deps) && IsKahnOrder(deps, o) && |depth| == |deps| && k < |o| && DepthSoFar(deps, o, depth, k)
    ensures o[k] < |deps| && |o| == |deps|
    ensures DepthSoFar(deps, o, depth[o[k] := DepthOver(deps[o[k]], depth)], k + 1)
  {
    hide Release, DepthOver;
    KahnAt(deps, o, k);
    var x, v := o[k], DepthOver(deps[o[k]], depth);
    forall j | 0 <= j <= k ensures o[j] < |deps| && DepthOver(deps[o[j]], depth[x := v]) == DepthOver(deps[o[j]], depth) {
      KahnAt(deps, o, j);
      ReleasedDeps(deps[o[j]], o, j);
      assert forall e :: e in deps[o[j]] ==> e in o[..j];
      assert x !in o[..j];
      DepthOverElsewhere(deps[o[j]], depth, x, v);
    }
  }

  /** So two steps of one depth can change places: 2 waits for 1 and 3 for 0, both
      have depth 1, and 3 runs before 2. */
  lemma SameDepthCanSwap()
    ensures IsKahnOrder([[], [], [1], [0]], [0, 1, 3, 2])
    ensures IsDepth([[], [], [1], [0]], [0, 0, 1, 1])
  {
    SwapReleases();
    SwapDepths();
    hide Release, Pos, IsDepth;
  }

  lemma SwapReleases()
    ensures Release([], [0, 1, 3, 2]) == 0 && Release([1], [0, 1, 3, 2]) == 2 && Release([0], [0, 1, 3, 2]) == 1
  {
    ReleaseOfOne([0, 1, 3, 2], 0);
    ReleaseOfOne([0, 1, 3, 2], 1);
    hide Pos;
  }

  lemma ReleaseOfOne(o: seq<nat>, k: nat)
    requires Distinct(o) && k < |o|
    ensures Release([o[k]], o) == k + 1
  {
    assert Release([o[k]], o) == Max(Pos(o, o[k]) + 1, Release([o[k]][1..], o));
  }

  lemma SwapDepths()
    ensures IsDepth([[], [], [1], [0]], [0, 0, 1, 1])
  {
    var depth: seq<nat> := [0, 0, 1, 1];
    assert DepthOver([], depth) == 0;
    assert DepthOver([1], depth) == Max(depth[1] + 1, DepthOver([], depth));
    assert DepthOver([0], depth) == Max(depth[0] + 1, DepthOver([], depth));
  }

  // ----- sorting twice -----

  ghost predicate DistinctIds(steps: seq<ToolCall>) {
    forall i, j :: 0 <= i < j < |steps| && steps[i].stepId.Some? ==> steps[i].stepId != steps[j].stepId
  }

  /** With distinct ids a name denotes the same step wherever that step now is. */
  lemma IndexAfterArrange(steps: seq<ToolCall>, o: seq<nat>, name: string)
    requires IsPermutation(|steps|, o) && DistinctIds(steps)
    ensures IndexOfId(Arrange(steps, o), name) ==
      match IndexOfId(steps, name) case None => None case Some(i) => Some(Pos(o, i))
  {
    var sorted := Arrange(steps, o);
    IndexOfIdBound(steps, name);
    IndexOfIdBound(sorted, name);
    match IndexOfId(steps, name)
    case None =>
      assert forall k :: 0 <= k < |sorted| ==> sorted[k].stepId == steps[o[k]].stepId;
    case Some(i) =>
      PermutationCovers(|steps|, o, i);
      assert sorted[Pos(o, i)].stepId == Some(name);
      var k := IndexOfId(sorted, name).value;
      assert steps[o[k]].stepId == Some(name);
      assert o[k] == i;
      assert o[Pos(o, i)] == o[k];
  }

  lemma {:induction false} ResolveAfterArrange(steps: seq<ToolCall>, o: seq<nat>, names: seq<string>)
    requires IsPermutation(|steps|, o) && DistinctIds(steps)
    ensures |Resolve(Arrange(steps, o), names)| == |Resolve(steps, names)|
    ensures forall k :: 0 <= k < |Resolve(steps, names)| ==>
      Resolve(Arrange(steps, o), names)[k] == Pos(o, Resolve(steps, names)[k])
  {
    if names != [] {
      ResolveAfterArrange(steps, o, names[..|names| - 1]);
      IndexAfterArrange(steps, o, names[|names| - 1]);
    }
  }

  lemma {:induction false} ReleaseAfterArrange(ds: seq<nat>, es: seq<nat>, o: seq<nat>)
    requires |ds| == |es| && Distinct(o) && forall k :: 0 <= k < |ds| ==> ds[k] in o && es[k] == Pos(o, ds[k])
    ensures Release(es, Identity(|o|)) == Release(ds, o)
  {
    if ds != [] {
      assert forall k :: 0 <= k < |ds[1..]| ==> ds[1..][k] == ds[k + 1] && es[1..][k] == es[k + 1];
      ReleaseAfterArrange(ds[1..], es[1..], o);
      PosInIdentity(|o|, es[0]);
    }
  }

  lemma PosInIdentity(n: nat, i: nat)
    requires i < n
    ensures Pos(Identity(n), i) == i
  {
    assert Identity(n)[i] == i;
    assert forall k :: 0 <= k < Pos(Identity(n), i) ==> Identity(n)[k] in Identity(n)[..Pos(Identity(n), i)];
  }

  /** A step of the sorted plan is released where it now stands as it was before. */
  lemma ReleaseSorted(steps: seq<ToolCall>, o: seq<nat>, k: nat)
    requires DistinctIds(steps) && IsKahnOrder(DepsOf(steps), o) && k < |steps|
    ensures |DepsOf(steps)| == |DepsOf(Arrange(steps, o))| == |o| == |steps| && o[k] < |steps|
    ensures Release(DepsOf(Arrange(steps, o))[k], Identity(|steps|)) == Release(DepsOf(steps)[o[k]], o)
  {
    hide Release;
    var sorted, deps := Arrange(steps, o), DepsOf(steps);
    DepsWellFormed(steps);
    KahnAt(deps, o, k);
    ResolveAfterArrange(steps, o, sorted[k].dependsOn);
    forall h | 0 <= h < |deps[o[k]]| ensures deps[o[k]][h] in o {
      PermutationCovers(|steps|, o, deps[o[k]][h]);
    }
    ReleaseAfterArrange(deps[o[k]], DepsOf(sorted)[k], o);
  }

  lemma IdentityIsKahn(deps: Deps, o: seq<nat>, again: Deps)
    requires IsKahnOrder(deps, o) && |again| == |deps|
    requires forall k :: 0 <= k < |deps| ==> Release(again[k], Identity(|deps|)) == Release(deps[o[k]], o)
    ensures IsKahnOrder(again, Identity(|deps|))
  {
    hide Release;
    assert forall i, j :: 0 <= i < j < |deps| ==> Sooner(deps, o, o[i], o[j]);
  }

  lemma SortedIsKahn(steps: seq<ToolCall>, o: seq<nat>)
    requires DistinctIds(steps) && IsKahnOrder(DepsOf(steps), o)
    ensures IsKahnOrder(DepsOf(Arrange(steps, o)), Identity(|steps|))
  {
    hide *;
    KahnSize(DepsOf(steps), o);
    DepsWellFormed(steps);
    KahnInRange(DepsOf(steps), o);
    forall k | 0 <= k < |steps|
      ensures |DepsOf(Arrange(steps, o))| == |steps|
      ensures Release(DepsOf(Arrange(steps, o))[k], Identity(|steps|)) == Release(DepsOf(steps)[o[k]], o)
    {
      ReleaseSorted(steps, o, k);
    }
    DepsWellFormed(Arrange(steps, o));
    ArrangeSize(steps, o);
    IdentityIsKahn(DepsOf(steps), o, DepsOf(Arrange(steps, o)));
  }

  lemma KahnInRange(deps: Deps, o: seq<nat>)
    requires IsKahnOrder(deps, o)
    ensures forall k :: 0 <= k < |o| ==> o[k] < |deps|
  {
    hide Release;
  }

  lemma ArrangeSize<T>(xs: seq<T>, o: seq<nat>)
    requires forall k :: 0 <= k < |o| ==> o[k] < |xs|
    ensures |Arrange(xs, o)| == |o|
  {
  }

  /** Sorting a sorted plan leaves it alone. */
  lemma SortedStaysSorted(steps: seq<ToolCall>, o: seq<nat>, p: seq<nat>)
    requires DistinctIds(steps) && IsKahnOrder(DepsOf(steps), o)
    requires IsKahnOrder(DepsOf(Arrange(steps, o)), p)
    ensures p == Identity(|steps|) && Arrange(Arrange(steps, o), p) == Arrange(steps, o)
  {
    SortedIsKahn(steps, o);
    KahnOrderUnique(DepsOf(Arrange(steps, o)), p, Identity(|steps|));
  }

  // ----- Kahn's algorithm -----

  /** How many entries of ds have not run yet. */
  function Pending(ds: seq<nat>, ran: seq<nat>): nat {
    if ds == [] then 0 else (if ds[|ds| - 1] in ran then 0 else 1) + Pending(ds[..|ds| - 1], ran)
  }

  lemma {:induction false} PendingAfter(ds: seq<nat>, ran: seq<nat>, i: nat)
    requires i !in ran
    ensures Pending(ds, ran) == Pending(ds, ran + [i]) + multiset(ds)[i]
  {
    if ds != [] {
      PendingAfter(ds[..|ds| - 1], ran, i);
      assert ds == ds[..|ds| - 1] + [ds[|ds| - 1]];
    }
  }

  lemma {:induction false} PendingNone(ds: seq<nat>, ran: seq<nat>)
    ensures Pending(ds, ran) == 0 <==> forall k :: 0 <= k < |ds| ==> ds[k] in ran
  {
    if ds != [] {
      var front := ds[..|ds| - 1];
      PendingNone(front, ran);
      assert forall k :: 0 <= k < |front| ==> front[k] == ds[k];
    }
  }

  lemma {:induction false} PendingAtFirst(ds: seq<nat>)
    ensures Pending(ds, []) == |ds|
  {
    if ds != [] {
      PendingAtFirst(ds[..|ds| - 1]);
    }
  }

  /** in_degree counts the entries still pending. */
  ghost predicate Counted(deps: Deps, inDegree: seq<int>, ran: seq<nat>) {
    |inDegree| == |deps| && forall j :: 0 <= j < |deps| ==> inDegree[j] == Pending(deps[j], ran)
  }

  /** successors[d] lists j once for every time d occurs in deps[j]. */
  ghost predicate Mirrored(deps: Deps, successors: seq<seq<nat>>) {
    && |successors| == |deps|
    && (forall d, j :: 0 <= d < |deps| && 0 <= j < |deps| ==> multiset(successors[d])[j] == multiset(deps[j])[d])
    && (forall d, k :: 0 <= d < |deps| && 0 <= k < |successors[d]| ==> successors[d][k] < |deps|)
  }

  /** The steps run and queued are exactly those with nothing pending, in Kahn's
      order so far. */
  ghost predicate Running(deps: Deps, ran: seq<nat>, queue: seq<nat>) {
    && WellFormed(deps)
    && Distinct(ran + queue)
    && (forall k :: 0 <= k < |ran + queue| ==> (ran + queue)[k] < |deps|)
    && (forall j :: 0 <= j < |deps| ==> (j in ran + queue <==> Pending(deps[j], ran) == 0))
    && (forall k :: 0 <= k < |ran| ==> ran[k] < |deps| && Release(deps[ran[k]], ran) <= k)
    && (forall i, j :: 0 <= i < j < |ran + queue| ==> Sooner(deps, ran, (ran + queue)[i], (ran + queue)[j]))
  }

  lemma ReadyRelease(ds: seq<nat>, ran: seq<nat>, i: nat)
    requires Pending(ds, ran) == 0
    ensures Release(ds, ran) <= |ran| && Release(ds, ran + [i]) == Release(ds, ran)
  {
    PendingNone(ds, ran);
    ReleaseOfPrefix(ds, ran, [i]);
    ReleaseBounds(ds, ran);
  }

  lemma NewlyReadyRelease(ds: seq<nat>, ran: seq<nat>, i: nat)
    requires i !in ran && Pending(ds, ran + [i]) == 0 && Pending(ds, ran) > 0
    ensures Release(ds, ran + [i]) == |ran| + 1
  {
    PendingAfter(ds, ran, i);
    assert i in multiset(ds);
    var k :| 0 <= k < |ds| && ds[k] == i;
    PendingNone(ds, ran + [i]);
    ReleaseBounds(ds, ran + [i]);
    assert Pos(ran + [i], i) == |ran|;
  }

  lemma RunOne(deps: Deps, ran: seq<nat>, queue: seq<nat>, newly: seq<nat>)
    requires Running(deps, ran, queue) && queue != [] && Ascending(newly)
    requires forall j: nat :: j in newly <==>
      j < |deps| && Pending(deps[j], ran) > 0 && Pending(deps[j], ran + [queue[0]]) == 0
    ensures Running(deps, ran + [queue[0]], queue[1..] + newly)
  {
    hide Release, Pos, Pending, WellFormed;
    var i := queue[0];
    var ran', queue' := ran + [i], queue[1..] + newly;
    var all, all' := ran + queue, ran' + queue';
    assert all' == all + newly;
    assert all[|ran|] == i;
    assert i !in ran by {
      assert forall k :: 0 <= k < |ran| ==> all[k] == ran[k];
    }
    forall j | 0 <= j < |deps| ensures Pending(deps[j], ran') <= Pending(deps[j], ran) {
      PendingAfter(deps[j], ran, i);
    }
    forall k | 0 <= k < |all'|
      ensures all'[k] < |deps|
      ensures k < |all| ==> Release(deps[all'[k]], ran') == Release(deps[all[k]], ran) <= |ran|
      ensures k >= |all| ==> Release(deps[all'[k]], ran') == |ran| + 1
    {
      if k < |all| {
        assert all[k] in all;
        ReadyRelease(deps[all[k]], ran, i);
      } else {
        assert newly[k - |all|] in newly;
        NewlyReadyRelease(deps[all'[k]], ran, i);
      }
    }
    assert forall k :: 0 <= k < |ran'| ==> ran'[k] == all[k] == all'[k];
    assert forall k :: 0 <= k < |newly| ==> newly[k] in newly;
  }

  lemma StartRunning(deps: Deps, queue: seq<nat>)
    requires WellFormed(deps) && Ascending(queue)
    requires forall j: nat :: j in queue <==> j < |deps| && |deps[j]| == 0
    ensures Running(deps, [], queue)
  {
    assert [] + queue == queue;
    forall j | 0 <= j < |deps|
      ensures Pending(deps[j], []) == |deps[j]| && (|deps[j]| == 0 ==> Release(deps[j], []) == 0)
    {
      PendingAtFirst(deps[j]);
    }
    hide Pending, Release, WellFormed;
    forall k | 0 <= k < |queue| ensures queue[k] < |deps| && Release(deps[queue[k]], []) == 0 {
      assert queue[k] in queue;
    }
    forall j | 0 <= j < |deps| ensures j in [] + queue <==> Pending(deps[j], []) == 0 {
    }
    forall i, j | 0 <= i < j < |[] + queue| ensures Sooner(deps, [], ([] + queue)[i], ([] + queue)[j]) {
    }
  }

  lemma SomeLeft(all: set<nat>, some: set<nat>)
    requires |some| < |all|
    ensures all - some != {}
  {
    if all - some == {} {
      assert forall x :: x in all ==> x in all - some || x in some;
      SubsetSize(all, some);
    }
  }

  /** With nothing left to run, either everything has run, in Kahn's order, or
      the rest wait for one another. */
  lemma Drained(deps: Deps, ran: seq<nat>)
    requires Running(deps, ran, [])
    ensures |ran| <= |deps|
    ensures |ran| == |deps| ==> IsKahnOrder(deps, ran)
    ensures |ran| < |deps| ==> HasCycle(deps)
  {
    assert ran + [] == ran;
    DistinctSize(ran);
    Range(|deps|);
    SubsetSize(Elements(ran), UpTo(|deps|));
    if |ran| < |deps| {
      var stuck := UpTo(|deps|) - Elements(ran);
      SomeLeft(UpTo(|deps|), Elements(ran));
      forall j | j in stuck ensures Waits(Edges(deps), stuck, j) {
        PendingNone(deps[j], ran);
        var k :| 0 <= k < |deps[j]| && deps[j][k] !in ran;
        EdgeOf(deps, j, deps[j][k]);
        assert deps[j][k] in stuck;
      }
      StuckHasCycle(Edges(deps), stuck);
    }
  }

  lemma RunBounds(deps: Deps, ran: seq<nat>, queue: seq<nat>)
    requires Running(deps, ran, queue) && queue != []
    ensures queue[0] < |deps| && queue[0] !in ran && |ran| < |deps|
  {
    assert (ran + queue)[|ran|] == queue[0];
    assert forall k :: 0 <= k < |ran| ==> (ran + queue)[k] == ran[k];
    DistinctSize(ran + queue);
    Range(|deps|);
    SubsetSize(Elements(ran + queue), UpTo(|deps|));
  }

  method IdMap(steps: seq<ToolCall>) returns (m: map<string, nat>)
    ensures forall name :: IndexOfId(steps, name) == if name in m then Some(m[name]) else None
  {
    m := map[];
    for i := 0 to |steps|
      invariant forall name :: IndexOfId(steps[..i], name) == if name in m then Some(m[name]) else None
    {
      assert steps[..i + 1][..i] == steps[..i];
      if steps[i].stepId.Some? {
        m := m[steps[i].stepId.value := i];
      }
    }
    assert steps[..|steps|] == steps;
  }

  /** The state while building: the dependencies of the first i steps are in, and
      of those of step i the ones resolved so far. */
  function EntriesSoFar(deps: Deps, i: nat, current: seq<nat>, j: nat): seq<nat>
    requires j < |deps|
  {
    if j < i then deps[j] else if j == i then current else []
  }

  ghost predicate Building(deps: Deps, i: nat, current: seq<nat>, inDegree: seq<int>, successors: seq<seq<nat>>) {
    && |inDegree| == |successors| == |deps|
    && (forall j :: 0 <= j < |deps| ==> inDegree[j] == |EntriesSoFar(deps, i, current, j)|)
    && (forall d, j :: 0 <= d < |deps| && 0 <= j < |deps| ==>
          multiset(successors[d])[j] == multiset(EntriesSoFar(deps, i, current, j))[d])
    && (forall d, k :: 0 <= d < |deps| && 0 <= k < |successors[d]| ==> successors[d][k] < |deps|)
  }

  lemma BuildOne(deps: Deps, i: nat, current: seq<nat>, inDegree: seq<int>, successors: seq<seq<nat>>, d: nat)
    requires Building(deps, i, current, inDegree, successors) && i < |deps| && d < |deps|
    ensures Building(deps, i, current + [d], inDegree[i := inDegree[i] + 1], successors[d := successors[d] + [i]])
  {
    var after := successors[d := successors[d] + [i]];
    forall e, j | 0 <= e < |deps| && 0 <= j < |deps|
      ensures multiset(after[e])[j] == multiset(EntriesSoFar(deps, i, current + [d], j))[e]
    {
      assert multiset(successors[e])[j] == multiset(EntriesSoFar(deps, i, current, j))[e];
      EntryAdded(deps, i, current, d, j, e);
    }
    forall j | 0 <= j < |deps|
      ensures |EntriesSoFar(deps, i, current + [d], j)| == |EntriesSoFar(deps, i, current, j)| + if j == i then 1 else 0
    {
      EntryAdded(deps, i, current, d, j, d);
    }
    hide EntriesSoFar;
  }

  lemma EntryAdded(deps: Deps, i: nat, current: seq<nat>, d: nat, j: nat, e: nat)
    requires j < |deps|
    ensures multiset(EntriesSoFar(deps, i, current + [d], j))[e] ==
            multiset(EntriesSoFar(deps, i, current, j))[e] + if j == i && e == d then 1 else 0
    ensures |EntriesSoFar(deps, i, current + [d], j)| == |EntriesSoFar(deps, i, current, j)| + if j == i then 1 else 0
  {
  }

  lemma BuildNext(deps: Deps, i: nat, inDegree: seq<int>, successors: seq<seq<nat>>)
    requires i < |deps| && Building(deps, i, deps[i], inDegree, successors)
    ensures Building(deps, i + 1, [], inDegree, successors)
  {
    forall j | 0 <= j < |deps| ensures EntriesSoFar(deps, i + 1, [], j) == EntriesSoFar(deps, i, deps[i], j) {
    }
    forall d, j | 0 <= d < |deps| && 0 <= j < |deps|
      ensures multiset(successors[d])[j] == multiset(EntriesSoFar(deps, i + 1, [], j))[d]
    {
      assert EntriesSoFar(deps, i + 1, [], j) == EntriesSoFar(deps, i, deps[i], j);
    }
  }

  lemma Built(deps: Deps, inDegree: seq<int>, successors: seq<seq<nat>>)
    requires Building(deps, |deps|, [], inDegree, successors)
    ensures Counted(deps, inDegree, []) && Mirrored(deps, successors)
  {
    forall j | 0 <= j < |deps| ensures inDegree[j] == Pending(deps[j], []) {
      PendingAtFirst(deps[j]);
    }
    assert forall j :: 0 <= j < |deps| ==> EntriesSoFar(deps, |deps|, [], j) == deps[j];
  }

  /** in_degree and successors for the named dependencies, unknown names dropped. */
  method BuildEdges(steps: seq<ToolCall>, idToIndex: map<string, nat>)
    returns (inDegree: array<int>, successors: array<seq<nat>>)
    requires forall name :: IndexOfId(steps, name) == if name in idToIndex then Some(idToIndex[name]) else None
    ensures fresh(inDegree) && fresh(successors)
    ensures Counted(DepsOf(steps), inDegree[..], []) && Mirrored(DepsOf(steps), successors[..])
  {
    hide Building, Counted, Mirrored;
    var n := |steps|;
    ghost var deps := DepsOf(steps);
    inDegree := new int[n](_ => 0);
    successors := new seq<nat>[n](_ => []);
    BuildStart(deps, inDegree[..], successors[..]);
    for i := 0 to n
      invariant Building(deps, i, [], inDegree[..], successors[..])
    {
      var names := steps[i].dependsOn;
      assert names[..0] == [];
      for h := 0 to |names|
        invariant Building(deps, i, Resolve(steps, names[..h]), inDegree[..], successors[..])
      {
        assert names[..h + 1][..h] == names[..h];
        IndexOfIdBound(steps, names[h]);
        if names[h] in idToIndex {
          var d := idToIndex[names[h]];
          BuildOne(deps, i, Resolve(steps, names[..h]), inDegree[..], successors[..], d);
          successors[d] := successors[d] + [i];
          inDegree[i] := inDegree[i] + 1;
        }
      }
      assert names[..|names|] == names;
      BuildNext(deps, i, inDegree[..], successors[..]);
    }
    Built(deps, inDegree[..], successors[..]);
  }

  lemma BuildStart(deps: Deps, inDegree: seq<int>, successors: seq<seq<nat>>)
    requires |inDegree| == |successors| == |deps|
    requires forall j :: 0 <= j < |deps| ==> inDegree[j] == 0 && successors[j] == []
    ensures Building(deps, 0, [], inDegree, successors)
  {
  }

  /** Counts step i as run and returns the steps that are ready because of it. */
  method ReleaseSuccessors(ghost deps: Deps, i: nat, ghost ran: seq<nat>,
                           inDegree: array<int>, successors: array<seq<nat>>) returns (newly: seq<nat>)
    requires Counted(deps, inDegree[..], ran) && Mirrored(deps, successors[..])
    requires i < |deps| && i !in ran
    modifies inDegree
    ensures Counted(deps, inDegree[..], ran + [i]) && Ascending(newly)
    ensures forall j: nat :: j in newly <==> j < |deps| && Pending(deps[j], ran) > 0 && Pending(deps[j], ran + [i]) == 0
  {
    hide *;
    ghost var before := ReleasingFrom(deps, i, ran, inDegree[..], successors[..]);
    var waiting := successors[i];
    assert waiting == successors[..][i];
    ReleasingStart(deps, ran, i, waiting, inDegree[..], before);
    var ready: seq<nat> := [];
    for k := 0 to |waiting|
      invariant inDegree.Length == |deps| && Releasing(before, waiting, k, inDegree[..], ready)
    {
      var j := waiting[k];
      ghost var counts := inDegree[..];
      ReleasingStep(before, waiting, k, counts, ready);
      inDegree[j] := inDegree[j] - 1;
      assert inDegree[..] == counts[j := counts[j] - 1];
      if inDegree[j] == 0 {
        ready := ready + [j];
      }
    }
    ReleasingEnd(deps, ran, i, before, waiting, inDegree[..], ready);
    newly := SortNats(ready);
  }

  lemma ReleasingFrom(deps: Deps, i: nat, ran: seq<nat>, inDegree: seq<int>, successors: seq<seq<nat>>)
    returns (before: seq<nat>)
    requires Counted(deps, inDegree, ran) && Mirrored(deps, successors) && i < |deps|
    ensures |inDegree| == |successors| == |deps|
    ensures PendingCounts(deps, ran, before) && WaitsFor(deps, i, successors[i])
  {
    hide Pending;
    before := seq(|deps|, j requires 0 <= j < |deps| => Pending(deps[j], ran));
  }

  ghost predicate PendingCounts(deps: Deps, ran: seq<nat>, before: seq<nat>) {
    |before| == |deps| && forall j :: 0 <= j < |deps| ==> before[j] == Pending(deps[j], ran)
  }

  /** `waiting` lists j once for every time i occurs in deps[j]. */
  ghost predicate WaitsFor(deps: Deps, i: nat, waiting: seq<nat>) {
    && (forall j :: 0 <= j < |deps| ==> multiset(waiting)[j] == multiset(deps[j])[i])
    && (forall k :: 0 <= k < |waiting| ==> waiting[k] < |deps|)
  }

  /** There are enough counts for every waiting entry to take one down. */
  ghost predicate Enough(before: seq<nat>, waiting: seq<nat>) {
    forall k :: 0 <= k < |waiting| ==> waiting[k] < |before| && multiset(waiting)[waiting[k]] <= before[waiting[k]]
  }

  function Seen(waiting: seq<nat>, k: nat, j: nat): nat
    requires k <= |waiting|
  {
    multiset(waiting[..k])[j]
  }

  lemma SeenOneMore(waiting: seq<nat>, k: nat)
    requires k < |waiting|
    ensures forall j :: Seen(waiting, k + 1, j) == Seen(waiting, k, j) + if j == waiting[k] then 1 else 0
    ensures Seen(waiting, k + 1, waiting[k]) <= multiset(waiting)[waiting[k]]
  {
    assert waiting[..k + 1] == waiting[..k] + [waiting[k]];
    assert waiting == waiting[..k + 1] + waiting[k + 1..];
  }

  /** After k of the waiting entries: counts are down by as many as have been
      seen, and `ready` holds those seen that came down to zero. */
  ghost predicate Releasing(before: seq<nat>, waiting: seq<nat>, k: nat, inDegree: seq<int>, ready: seq<nat>)
    requires k <= |waiting|
  {
    && |inDegree| == |before|
    && (forall j :: 0 <= j < |before| ==> inDegree[j] + Seen(waiting, k, j) == before[j])
    && Distinct(ready)
    && (forall j :: j in ready ==> j < |before| && Seen(waiting, k, j) > 0 && inDegree[j] == 0)
    && (forall j: nat :: j < |before| && Seen(waiting, k, j) > 0 && inDegree[j] == 0 ==> j in ready)
  }

  lemma ReleasingStart(deps: Deps, ran: seq<nat>, i: nat, waiting: seq<nat>, inDegree: seq<int>, before: seq<nat>)
    requires Counted(deps, inDegree, ran) && i < |deps| && i !in ran
    requires PendingCounts(deps, ran, before) && WaitsFor(deps, i, waiting)
    ensures Releasing(before, waiting, 0, inDegree, []) && Enough(before, waiting)
  {
    forall k | 0 <= k < |waiting| ensures multiset(waiting)[waiting[k]] <= before[waiting[k]] {
      PendingAfter(deps[waiting[k]], ran, i);
    }
  }

  lemma ReleasingStep(before: seq<nat>, waiting: seq<nat>, k: nat, inDegree: seq<int>, ready: seq<nat>)
    requires k < |waiting| && Releasing(before, waiting, k, inDegree, ready) && Enough(before, waiting)
    ensures waiting[k] < |before| == |inDegree|
    ensures var j := waiting[k];
      Releasing(before, waiting, k + 1, inDegree[j := inDegree[j] - 1], if inDegree[j] == 1 then ready + [j] else ready)
  {
    SeenOneMore(waiting, k);
    hide Seen;
    assert inDegree[waiting[k]] >= 1 && waiting[k] !in ready;
  }

  lemma ReleasingEnd(deps: Deps, ran: seq<nat>, i: nat, before: seq<nat>, waiting: seq<nat>, inDegree: seq<int>, ready: seq<nat>)
    requires Releasing(before, waiting, |waiting|, inDegree, ready) && i < |deps| && i !in ran
    requires PendingCounts(deps, ran, before) && WaitsFor(deps, i, waiting)
    ensures Distinct(ready) && Counted(deps, inDegree, ran + [i])
    ensures forall j: nat :: j in ready <==> j < |deps| && Pending(deps[j], ran) > 0 && Pending(deps[j], ran + [i]) == 0
  {
    assert waiting[..|waiting|] == waiting;
    forall j | 0 <= j < |deps|
      ensures Pending(deps[j], ran) == Pending(deps[j], ran + [i]) + Seen(waiting, |waiting|, j)
    {
      PendingAfter(deps[j], ran, i);
    }
  }

  /** The step carries dependency information. */
  predicate Annotated(s: ToolCall) {
    s.stepId.Some? || s.dependsOn != []
  }

  lemma FastPath(steps: seq<ToolCall>)
    requires forall i :: 0 <= i < |steps| ==> !Annotated(steps[i])
    ensures IsKahnOrder(DepsOf(steps), Identity(|steps|)) && !HasCycle(DepsOf(steps))
    ensures Arrange(steps, Identity(|steps|)) == steps
  {
    FastPathIsKahn(DepsOf(steps));
    KahnOrderHasNoCycle(DepsOf(steps), Identity(|steps|));
  }

  method Ready(ghost deps: Deps, inDegree: array<int>) returns (queue: seq<nat>)
    requires Counted(deps, inDegree[..], [])
    ensures Ascending(queue) && forall j: nat :: j in queue <==> j < |deps| && |deps[j]| == 0
  {
    assert inDegree.Length == |deps|;
    queue := [];
    for i := 0 to inDegree.Length
      invariant Ascending(queue) && forall j: nat :: j in queue <==> j < i && |deps[j]| == 0
    {
      PendingAtFirst(deps[i]);
      assert inDegree[..][i] == inDegree[i];
      if inDegree[i] == 0 {
        assert forall k :: 0 <= k < |queue| ==> queue[k] in queue;
        queue := queue + [i];
      }
    }
  }

  /** Orders the steps so that dependencies come first, or reports how many could
      be ordered when some step waits for itself. */
  method TopologicalSort(steps: seq<ToolCall>) returns (r: Result<seq<ToolCall>, nat>)
    ensures r.Err? <==> HasCycle(DepsOf(steps))
    ensures r.Err? ==> r.error < |steps|
    ensures r.Ok? ==> exists o :: IsKahnOrder(DepsOf(steps), o) && r.value == Arrange(steps, o)
  {
    hide Running, Counted, Mirrored, IsKahnOrder, HasCycle, DepsOf, Pending, Ascending;
    ghost var deps := DepsOf(steps);
    DepsWellFormed(steps);
    if forall i :: 0 <= i < |steps| ==> !Annotated(steps[i]) {
      FastPath(steps);
      return Ok(steps);
    }
    var n := |steps|;
    var idToIndex := IdMap(steps);
    var inDegree, successors := BuildEdges(steps, idToIndex);
    var queue := Ready(deps, inDegree);
    StartRunning(deps, queue);
    var result: seq<ToolCall> := [];
    ghost var ran: seq<nat> := [];
    while queue != []
      invariant Running(deps, ran, queue) && Counted(deps, inDegree[..], ran)
      invariant Mirrored(deps, successors[..])
      invariant |result| == |ran| && forall k :: 0 <= k < |ran| ==> ran[k] < n && result[k] == steps[ran[k]]
      decreases n - |ran|
    {
      ghost var queue0 := queue;
      var i := queue[0];
      RunBounds(deps, ran, queue);
      queue := queue[1..];
      result := result + [steps[i]];
      var newly := ReleaseSuccessors(deps, i, ran, inDegree, successors);
      RunOne(deps, ran, queue0, newly);
      queue := queue + newly;
      ran := ran + [i];
    }
    Drained(deps, ran);
    if |result| != n {
      return Err(|result|);
    }
    KahnOrderHasNoCycle(deps, ran);
    assert result == Arrange(steps, ran);
    return Ok(result);
  }
}
