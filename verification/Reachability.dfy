/** Paths and reachability in a finite directed graph given by its edge set. */
module Reachability {

  ghost predicate IsPath<T>(edges: set<(T, T)>, p: seq<T>) {
    |p| > 0 && forall i :: 0 <= i < |p| - 1 ==> (p[i], p[i + 1]) in edges
  }

  ghost predicate PathBetween<T>(edges: set<(T, T)>, p: seq<T>, a: T, b: T) {
    IsPath(edges, p) && p[0] == a && p[|p| - 1] == b
  }

  ghost predicate Reach<T(!new)>(edges: set<(T, T)>, a: T, b: T) {
    exists p :: PathBetween(edges, p, a, b)
  }

  ghost predicate Mutual<T(!new)>(edges: set<(T, T)>, a: T, b: T) {
    Reach(edges, a, b) && Reach(edges, b, a)
  }

  /** `s` has no edge leaving it. */
  ghost predicate ClosedUnder<T(!new)>(edges: set<(T, T)>, s: set<T>) {
    forall a, b :: a in s && (a, b) in edges ==> b in s
  }

  ghost function Reverse<T>(edges: set<(T, T)>): set<(T, T)> {
    set e | e in edges :: (e.1, e.0)
  }

  lemma ReachSelf<T(!new)>(edges: set<(T, T)>, a: T)
    ensures Reach(edges, a, a)
  {
    assert PathBetween(edges, [a], a, a);
  }

  lemma ReachEdge<T(!new)>(edges: set<(T, T)>, a: T, b: T)
    requires (a, b) in edges
    ensures Reach(edges, a, b)
  {
    assert PathBetween(edges, [a, b], a, b);
  }

  lemma ReachTransitive<T(!new)>(edges: set<(T, T)>, a: T, b: T, c: T)
    requires Reach(edges, a, b) && Reach(edges, b, c)
    ensures Reach(edges, a, c)
  {
    var p :| PathBetween(edges, p, a, b);
    var q :| PathBetween(edges, q, b, c);
    var r := p + q[1..];
    forall i | 0 <= i < |r| - 1
      ensures (r[i], r[i + 1]) in edges
    {
      if i >= |p| - 1 {
        assert (q[i - (|p| - 1)], q[i - (|p| - 1) + 1]) in edges;
      }
    }
    assert PathBetween(edges, r, a, c);
  }

  /** Nothing outside a closed set is reachable from inside it. */
  lemma ReachStaysInside<T(!new)>(edges: set<(T, T)>, s: set<T>, a: T, b: T)
    requires ClosedUnder(edges, s) && a in s && Reach(edges, a, b)
    ensures b in s
  {
    var p :| PathBetween(edges, p, a, b);
    var i := 0;
    while i < |p| - 1
      invariant 0 <= i < |p| && p[i] in s
    {
      assert (p[i], p[i + 1]) in edges;
      i := i + 1;
    }
  }

  lemma ReversePath<T(!new)>(edges: set<(T, T)>, a: T, b: T)
    requires Reach(edges, a, b)
    ensures Reach(Reverse(edges), b, a)
  {
    var p :| PathBetween(edges, p, a, b);
    var r := seq(|p|, i requires 0 <= i < |p| => p[|p| - 1 - i]);
    forall i | 0 <= i < |r| - 1
      ensures (r[i], r[i + 1]) in Reverse(edges)
    {
      var k := |p| - 2 - i;
      assert (p[k], p[k + 1]) in edges;
    }
    assert PathBetween(Reverse(edges), r, b, a);
  }

  /** Reachability backwards along reversed edges is reachability forwards. */
  lemma ReverseReach<T(!new)>(edges: set<(T, T)>, a: T, b: T)
    ensures Reach(Reverse(edges), b, a) <==> Reach(edges, a, b)
  {
    if Reach(edges, a, b) {
      ReversePath(edges, a, b);
    }
    if Reach(Reverse(edges), b, a) {
      ReversePath(Reverse(edges), b, a);
      assert Reverse(Reverse(edges)) == edges by {
        forall e | e in edges ensures e in Reverse(Reverse(edges)) {
          assert (e.1, e.0) in Reverse(edges);
        }
      }
    }
  }

  lemma ReachMonotone<T(!new)>(small: set<(T, T)>, large: set<(T, T)>, a: T, b: T)
    requires small <= large && Reach(small, a, b)
    ensures Reach(large, a, b)
  {
    var p :| PathBetween(small, p, a, b);
    assert PathBetween(large, p, a, b);
  }
}
