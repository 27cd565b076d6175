/** The repository graph: two mirrored adjacency maps and a dedup set that
    describe one relation, and the traversals over them. */
module RepositoryGraph {
  import opened Collections
  import opened Reachability
  import opened Tarjan

  datatype NodeKind = FileNode | SymbolNode

  datatype EdgeKind = Imports | Defines | Contains | Inherits | Calls

  datatype Node = Node(id: Id, kind: NodeKind)

  /** `detail` stands for the imported names or base class an edge carries. */
  datatype Edge = Edge(source: Id, target: Id, kind: EdgeKind, detail: string)

  type Key = (Id, Id, EdgeKind)

  function KeyOf(e: Edge): Key {
    (e.source, e.target, e.kind)
  }

  predicate Follows(e: Edge, kind: Option<EdgeKind>) {
    kind.None? || e.kind == kind.value
  }

  function ListAt(adj: map<Id, seq<Edge>>, id: Id): seq<Edge> {
    if id in adj then adj[id] else []
  }

  /** No two edges of the list have the same key. */
  ghost predicate DistinctKeys(list: seq<Edge>) {
    forall i, j :: 0 <= i < j < |list| ==> KeyOf(list[i]) != KeyOf(list[j])
  }

  ghost predicate Holds(list: seq<Edge>, k: Key) {
    exists e :: e in list && KeyOf(e) == k
  }

  /** The end of an edge whose list it belongs to: its source in the out-map,
      its target in the in-map. */
  function EndOf(k: Key, out: bool): Id {
    if out then k.0 else k.1
  }

  /** The list holds exactly one edge for each key of `keys` that ends in x. */
  ghost predicate Listing(list: seq<Edge>, x: Id, keys: set<Key>, out: bool) {
    && DistinctKeys(list)
    && (forall e :: e in list ==> EndOf(KeyOf(e), out) == x && KeyOf(e) in keys)
    && (forall k :: k in keys && EndOf(k, out) == x ==> Holds(list, k))
  }

  ghost predicate Lists(adj: map<Id, seq<Edge>>, keys: set<Key>, out: bool) {
    forall x :: Listing(ListAt(adj, x), x, keys, out)
  }

  /** An edge is in its source's out-list iff it is in its target's in-list. */
  ghost predicate Mirrored(adjOut: map<Id, seq<Edge>>, adjIn: map<Id, seq<Edge>>) {
    forall e: Edge :: e in ListAt(adjOut, e.source) <==> e in ListAt(adjIn, e.target)
  }

  function Appended(adj: map<Id, seq<Edge>>, x: Id, e: Edge): map<Id, seq<Edge>> {
    adj[x := ListAt(adj, x) + [e]]
  }

  lemma AppendedAt(adj: map<Id, seq<Edge>>, x: Id, e: Edge, y: Id)
    ensures ListAt(Appended(adj, x, e), y) == if y == x then ListAt(adj, x) + [e] else ListAt(adj, y)
  {
  }

  lemma AppendListing(list: seq<Edge>, x: Id, keys: set<Key>, out: bool, e: Edge)
    requires Listing(list, x, keys, out) && KeyOf(e) !in keys
    ensures Listing(if EndOf(KeyOf(e), out) == x then list + [e] else list, x, keys + {KeyOf(e)}, out)
  {
    var after := if EndOf(KeyOf(e), out) == x then list + [e] else list;
    assert forall i :: 0 <= i < |list| ==> list[i] in list;
    forall k | k in keys + {KeyOf(e)} && EndOf(k, out) == x ensures Holds(after, k) {
      if k in keys {
        var f :| f in list && KeyOf(f) == k;
        assert f in after;
      } else {
        assert e in after;
      }
    }
  }

  lemma AppendLists(adj: map<Id, seq<Edge>>, keys: set<Key>, out: bool, e: Edge)
    requires Lists(adj, keys, out) && KeyOf(e) !in keys
    ensures Lists(Appended(adj, EndOf(KeyOf(e), out), e), keys + {KeyOf(e)}, out)
  {
    var after := Appended(adj, EndOf(KeyOf(e), out), e);
    forall x ensures Listing(ListAt(after, x), x, keys + {KeyOf(e)}, out) {
      assert Listing(ListAt(adj, x), x, keys, out);
      AppendListing(ListAt(adj, x), x, keys, out, e);
      AppendedAt(adj, EndOf(KeyOf(e), out), e, x);
    }
  }

  lemma AppendMirrored(adjOut: map<Id, seq<Edge>>, adjIn: map<Id, seq<Edge>>, e: Edge)
    requires Mirrored(adjOut, adjIn)
    ensures Mirrored(Appended(adjOut, e.source, e), Appended(adjIn, e.target, e))
  {
    forall f: Edge
      ensures f in ListAt(Appended(adjOut, e.source, e), f.source) <==> f in ListAt(Appended(adjIn, e.target, e), f.target)
    {
      assert f in ListAt(adjOut, f.source) <==> f in ListAt(adjIn, f.target);
    }
  }

  /** `setdefault` with an empty list. */
  function WithList(adj: map<Id, seq<Edge>>, x: Id): (r: map<Id, seq<Edge>>)
    ensures x in r && forall y :: ListAt(r, y) == ListAt(adj, y)
  {
    if x in adj then adj else adj[x := []]
  }

  lemma SameLists(before: map<Id, seq<Edge>>, after: map<Id, seq<Edge>>, keys: set<Key>, out: bool)
    requires Lists(before, keys, out) && forall y :: ListAt(after, y) == ListAt(before, y)
    ensures Lists(after, keys, out)
  {
    forall x ensures Listing(ListAt(after, x), x, keys, out) {
      assert Listing(ListAt(before, x), x, keys, out);
    }
  }

  // ----- the relations the traversals follow -----

  /** The (source, target) pairs of the edges of a kind (of any kind for None). */
  ghost function PairsOf(keys: set<Key>, kind: Option<EdgeKind>): Edges {
    set k | k in keys && (kind.None? || k.2 == kind.value) :: (k.0, k.1)
  }

  /** Only the pairs whose target is a node. */
  ghost function Onto(edges: Edges, nodes: set<Id>): Edges {
    set e | e in edges && e.1 in nodes
  }

  lemma OntoTarget(edges: Edges, nodes: set<Id>, v: Id, w: Id)
    requires (v, w) in Onto(edges, nodes)
    ensures w in nodes
  {
  }

  ghost predicate HasEdgeTo(list: seq<Edge>, kind: Option<EdgeKind>, w: Id) {
    exists e :: e in list && Follows(e, kind) && e.target == w
  }

  lemma OutListPairs(adj: map<Id, seq<Edge>>, keys: set<Key>, kind: Option<EdgeKind>, x: Id, w: Id)
    requires Lists(adj, keys, true)
    ensures (x, w) in PairsOf(keys, kind) <==> HasEdgeTo(ListAt(adj, x), kind, w)
  {
    assert Listing(ListAt(adj, x), x, keys, true);
    if HasEdgeTo(ListAt(adj, x), kind, w) {
      var e :| e in ListAt(adj, x) && Follows(e, kind) && e.target == w;
      assert KeyOf(e) in keys;
    }
    if (x, w) in PairsOf(keys, kind) {
      var k :| k in keys && (kind.None? || k.2 == kind.value) && (k.0, k.1) == (x, w);
      assert Holds(ListAt(adj, x), k);
      var e :| e in ListAt(adj, x) && KeyOf(e) == k;
      assert Follows(e, kind);
    }
  }

  function TargetsFrom(list: seq<Edge>, kind: Option<EdgeKind>, nodes: set<Id>): (r: seq<Id>)
    ensures forall w :: w in r <==> HasEdgeTo(list, kind, w) && w in nodes
  {
    if list == [] then []
    else
      var rest := TargetsFrom(list[1..], kind, nodes);
      assert list == [list[0]] + list[1..];
      assert forall w :: HasEdgeTo(list, kind, w) <==>
        (Follows(list[0], kind) && list[0].target == w) || HasEdgeTo(list[1..], kind, w) by {
        forall w ensures HasEdgeTo(list, kind, w) <==>
          (Follows(list[0], kind) && list[0].target == w) || HasEdgeTo(list[1..], kind, w)
        {
          if HasEdgeTo(list[1..], kind, w) {
            var e :| e in list[1..] && Follows(e, kind) && e.target == w;
            assert e in list;
          }
        }
      }
      if Follows(list[0], kind) && list[0].target in nodes then [list[0].target] + rest else rest
  }

  // ----- breadth-first reachability -----

  /** All that a can reach, other than a itself. */
  ghost function Downstream(edges: Edges, a: Id): set<Id> {
    set b | b in Heads(edges) && b != a && Reach(edges, a, b)
  }

  ghost function Heads(edges: Edges): set<Id> {
    set e | e in edges :: e.1
  }

  /** Visited nodes are reachable; queued nodes are known; any known node other
      than `busy` that is no longer queued has only known successors. */
  ghost predicate SweepWith(edges: Edges, start: Id, visited: set<Id>, queue: seq<Id>, busy: set<Id>) {
    && start !in visited
    && (forall x :: x in visited + {start} ==> Reach(edges, start, x))
    && (forall x :: x in queue ==> x in visited + {start})
    && busy <= visited + {start}
    && (forall x, w :: (x, w) in edges && x in visited + {start} && x !in queue && x !in busy ==> w in visited + {start})
  }

  ghost predicate Sweep(edges: Edges, start: Id, visited: set<Id>, queue: seq<Id>) {
    SweepWith(edges, start, visited, queue, {})
  }

  ghost predicate SweepBut(edges: Edges, start: Id, visited: set<Id>, queue: seq<Id>, current: Id) {
    SweepWith(edges, start, visited, queue, {current})
  }

  lemma SweepPop(edges: Edges, start: Id, visited: set<Id>, queue: seq<Id>)
    requires queue != [] && Sweep(edges, start, visited, queue)
    ensures SweepBut(edges, start, visited, queue[1..], queue[0])
  {
    assert queue == [queue[0]] + queue[1..];
  }

  lemma SweepAdd(edges: Edges, start: Id, visited: set<Id>, queue: seq<Id>, current: Id, w: Id)
    requires SweepBut(edges, start, visited, queue, current) && (current, w) in edges && w != start
    ensures SweepBut(edges, start, visited + {w}, queue + [w], current)
  {
    ReachEdge(edges, current, w);
    ReachTransitive(edges, start, current, w);
  }

  lemma SweepStart(edges: Edges, start: Id)
    ensures Sweep(edges, start, {}, [start])
  {
    ReachSelf(edges, start);
  }

  lemma SweepSettle(edges: Edges, start: Id, visited: set<Id>, queue: seq<Id>, current: Id)
    requires SweepBut(edges, start, visited, queue, current)
    requires forall w :: (current, w) in edges ==> w in visited + {start}
    ensures Sweep(edges, start, visited, queue)
  {
  }

  lemma SweepDone(edges: Edges, start: Id, visited: set<Id>)
    requires Sweep(edges, start, visited, []) && visited <= Heads(edges)
    ensures visited == Downstream(edges, start)
  {
    forall b | b in Downstream(edges, start) ensures b in visited {
      ReachStaysInside(edges, visited + {start}, start, b);
    }
  }

  ghost predicate HasEdgeFrom(list: seq<Edge>, kind: Option<EdgeKind>, w: Id) {
    exists e :: e in list && Follows(e, kind) && e.source == w
  }

  lemma InListPairs(adj: map<Id, seq<Edge>>, keys: set<Key>, kind: Option<EdgeKind>, x: Id, w: Id)
    requires Lists(adj, keys, false)
    ensures (x, w) in Reverse(PairsOf(keys, kind)) <==> HasEdgeFrom(ListAt(adj, x), kind, w)
  {
    assert Listing(ListAt(adj, x), x, keys, false);
    if HasEdgeFrom(ListAt(adj, x), kind, w) {
      var e :| e in ListAt(adj, x) && Follows(e, kind) && e.source == w;
      assert KeyOf(e) in keys && (w, x) in PairsOf(keys, kind);
    }
    if (x, w) in Reverse(PairsOf(keys, kind)) {
      assert (w, x) in PairsOf(keys, kind);
      var k :| k in keys && (kind.None? || k.2 == kind.value) && (k.0, k.1) == (w, x);
      assert Holds(ListAt(adj, x), k);
      var e :| e in ListAt(adj, x) && KeyOf(e) == k;
      assert Follows(e, kind);
    }
  }

  // ----- breadth-first shortest paths -----

  ghost predicate Shortest(edges: Edges, p: seq<Id>, a: Id, b: Id) {
    PathBetween(edges, p, a, b) && forall q :: PathBetween(edges, q, a, b) ==> |p| <= |q|
  }

  function Last(p: seq<Id>): Id
    requires p != []
  {
    p[|p| - 1]
  }

  /** Every node at the end of a path of at most `level` nodes has been visited. */
  ghost predicate Covered(edges: Edges, source: Id, visited: set<Id>, level: nat) {
    forall q :: IsPath(edges, q) && q[0] == source && |q| <= level ==> Last(q) in visited
  }

  /** The queue holds shortest paths to visited nodes, of `level` or `level + 1`
      nodes, the shorter ones first. */
  ghost predicate Frontline(edges: Edges, source: Id, visited: set<Id>, queue: seq<seq<Id>>, level: nat) {
    && (forall p :: p in queue ==> p != [] && Last(p) in visited && Shortest(edges, p, source, Last(p)))
    && (forall i :: 0 <= i < |queue| ==> level <= |queue[i]| <= level + 1)
    && (forall i, j :: 0 <= i < j < |queue| ==> |queue[i]| <= |queue[j]|)
  }

  ghost predicate Queued(queue: seq<seq<Id>>, x: Id) {
    exists p :: p in queue && p != [] && Last(p) == x
  }

  ghost predicate LevelsWith(edges: Edges, source: Id, visited: set<Id>, queue: seq<seq<Id>>, level: nat, busy: set<Id>) {
    && source in visited
    && Covered(edges, source, visited, level)
    && Frontline(edges, source, visited, queue, level)
    && (forall x, w :: (x, w) in edges && x in visited && !Queued(queue, x) && x !in busy ==> w in visited)
  }

  ghost predicate Levels(edges: Edges, source: Id, visited: set<Id>, queue: seq<seq<Id>>, level: nat) {
    LevelsWith(edges, source, visited, queue, level, {})
  }

  ghost predicate LevelsBut(edges: Edges, source: Id, visited: set<Id>, queue: seq<seq<Id>>, level: nat, current: Id) {
    LevelsWith(edges, source, visited, queue, level, {current})
  }

  lemma SelfShortest(edges: Edges, source: Id)
    ensures Reach(edges, source, source) && Shortest(edges, [source], source, source)
  {
    assert PathBetween(edges, [source], source, source);
  }

  lemma ShortestReaches(edges: Edges, p: seq<Id>, a: Id, b: Id)
    requires Shortest(edges, p, a, b)
    ensures Reach(edges, a, b)
  {
  }

  lemma LevelsStart(edges: Edges, source: Id)
    ensures Levels(edges, source, {source}, [[source]], 1)
  {
    assert [source] in [[source]] && Last([source]) == source;
    assert Queued([[source]], source);
    assert PathBetween(edges, [source], source, source);
  }

  /** When the shorter paths are used up, everything one step further has been
      visited, so the level may rise; then the first path may be taken off. */
  lemma LevelsNext(edges: Edges, source: Id, visited: set<Id>, queue: seq<seq<Id>>, level: nat)
    requires level >= 1 && queue != [] && Levels(edges, source, visited, queue, level)
    ensures LevelsBut(edges, source, visited, queue[1..], |queue[0]|, Last(queue[0]))
  {
    var path := queue[0];
    assert forall p :: p in queue ==> p == path || p in queue[1..];
    forall q | IsPath(edges, q) && q[0] == source && |q| <= |path|
      ensures Last(q) in visited
    {
      if |q| > level {
        var front := q[..level];
        assert IsPath(edges, front) && PathBetween(edges, front, source, Last(front));
        assert (front[level - 1], q[level]) in edges;
        forall p | p in queue && p != [] ensures Last(p) != Last(front) {
          var i :| 0 <= i < |queue| && queue[i] == p;
        }
      }
    }
    forall x | Queued(queue, x) && x != Last(path) ensures Queued(queue[1..], x) {
      var p :| p in queue && p != [] && Last(p) == x;
      assert p in queue[1..];
    }
  }

  lemma LevelsHead(edges: Edges, source: Id, visited: set<Id>, queue: seq<seq<Id>>, level: nat)
    requires level >= 1 && queue != [] && Levels(edges, source, visited, queue, level)
    ensures queue[0] != [] && Last(queue[0]) in visited
    ensures PathBetween(edges, queue[0], source, Last(queue[0]))
  {
    assert queue[0] in queue;
  }

  lemma LevelsSettle(edges: Edges, source: Id, visited: set<Id>, queue: seq<seq<Id>>, level: nat, current: Id)
    requires LevelsBut(edges, source, visited, queue, level, current)
    requires forall w :: (current, w) in edges ==> w in visited
    ensures Levels(edges, source, visited, queue, level)
  {
  }

  lemma LevelsDone(edges: Edges, source: Id, visited: set<Id>, level: nat, target: Id)
    requires Levels(edges, source, visited, [], level) && target !in visited
    ensures !Reach(edges, source, target)
  {
    if Reach(edges, source, target) {
      assert forall x :: !Queued([], x);
      ReachStaysInside(edges, visited, source, target);
      assert false;
    }
  }

  lemma ExtendedPath(edges: Edges, p: seq<Id>, source: Id, w: Id)
    requires p != [] && PathBetween(edges, p, source, Last(p)) && (Last(p), w) in edges
    ensures PathBetween(edges, p + [w], source, w)
  {
    var r := p + [w];
    forall i | 0 <= i < |r| - 1 ensures (r[i], r[i + 1]) in edges {
    }
  }

  lemma ExtendedIsShortest(edges: Edges, source: Id, visited: set<Id>, queue: seq<seq<Id>>, level: nat, path: seq<Id>, w: Id)
    requires path != [] && |path| == level && PathBetween(edges, path, source, Last(path))
    requires LevelsBut(edges, source, visited, queue, level, Last(path)) && w !in visited && (Last(path), w) in edges
    ensures Shortest(edges, path + [w], source, w)
  {
    ExtendedPath(edges, path, source, w);
  }

  lemma LevelsAdd(edges: Edges, source: Id, visited: set<Id>, queue: seq<seq<Id>>, level: nat, path: seq<Id>, w: Id)
    requires path != [] && |path| == level && PathBetween(edges, path, source, Last(path))
    requires LevelsBut(edges, source, visited, queue, level, Last(path)) && w !in visited && (Last(path), w) in edges
    ensures LevelsBut(edges, source, visited + {w}, queue + [path + [w]], level, Last(path))
  {
    ExtendedIsShortest(edges, source, visited, queue, level, path, w);
    var longer := queue + [path + [w]];
    assert longer[|queue|] == path + [w] && Last(path + [w]) == w;
    assert Queued(longer, w);
    forall x | Queued(queue, x) ensures Queued(longer, x) {
      var p :| p in queue && p != [] && Last(p) == x;
      assert p in longer;
    }
  }

  // ----- impact -----

  datatype Risk = Low | Medium | High

  datatype ImpactResult = ImpactResult(changed: Id, direct: seq<Id>, transitive: seq<Id>, affected: nat, risk: Risk)

  function RiskOf(n: nat): Risk {
    if n <= 2 then Low else if n <= 10 then Medium else High
  }

  ghost function DefinedBy(keys: set<Key>, files: set<Id>): set<Key> {
    set k | k in keys && k.2 == Defines && k.0 in files
  }

  function CountDefines(list: seq<Edge>): nat {
    if list == [] then 0 else (if list[0].kind == Defines then 1 else 0) + CountDefines(list[1..])
  }

  ghost function DefinesKeys(list: seq<Edge>): set<Key> {
    set e | e in list && e.kind == Defines :: KeyOf(e)
  }

  lemma DefinesKeysCons(list: seq<Edge>)
    requires list != [] && DistinctKeys(list)
    ensures DefinesKeys(list) == (if list[0].kind == Defines then {KeyOf(list[0])} else {}) + DefinesKeys(list[1..])
    ensures KeyOf(list[0]) !in DefinesKeys(list[1..]) && DistinctKeys(list[1..])
  {
    hide KeyOf;
    assert list == [list[0]] + list[1..];
    forall e | e in list[1..] ensures KeyOf(e) != KeyOf(list[0]) {
      var i :| 0 <= i < |list[1..]| && list[1..][i] == e;
      assert list[i + 1] == e;
    }
  }

  lemma {:induction false} CountDefinesKeys(list: seq<Edge>)
    requires DistinctKeys(list)
    ensures CountDefines(list) == |DefinesKeys(list)|
  {
    if list == [] {
      assert DefinesKeys(list) == {};
    } else {
      DefinesKeysCons(list);
      CountDefinesKeys(list[1..]);
      hide DefinesKeys, KeyOf, DistinctKeys;
    }
  }

  lemma NothingDefined(keys: set<Key>)
    ensures |DefinedBy(keys, {})| == 0
  {
    assert DefinedBy(keys, {}) == {};
  }

  lemma DefinedByOneMore(keys: set<Key>, done: set<Id>, dep: Id)
    requires dep !in done
    ensures |DefinedBy(keys, done + {dep})| == |DefinedBy(keys, done)| + |DefinedBy(keys, {dep})|
  {
    assert DefinedBy(keys, done + {dep}) == DefinedBy(keys, done) + DefinedBy(keys, {dep});
  }

  ghost function Importers(imports: Edges, file: Id): set<Id> {
    set e | e in imports && e.1 == file :: e.0
  }

  function ImportSources(list: seq<Edge>): set<Id> {
    set e | e in list && e.kind == Imports :: e.source
  }

  lemma ImportersFromList(adj: map<Id, seq<Edge>>, keys: set<Key>, file: Id)
    requires Lists(adj, keys, false)
    ensures ImportSources(ListAt(adj, file)) == Importers(PairsOf(keys, Some(Imports)), file)
  {
    var sources := ImportSources(ListAt(adj, file));
    forall w ensures w in sources <==> (w, file) in PairsOf(keys, Some(Imports)) {
      InListPairs(adj, keys, Some(Imports), file, w);
      assert w in sources <==> HasEdgeFrom(ListAt(adj, file), Some(Imports), w);
    }
  }

  lemma CountDefinesExact(adj: map<Id, seq<Edge>>, x: Id, keys: set<Key>)
    requires Lists(adj, keys, true)
    ensures CountDefines(ListAt(adj, x)) == |DefinedBy(keys, {x})|
  {
    var list := ListAt(adj, x);
    assert Listing(list, x, keys, true);
    CountDefinesKeys(list);
    forall k | k in DefinedBy(keys, {x}) ensures k in DefinesKeys(list) {
      assert Holds(list, k);
    }
    assert DefinesKeys(list) == DefinedBy(keys, {x});
  }

  /** `sccs` are the strongly connected components with more than one node among
      what the starting points reach: two distinct nodes share a group exactly
      when each reaches the other. Groups are sorted and disjoint. */
  ghost predicate CycleGroups(edges: Edges, starts: set<Id>, sccs: seq<seq<Id>>) {
    && (forall k :: 0 <= k < |sccs| ==> |sccs[k]| > 1 && StrictlySorted(sccs[k]))
    && (forall k, l :: 0 <= k < l < |sccs| ==> Elements(sccs[k]) !! Elements(sccs[l]))
    && (forall a, b :: a != b ==>
          (SameGroup(sccs, a, b) <==> Mutual(edges, a, b) && ReachedFrom(edges, starts, a)))
  }

  class Graph {
    var nodes: map<Id, Node>
    var order: seq<Id>
    var adjOut: map<Id, seq<Edge>>
    var adjIn: map<Id, seq<Edge>>
    var edgeSet: set<Key>

    /** Both maps and the dedup set describe the same edges, each edge once. */
    ghost predicate Valid()
      reads this
    {
      && Distinct(order) && Elements(order) == nodes.Keys
      && (forall id :: id in nodes ==> nodes[id].id == id && id in adjOut && id in adjIn)
      && Lists(adjOut, edgeSet, true) && Lists(adjIn, edgeSet, false) && Mirrored(adjOut, adjIn)
    }

    constructor ()
      ensures Valid() && nodes == map[] && edgeSet == {}
    {
      nodes, order, adjOut, adjIn, edgeSet := map[], [], map[], map[], {};
    }

    method AddNode(node: Node)
      requires Valid()
      modifies this
      ensures Valid()
      ensures nodes == old(nodes)[node.id := node] && edgeSet == old(edgeSet)
      ensures order == if node.id in old(nodes) then old(order) else old(order) + [node.id]
      ensures adjOut == WithList(old(adjOut), node.id) && adjIn == WithList(old(adjIn), node.id)
    {
      SameLists(adjOut, WithList(adjOut, node.id), edgeSet, true);
      SameLists(adjIn, WithList(adjIn, node.id), edgeSet, false);
      if node.id !in nodes {
        assert node.id !in Elements(order);
        order := order + [node.id];
      }
      nodes := nodes[node.id := node];
      adjOut := WithList(adjOut, node.id);
      adjIn := WithList(adjIn, node.id);
    }

    method AddEdge(edge: Edge)
      requires Valid()
      modifies this
      ensures Valid()
      ensures nodes == old(nodes) && order == old(order)
      ensures edgeSet == old(edgeSet) + {KeyOf(edge)}
      ensures KeyOf(edge) in old(edgeSet) ==> adjOut == old(adjOut) && adjIn == old(adjIn)
      ensures KeyOf(edge) !in old(edgeSet) ==>
        adjOut == Appended(old(adjOut), edge.source, edge) && adjIn == Appended(old(adjIn), edge.target, edge)
    {
      var key := KeyOf(edge);
      if key in edgeSet {
        return;
      }
      AppendLists(adjOut, edgeSet, true, edge);
      AppendLists(adjIn, edgeSet, false, edge);
      AppendMirrored(adjOut, adjIn, edge);
      edgeSet := edgeSet + {key};
      adjOut := Appended(adjOut, edge.source, edge);
      adjIn := Appended(adjIn, edge.target, edge);
    }

    ghost function ImportPairs(): Edges
      reads this
    {
      PairsOf(edgeSet, Some(Imports))
    }

    ghost function Files(): set<Id>
      reads this
      requires Valid()
    {
      set id | id in order && nodes[id].kind == FileNode
    }

    function ImportTargets(id: Id): seq<Id>
      reads this
    {
      TargetsFrom(ListAt(adjOut, id), Some(Imports), nodes.Keys)
    }

    lemma ImportTargetsExact(id: Id)
      requires Valid()
      ensures TargetsOf(Onto(ImportPairs(), nodes.Keys), id, ImportTargets(id))
    {
      forall w ensures w in ImportTargets(id) <==> (id, w) in Onto(ImportPairs(), nodes.Keys) {
        OutListPairs(adjOut, edgeSet, Some(Imports), id, w);
      }
    }

    /** The circular import groups: the strongly connected components with more
        than one node of the import graph, each sorted, among what the files
        reach. */
    method DetectCycles() returns (sccs: seq<seq<Id>>)
      requires Valid()
      ensures CycleGroups(Onto(ImportPairs(), nodes.Keys), Files(), sccs)
    {
      hide Searching, Groups;
      ghost var edges := Onto(ImportPairs(), nodes.Keys);
      var counter: nat := 0;
      var index: map<Id, nat>, low: map<Id, nat> := map[], map[];
      var onStack: set<Id>, stack: seq<Id> := {}, [];
      sccs := [];
      ghost var s := State(0, map[], map[], {}, [], [], {});
      InitialState(edges);
      for i := 0 to |order|
        invariant s.work == [] && Searching(edges, s) && Groups(edges, s, sccs)
        invariant s == State(counter, index, low, onStack, stack, [], s.looked)
        invariant index.Keys <= nodes.Keys && FoundFrom(edges, Files(), index.Keys)
        invariant forall k :: 0 <= k < i && nodes[order[k]].kind == FileNode ==> order[k] in index
      {
        var start := order[i];
        assert start in Elements(order);
        if nodes[start].kind == FileNode && start !in index {
          counter, index, low, onStack, stack, sccs, s := SearchFrom(start, counter, index, low, onStack, stack, sccs, s);
        }
      }
      IdleStackEmpty(edges, s);
      GroupsWellFormed(edges, s, sccs);
      forall a, b | a != b
        ensures SameGroup(sccs, a, b) <==> Mutual(edges, a, b) && ReachedFrom(edges, Files(), a)
      {
        GroupsComplete(edges, Files(), s, sccs, a, b);
      }
    }

    /** The body of the outer loop for one undiscovered file: runs the work
        stack until it is empty again. */
    method SearchFrom(start: Id, counter0: nat, index0: map<Id, nat>, low0: map<Id, nat>,
                      onStack0: set<Id>, stack0: seq<Id>, sccs0: seq<seq<Id>>, ghost s0: State)
      returns (counter: nat, index: map<Id, nat>, low: map<Id, nat>,
               onStack: set<Id>, stack: seq<Id>, sccs: seq<seq<Id>>, ghost s: State)
      requires Valid() && start in Files() && start in nodes && start !in index0
      requires s0 == State(counter0, index0, low0, onStack0, stack0, [], s0.looked)
      requires Searching(Onto(ImportPairs(), nodes.Keys), s0)
      requires Groups(Onto(ImportPairs(), nodes.Keys), s0, sccs0)
      requires index0.Keys <= nodes.Keys && FoundFrom(Onto(ImportPairs(), nodes.Keys), Files(), index0.Keys)
      ensures s == State(counter, index, low, onStack, stack, [], s.looked)
      ensures Searching(Onto(ImportPairs(), nodes.Keys), s)
      ensures Groups(Onto(ImportPairs(), nodes.Keys), s, sccs)
      ensures index.Keys <= nodes.Keys && FoundFrom(Onto(ImportPairs(), nodes.Keys), Files(), index.Keys)
      ensures index0.Keys + {start} <= index.Keys
    {
      hide Searching, Groups, FoundFrom, Valid, ImportPairs, PairsOf, Onto, Files, ImportTargets, TargetsOf;
      hide ReachOf;
      ghost var edges := Onto(ImportPairs(), nodes.Keys);
      sccs := sccs0;
      index, low := index0[start := counter0], low0[start := counter0];
      counter, onStack, stack := counter0 + 1, onStack0 + {start}, stack0 + [start];
      var work := [Frame(start, 0, ImportTargets(start))];
      ImportTargetsExact(start);
      StartKeeps(edges, s0, start, ImportTargets(start));
      GroupsThroughStart(edges, s0, start, ImportTargets(start), sccs);
      FoundStart(edges, Files(), index0.Keys, start);
      assert index.Keys == index0.Keys + {start};
      s := Push(s0, start, ImportTargets(start));
      while work != []
        invariant s == State(counter, index, low, onStack, stack, work, s.looked)
        invariant Searching(edges, s) && Groups(edges, s, sccs)
        invariant index.Keys <= nodes.Keys && FoundFrom(edges, Files(), index.Keys)
        invariant index0.Keys + {start} <= index.Keys
        decreases nodes.Keys - index.Keys, |work|, if work == [] then 0 else |Top(s).targets| - Top(s).next
      {
        TopFacts(edges, s);
        var frame := work[|work| - 1];
        var v := frame.node;
        if frame.next < |frame.targets| {
          var w := frame.targets[frame.next];
          NextEdge(edges, s);
          OntoTarget(ImportPairs(), nodes.Keys, v, w);
          work := work[|work| - 1 := frame.(next := frame.next + 1)];
          if w !in index {
            ImportTargetsExact(w);
            Visited(edges, Files(), s, w, ImportTargets(w), sccs);
            s := Push(Advance(s), w, ImportTargets(w));
            index, low := index[w := counter], low[w := counter];
            counter, onStack, stack := counter + 1, onStack + {w}, stack + [w];
            work := work + [Frame(w, 0, ImportTargets(w))];
          } else {
            if w in onStack {
              low := low[v := Min(low[v], index[w])];
            }
            SkipKeeps(edges, s);
            GroupsThroughStep(edges, s, StepOver(s), sccs);
            s := StepOver(s);
          }
        } else {
          work, low, onStack, stack, sccs, s := LeaveNode(edges, index, low, onStack, stack, sccs, work, s);
        }
      }
    }

    /** All neighbours of the top frame are done: hands its lowlink to the frame below,
        and takes its component off the stack if it is a root. */
    method LeaveNode(ghost edges: Edges, index: map<Id, nat>, low0: map<Id, nat>, onStack0: set<Id>, stack0: seq<Id>,
                     sccs0: seq<seq<Id>>, work0: seq<Frame>, ghost s0: State)
      returns (work: seq<Frame>, low: map<Id, nat>, onStack: set<Id>, stack: seq<Id>, sccs: seq<seq<Id>>, ghost s: State)
      requires s0 == State(s0.counter, index, low0, onStack0, stack0, work0, s0.looked)
      requires work0 != [] && Top(s0).next == |Top(s0).targets|
      requires Searching(edges, s0) && Groups(edges, s0, sccs0)
      ensures s == State(s0.counter, index, low, onStack, stack, work, s0.looked) && |work| == |work0| - 1
      ensures Searching(edges, s) && Groups(edges, s, sccs)
    {
      hide Searching, Groups;
      TopFacts(edges, s0);
      low, onStack, stack, sccs := low0, onStack0, stack0, sccs0;
      var v := work0[|work0| - 1].node;
      work := work0[..|work0| - 1];
      if work != [] {
        var parent := work[|work| - 1].node;
        low := low[parent := Min(low[parent], low[v])];
      }
      if low[v] == index[v] {
        var scc;
        ghost var m;
        scc, stack, onStack, m := PopComponent(v, stack, onStack);
        var group := SortedSet(Elements(scc));
        RootCloses(edges, s0, m, sccs, group);
        if |scc| > 1 {
          sccs := sccs + [group];
        }
        s := Close(s0, m);
      } else {
        LeaveKeeps(edges, s0);
        GroupsThroughStep(edges, s0, PopFrame(s0), sccs);
        s := PopFrame(s0);
      }
    }

    /** Everything `file` imports, directly or through other files, sorted. */
    method TransitiveDependencies(file: Id) returns (r: seq<Id>)
      requires Valid()
      ensures StrictlySorted(r)
      ensures Elements(r) == if file in nodes then Downstream(ImportPairs(), file) else {}
    {
      hide SweepWith, Sweep, SweepBut, Lists, Mirrored, Downstream, Reach, PairsOf;
      if file !in nodes {
        return [];
      }
      ghost var edges := ImportPairs();
      ghost var all := Heads(edges);
      var visited: set<Id>, queue := {}, [file];
      SweepStart(edges, file);
      while queue != []
        invariant visited <= all
        invariant Sweep(edges, file, visited, queue)
        decreases all - visited, |queue|
      {
        var current := queue[0];
        ghost var visited0, queue0 := visited, queue;
        queue := queue[1..];
        SweepPop(edges, file, visited0, queue0);
        var list := ListAt(adjOut, current);
        for i := 0 to |list|
          invariant visited0 <= visited <= all
          invariant visited == visited0 ==> |queue| < |queue0|
          invariant SweepBut(edges, file, visited, queue, current)
          invariant forall k :: 0 <= k < i && list[k].kind == Imports ==> list[k].target in visited + {file}
        {
          var e := list[i];
          if e.kind == Imports && e.target !in visited && e.target != file {
            assert HasEdgeTo(list, Some(Imports), e.target);
            OutListPairs(adjOut, edgeSet, Some(Imports), current, e.target);
            SweepAdd(edges, file, visited, queue, current, e.target);
            visited := visited + {e.target};
            queue := queue + [e.target];
          }
        }
        forall w | (current, w) in edges ensures w in visited + {file} {
          OutListPairs(adjOut, edgeSet, Some(Imports), current, w);
        }
        SweepSettle(edges, file, visited, queue, current);
      }
      SweepDone(edges, file, visited);
      r := SortedSet(visited);
    }

    /** Everything that imports `file`, directly or through other files, sorted. */
    method TransitiveDependents(file: Id) returns (r: seq<Id>)
      requires Valid()
      ensures StrictlySorted(r)
      ensures Elements(r) == if file in nodes then Downstream(Reverse(ImportPairs()), file) else {}
    {
      hide SweepWith, Sweep, SweepBut, Lists, Mirrored, Downstream, Reach, PairsOf;
      if file !in nodes {
        return [];
      }
      ghost var edges := Reverse(ImportPairs());
      ghost var all := Heads(edges);
      var visited: set<Id>, queue := {}, [file];
      SweepStart(edges, file);
      while queue != []
        invariant visited <= all
        invariant Sweep(edges, file, visited, queue)
        decreases all - visited, |queue|
      {
        var current := queue[0];
        ghost var visited0, queue0 := visited, queue;
        queue := queue[1..];
        SweepPop(edges, file, visited0, queue0);
        var list := ListAt(adjIn, current);
        for i := 0 to |list|
          invariant visited0 <= visited <= all
          invariant visited == visited0 ==> |queue| < |queue0|
          invariant SweepBut(edges, file, visited, queue, current)
          invariant forall k :: 0 <= k < i && list[k].kind == Imports ==> list[k].source in visited + {file}
        {
          var e := list[i];
          if e.kind == Imports && e.source !in visited && e.source != file {
            assert HasEdgeFrom(list, Some(Imports), e.source);
            InListPairs(adjIn, edgeSet, Some(Imports), current, e.source);
            SweepAdd(edges, file, visited, queue, current, e.source);
            visited := visited + {e.source};
            queue := queue + [e.source];
          }
        }
        forall w | (current, w) in edges ensures w in visited + {file} {
          InListPairs(adjIn, edgeSet, Some(Imports), current, w);
        }
        SweepSettle(edges, file, visited, queue, current);
      }
      SweepDone(edges, file, visited);
      r := SortedSet(visited);
    }

    /** A shortest path over edges of the kind, or None when there is no path. */
    method ShortestPath(source: Id, target: Id, kind: Option<EdgeKind>) returns (r: Option<seq<Id>>)
      requires Valid()
      ensures r.None? <==>
        source !in nodes || target !in nodes || !Reach(Onto(PairsOf(edgeSet, kind), nodes.Keys), source, target)
      ensures r.Some? ==> Shortest(Onto(PairsOf(edgeSet, kind), nodes.Keys), r.value, source, target)
    {
      hide LevelsWith, Levels, LevelsBut, Lists, Mirrored, Shortest, Reach, PairsOf;
      ghost var edges := Onto(PairsOf(edgeSet, kind), nodes.Keys);
      if source !in nodes || target !in nodes {
        return None;
      }
      if source == target {
        SelfShortest(edges, source);
        return Some([source]);
      }
      var visited, queue: seq<seq<Id>> := {source}, [[source]];
      ghost var level := 1;
      LevelsStart(edges, source);
      while queue != []
        invariant level >= 1 && visited <= nodes.Keys && target !in visited
        invariant Levels(edges, source, visited, queue, level)
        decreases nodes.Keys - visited, |queue|
      {
        LevelsNext(edges, source, visited, queue, level);
        LevelsHead(edges, source, visited, queue, level);
        var path := queue[0];
        var current := path[|path| - 1];
        level := |path|;
        ghost var visited0, queue0 := visited, queue;
        queue := queue[1..];
        var list := ListAt(adjOut, current);
        for i := 0 to |list|
          invariant visited0 <= visited <= nodes.Keys && target !in visited
          invariant visited == visited0 ==> |queue| < |queue0|
          invariant LevelsBut(edges, source, visited, queue, level, current)
          invariant forall k :: 0 <= k < i && Follows(list[k], kind) && list[k].target in nodes ==> list[k].target in visited
        {
          var e := list[i];
          if !Follows(e, kind) || e.target !in nodes {
            continue;
          }
          assert HasEdgeTo(list, kind, e.target);
          OutListPairs(adjOut, edgeSet, kind, current, e.target);
          if e.target == target {
            ExtendedIsShortest(edges, source, visited, queue, level, path, target);
            ShortestReaches(edges, path + [target], source, target);
            return Some(path + [target]);
          }
          if e.target !in visited {
            LevelsAdd(edges, source, visited, queue, level, path, e.target);
            visited := visited + {e.target};
            queue := queue + [path + [e.target]];
          }
        }
        forall w | (current, w) in edges ensures w in visited {
          OutListPairs(adjOut, edgeSet, kind, current, w);
        }
        LevelsSettle(edges, source, visited, queue, level, current);
      }
      LevelsDone(edges, source, visited, level, target);
      return None;
    }

    method CountAffected(dependents: set<Id>) returns (affected: nat)
      requires Valid()
      ensures affected == |DefinedBy(edgeSet, dependents)|
    {
      hide Lists, Mirrored, DefinedBy;
      affected := 0;
      var rest: set<Id> := dependents;
      ghost var done: set<Id> := {};
      NothingDefined(edgeSet);
      while rest != {}
        invariant done + rest == dependents && done !! rest
        invariant affected == |DefinedBy(edgeSet, done)|
        decreases |rest|
      {
        var dep :| dep in rest;
        rest := rest - {dep};
        CountDefinesExact(adjOut, dep, edgeSet);
        DefinedByOneMore(edgeSet, done, dep);
        affected := affected + CountDefines(ListAt(adjOut, dep));
        done := done + {dep};
      }
      assert done == dependents;
    }

    /** What changing `file` touches: its importers, everything that reaches it
        through imports, how many symbols those files define, and a rating. */
    method Impact(file: Id) returns (r: ImpactResult)
      requires Valid()
      ensures r.changed == file
      ensures StrictlySorted(r.direct) && Elements(r.direct) == Importers(ImportPairs(), file)
      ensures StrictlySorted(r.transitive)
      ensures Elements(r.transitive) == if file in nodes then Downstream(Reverse(ImportPairs()), file) else {}
      ensures r.affected == |DefinedBy(edgeSet, Elements(r.direct) + Elements(r.transitive))|
      ensures r.risk == RiskOf(|r.transitive|)
    {
      ImportersFromList(adjIn, edgeSet, file);
      hide *;
      var direct := SortedSet(ImportSources(ListAt(adjIn, file)));
      var transitive := TransitiveDependents(file);
      var affected := CountAffected(Elements(direct) + Elements(transitive));
      return ImpactResult(file, direct, transitive, affected, RiskOf(|transitive|));
    }

  }

  /** Pops the component stack down to and including v. */
  method PopComponent(v: Id, stack0: seq<Id>, onStack0: set<Id>)
    returns (scc: seq<Id>, stack: seq<Id>, onStack: set<Id>, ghost m: nat)
    requires v in stack0 && Distinct(stack0) && onStack0 == Elements(stack0)
    ensures m < |stack0| && stack0[m] == v
    ensures stack == stack0[..m] && onStack == Elements(stack)
    ensures Elements(scc) == Elements(stack0[m..]) && |scc| == |Elements(scc)| > 0
  {
    scc, stack, onStack := [], stack0, onStack0;
    while true
      invariant |stack| <= |stack0| && stack == stack0[..|stack|] && v in stack
      invariant onStack == Elements(stack)
      invariant Elements(scc) == Elements(stack0[|stack|..]) && |scc| == |Elements(scc)|
      decreases |stack|
    {
      var n := |stack| - 1;
      var w := stack[n];
      assert w !in stack0[|stack|..] && w !in stack[..n];
      assert stack0[n..] == [w] + stack0[|stack|..];
      assert stack == stack[..n] + [w];
      stack := stack[..n];
      onStack := onStack - {w};
      assert Elements(scc + [w]) == Elements(scc) + {w};
      scc := scc + [w];
      if w == v {
        m := n;
        break;
      }
    }
  }

  // ----- the independent traversals agree -----

  /** a is among what b depends on exactly when b is among a's dependents. */
  lemma DependencyDuality(imports: Edges, a: Id, b: Id)
    ensures a in Downstream(imports, b) <==> b in Downstream(Reverse(imports), a)
  {
    if a != b {
      ReverseReach(imports, b, a);
      HeadsOfReach(imports, b, a);
      HeadsOfReach(Reverse(imports), a, b);
    }
  }

  lemma HeadsOfReach(edges: Edges, a: Id, b: Id)
    requires a != b
    ensures Reach(edges, a, b) ==> b in Heads(edges)
  {
    if Reach(edges, a, b) {
      var p :| PathBetween(edges, p, a, b);
      assert (p[|p| - 2], p[|p| - 1]) in edges;
    }
  }

  lemma TailsOfReach(edges: Edges, a: Id, b: Id) returns (x: Id)
    requires a != b && Reach(edges, a, b)
    ensures (a, x) in edges
  {
    var p :| PathBetween(edges, p, a, b);
    assert (p[0], p[1]) in edges;
    x := p[1];
  }

  lemma FromOfReach(edges: Edges, a: Id, b: Id) returns (x: Id)
    requires a != b && Reach(edges, a, b)
    ensures (x, b) in edges
  {
    var p :| PathBetween(edges, p, a, b);
    assert (p[|p| - 2], p[|p| - 2 + 1]) in edges;
    x := p[|p| - 2];
  }

  /** No cycle of imports through a starting point leaves the nodes. */
  ghost predicate CyclesStayInside(imports: Edges, nodes: set<Id>, starts: set<Id>) {
    forall a, x :: a in starts && a != x && Mutual(imports, a, x) ==> x in nodes
  }

  ghost predicate GroupsAreMutual(imports: Edges, starts: set<Id>, sccs: seq<seq<Id>>) {
    forall a, b :: a in starts && a != b ==> (SameGroup(sccs, a, b) <==> Mutual(imports, a, b))
  }

  /** Between mutually dependent nodes there is a path over nodes only. */
  lemma InsidePath(imports: Edges, nodes: set<Id>, starts: set<Id>, f: Id, a: Id, b: Id)
    requires CyclesStayInside(imports, nodes, starts) && f in starts && starts <= nodes
    requires Mutual(imports, f, a) && Reach(imports, a, b) && Mutual(imports, f, b)
    ensures Reach(Onto(imports, nodes), a, b)
  {
    var p :| PathBetween(imports, p, a, b);
    hide Reach;
    forall i | 0 <= i < |p| ensures p[i] in nodes {
      PathMiddle(imports, p, a, b, i);
      ReachTransitive(imports, f, a, p[i]);
      ReachTransitive(imports, p[i], b, f);
      assert Mutual(imports, f, p[i]);
    }
    assert forall i :: 0 <= i < |p| - 1 ==> (p[i], p[i + 1]) in imports;
    PathReaches(Onto(imports, nodes), p, a, b);
  }

  lemma PathMiddle(edges: Edges, p: seq<Id>, a: Id, b: Id, i: nat)
    requires PathBetween(edges, p, a, b) && i < |p|
    ensures Reach(edges, a, p[i]) && Reach(edges, p[i], b)
  {
    assert PathBetween(edges, p[..i + 1], a, p[i]);
    assert PathBetween(edges, p[i..], p[i], b);
  }

  lemma PathReaches(edges: Edges, p: seq<Id>, a: Id, b: Id)
    requires PathBetween(edges, p, a, b)
    ensures Reach(edges, a, b)
  {
  }

  /** Sharing a circular import group always means depending on each other. The two are
      the same, for all files, exactly when no cycle of imports through a file leads over
      something that is not a node. */
  lemma CyclesAreMutualDependencies(imports: Edges, nodes: set<Id>, starts: set<Id>, sccs: seq<seq<Id>>)
    requires CycleGroups(Onto(imports, nodes), starts, sccs) && starts <= nodes
    ensures forall a, b :: a in starts && a != b && SameGroup(sccs, a, b) ==> Mutual(imports, a, b)
    ensures GroupsAreMutual(imports, starts, sccs) <==> CyclesStayInside(imports, nodes, starts)
  {
    hide SameGroup, Reach;
    var inner := Onto(imports, nodes);
    forall a, b | a in starts && a != b && SameGroup(sccs, a, b) ensures Mutual(imports, a, b) {
      ReachMonotone(inner, imports, a, b);
      ReachMonotone(inner, imports, b, a);
    }
    if CyclesStayInside(imports, nodes, starts) {
      forall a, b | a in starts && a != b && Mutual(imports, a, b) ensures SameGroup(sccs, a, b) {
        ReachSelf(imports, a);
        InsidePath(imports, nodes, starts, a, a, b);
        InsidePath(imports, nodes, starts, a, b, a);
        ReachSelf(inner, a);
        assert ReachedFrom(inner, starts, a);
      }
    }
    if GroupsAreMutual(imports, starts, sccs) {
      forall a, x | a in starts && a != x && Mutual(imports, a, x) ensures x in nodes {
        assert SameGroup(sccs, a, x);
        var y := FromOfReach(inner, a, x);
      }
    }
  }

  /** It is enough that nothing outside the nodes both is imported and imports. */
  lemma LeavesMayDangle(imports: Edges, nodes: set<Id>, starts: set<Id>)
    requires forall u, x, w :: (u, x) in imports && (x, w) in imports ==> x in nodes
    ensures CyclesStayInside(imports, nodes, starts)
  {
    hide Reach;
    forall a, x | a in starts && a != x && Mutual(imports, a, x) ensures x in nodes {
      var u := FromOfReach(imports, a, x);
      var w := TailsOfReach(imports, x, a);
    }
  }

  /** A cycle of imports over something that is not a node: "a" and "b" depend on each
      other over "x" but share no group. Edges added one by one may form it; `Build`
      never adds such an import. */
  lemma DanglingImportHidesCycle(sccs: seq<seq<Id>>)
    requires CycleGroups(Onto({("a", "x"), ("x", "b"), ("b", "a")}, {"a", "b"}), {"a", "b"}, sccs)
    ensures !SameGroup(sccs, "a", "b")
    ensures "a" in Downstream({("a", "x"), ("x", "b"), ("b", "a")}, "b")
    ensures "b" in Downstream({("a", "x"), ("x", "b"), ("b", "a")}, "a")
  {
    var imports: Edges := {("a", "x"), ("x", "b"), ("b", "a")};
    ReachEdge(imports, "a", "x");
    ReachEdge(imports, "x", "b");
    ReachTransitive(imports, "a", "x", "b");
    ReachEdge(imports, "b", "a");
    HeadsOfReach(imports, "a", "b");
    HeadsOfReach(imports, "b", "a");
    var inner := Onto(imports, {"a", "b"});
    assert inner == {("x", "b"), ("b", "a")};
    if Reach(inner, "a", "b") {
      ReachStaysInside(inner, {"a"}, "a", "b");
      assert false;
    }
  }

  // ----- building the graph from an index -----

  /** A symbol of a file, with the id of the symbol it is nested in. */
  datatype Symbol = Symbol(file: Id, id: Id, parent: Option<Id>)

  /** An import found in `source`, and what it was resolved to. */
  datatype Link = Link(source: Id, target: Option<Id>, names: string)

  /** The link leads to a node other than its own file. */
  predicate Resolved(link: Link, nodes: set<Id>) {
    link.target.Some? && link.target.value in nodes && link.target.value != link.source
  }

  ghost function ResolvedPairs(links: seq<Link>, nodes: set<Id>): Edges {
    set l | l in links && Resolved(l, nodes) :: (l.source, l.target.value)
  }

  lemma PairsWith(keys: set<Key>, k: Key)
    ensures PairsOf(keys + {k}, Some(Imports)) ==
      PairsOf(keys, Some(Imports)) + (if k.2 == Imports then {(k.0, k.1)} else {})
  {
    var pairs := PairsOf(keys + {k}, Some(Imports));
    forall e | e in PairsOf(keys, Some(Imports)) + (if k.2 == Imports then {(k.0, k.1)} else {}) ensures e in pairs {
      var key: Key := (e.0, e.1, Imports);
      assert key in keys + {k};
    }
  }

  lemma PairsNone()
    ensures PairsOf({}, Some(Imports)) == {}
  {
  }

  lemma ResolvedOneMore(links: seq<Link>, i: nat, nodes: set<Id>)
    requires i < |links|
    ensures ResolvedPairs(links[..i + 1], nodes) ==
      ResolvedPairs(links[..i], nodes) +
      (if Resolved(links[i], nodes) then {(links[i].source, links[i].target.value)} else {})
  {
    assert links[..i + 1] == links[..i] + [links[i]];
  }

  method AddFiles(g: Graph, files: seq<Id>)
    requires g.Valid() && g.nodes == map[] && g.edgeSet == {}
    modifies g
    ensures g.Valid() && g.edgeSet == {} && g.nodes.Keys == Elements(files) && g.Files() == Elements(files)
  {
    for i := 0 to |files|
      invariant g.Valid() && g.edgeSet == {} && g.nodes.Keys == Elements(files[..i])
      invariant forall id :: id in g.nodes ==> g.nodes[id].kind == FileNode
    {
      g.AddNode(Node(files[i], FileNode));
      assert files[..i + 1] == files[..i] + [files[i]];
    }
    assert files[..|files|] == files;
  }

  /** Symbol nodes with the edges that define and contain them. */
  method AddSymbols(g: Graph, symbols: seq<Symbol>)
    requires g.Valid() && g.ImportPairs() == {}
    modifies g
    ensures g.Valid() && g.ImportPairs() == {} && old(g.nodes.Keys) <= g.nodes.Keys
  {
    for i := 0 to |symbols|
      invariant g.Valid() && g.ImportPairs() == {} && old(g.nodes.Keys) <= g.nodes.Keys
    {
      var sym := symbols[i];
      g.AddNode(Node(sym.id, SymbolNode));
      PairsWith(g.edgeSet, (sym.file, sym.id, Defines));
      g.AddEdge(Edge(sym.file, sym.id, Defines, ""));
      if sym.parent.Some? && sym.parent.value in g.nodes {
        PairsWith(g.edgeSet, (sym.parent.value, sym.id, Contains));
        g.AddEdge(Edge(sym.parent.value, sym.id, Contains, ""));
      }
    }
  }

  /** Import edges, only to nodes and never to the file itself. */
  method AddImports(g: Graph, links: seq<Link>)
    requires g.Valid() && g.ImportPairs() == {}
    modifies g
    ensures g.Valid() && g.nodes == old(g.nodes) && g.order == old(g.order)
    ensures g.ImportPairs() == ResolvedPairs(links, g.nodes.Keys)
  {
    for i := 0 to |links|
      invariant g.Valid() && g.nodes == old(g.nodes) && g.order == old(g.order)
      invariant g.ImportPairs() == ResolvedPairs(links[..i], g.nodes.Keys)
    {
      var link := links[i];
      ResolvedOneMore(links, i, g.nodes.Keys);
      if link.target.Some? && link.target.value in g.nodes && link.target.value != link.source {
        PairsWith(g.edgeSet, (link.source, link.target.value, Imports));
        g.AddEdge(Edge(link.source, link.target.value, Imports, link.names));
      }
    }
    assert links[..|links|] == links;
  }

  /** The graph of an index: every import edge leads to a node, so circular import
      groups and mutual dependencies are the same. */
  method Build(files: seq<Id>, symbols: seq<Symbol>, links: seq<Link>) returns (g: Graph, sccs: seq<seq<Id>>)
    ensures fresh(g) && g.Valid() && Elements(files) <= g.nodes.Keys
    ensures g.ImportPairs() == ResolvedPairs(links, g.nodes.Keys) && Heads(g.ImportPairs()) <= g.nodes.Keys
    ensures CycleGroups(g.ImportPairs(), g.Files(), sccs) && GroupsAreMutual(g.ImportPairs(), g.Files(), sccs)
  {
    hide CycleGroups, GroupsAreMutual, ResolvedPairs;
    g := new Graph();
    PairsNone();
    AddFiles(g, files);
    AddSymbols(g, symbols);
    AddImports(g, links);
    sccs := g.DetectCycles();
    ResolvedLead(links, g.nodes.Keys);
    CyclesAreMutualDependencies(g.ImportPairs(), g.nodes.Keys, g.Files(), sccs);
  }

  lemma ResolvedLead(links: seq<Link>, nodes: set<Id>)
    ensures Heads(ResolvedPairs(links, nodes)) <= nodes
    ensures Onto(ResolvedPairs(links, nodes), nodes) == ResolvedPairs(links, nodes)
    ensures forall starts :: CyclesStayInside(ResolvedPairs(links, nodes), nodes, starts)
  {
    forall starts ensures CyclesStayInside(ResolvedPairs(links, nodes), nodes, starts) {
      LeavesMayDangle(ResolvedPairs(links, nodes), nodes, starts);
    }
  }
}
