/** The state of the iterative Tarjan search, the moves one turn of its work
    loop can make, and the facts every move keeps. `edges` is the graph
    searched. */
module Tarjan {
  import opened Collections
  import opened Reachability

  type Id = string
  type Edges = set<(Id, Id)>
  type Relation = iset<(Id, Id)>

  /** One entry of the work stack: node, index of the next neighbour, neighbours. */
  datatype Frame = Frame(node: Id, next: nat, targets: seq<Id>)

  /** `looked` records the edges the search has stepped over; it is bookkeeping
      for the proof only. */
  datatype State = State(
    counter: nat,
    index: map<Id, nat>,
    low: map<Id, nat>,
    onStack: set<Id>,
    stack: seq<Id>,
    work: seq<Frame>,
    looked: Edges)

  function Top(s: State): Frame
    requires |s.work| > 0
  {
    s.work[|s.work| - 1]
  }

  function Push(s: State, w: Id, targets: seq<Id>): State {
    s.(counter := s.counter + 1,
       index := s.index[w := s.counter],
       low := s.low[w := s.counter],
       onStack := s.onStack + {w},
       stack := s.stack + [w],
       work := s.work + [Frame(w, 0, targets)])
  }

  /** Steps the top frame past its next neighbour. */
  function Advance(s: State): State
    requires |s.work| > 0 && Top(s).next < |Top(s).targets|
  {
    var top := Top(s);
    s.(work := s.work[|s.work| - 1 := top.(next := top.next + 1)],
       looked := s.looked + {(top.node, top.targets[top.next])})
  }

  function Lower(s: State, v: Id, bound: nat): State
    requires v in s.low
  {
    s.(low := s.low[v := Min(s.low[v], bound)])
  }

  /** Drops the top frame and hands its lowlink to the frame below. */
  function PopFrame(s: State): State
    requires |s.work| > 0 && forall i :: 0 <= i < |s.work| ==> s.work[i].node in s.low
  {
    var rest := s.(work := s.work[..|s.work| - 1]);
    if |rest.work| == 0 then rest else Lower(rest, Top(rest).node, s.low[Top(s).node])
  }

  /** Takes everything from position `keep` on off the component stack. */
  function CutStack(s: State, keep: nat): State
    requires keep <= |s.stack|
  {
    s.(stack := s.stack[..keep], onStack := Elements(s.stack[..keep]))
  }

  // ----- what every move keeps -----

  ghost predicate TargetsOf(edges: Edges, x: Id, targets: seq<Id>) {
    forall w :: w in targets <==> (x, w) in edges
  }

  ghost predicate Shape(s: State) {
    && s.low.Keys == s.index.Keys
    && (forall x :: x in s.index ==> s.index[x] < s.counter)
    && Elements(s.stack) == s.onStack
    && s.onStack <= s.index.Keys
    && (forall i :: 0 <= i < |s.stack| ==> s.stack[i] in s.onStack)
    && (forall i, j :: 0 <= i < j < |s.stack| ==> s.index[s.stack[i]] < s.index[s.stack[j]])
    && (forall i :: 0 <= i < |s.work| ==> s.work[i].node in s.onStack)
    && (forall i, j :: 0 <= i < j < |s.work| ==> s.index[s.work[i].node] < s.index[s.work[j].node])
  }

  /** Every frame carries exactly the neighbours of its node. */
  ghost predicate Neighbours(edges: Edges, s: State) {
    forall i :: 0 <= i < |s.work| ==>
      s.work[i].next <= |s.work[i].targets| && TargetsOf(edges, s.work[i].node, s.work[i].targets)
  }

  ghost predicate HasFrame(s: State, x: Id) {
    exists i :: 0 <= i < |s.work| && s.work[i].node == x
  }

  /** Finished nodes have no edge out of the finished part; edges looked at
      lead to discovered nodes (or to the one in `coming`, about to be); a
      stacked node without a frame has had all its edges looked at. */
  ghost predicate Frontier(edges: Edges, s: State, coming: set<Id>)
    requires Shape(s) && Neighbours(edges, s)
  {
    && (forall x, w :: (x, w) in edges && x in s.index && x !in s.onStack ==> w in s.index && w !in s.onStack)
    && (forall x, w :: (x, w) in s.looked ==> (x, w) in edges && x in s.index && (w in s.index || w in coming))
    && (forall x, w :: (x, w) in edges && x in s.onStack && !HasFrame(s, x) ==> (x, w) in s.looked)
    && (forall i, k :: 0 <= i < |s.work| && 0 <= k < s.work[i].next
          ==> (s.work[i].node, s.work[i].targets[k]) in s.looked)
  }

  ghost predicate ReachesFrame(reach: Relation, s: State, x: Id)
    requires Shape(s) && x in s.index
  {
    exists i :: 0 <= i < |s.work| && s.index[s.work[i].node] <= s.index[x] && (x, s.work[i].node) in reach
  }

  /** Every frame reaches all that was stacked after it. */
  ghost predicate ReachesOn(reach: Relation, s: State)
    requires Shape(s)
  {
    forall i, x :: 0 <= i < |s.work| && x in s.onStack && s.index[s.work[i].node] <= s.index[x]
      ==> (s.work[i].node, x) in reach
  }

  /** Everything on the stack reaches back to a frame no younger than itself. */
  ghost predicate ReachesBack(reach: Relation, s: State)
    requires Shape(s)
  {
    forall x {:trigger ReachesFrame(reach, s, x)} :: x in s.onStack ==> ReachesFrame(reach, s, x)
  }

  /** x was stacked while frame i was the youngest of those still open. */
  ghost predicate InSegment(s: State, i: nat, x: Id)
    requires Shape(s) && i < |s.work| && x in s.index
  {
    && s.index[s.work[i].node] <= s.index[x]
    && (i + 1 < |s.work| ==> s.index[x] < s.index[s.work[i + 1].node])
  }

  ghost predicate LowWitness(reach: Relation, s: State, v: Id)
    requires Shape(s) && v in s.index
  {
    && s.low[v] <= s.index[v]
    && exists y :: y in s.onStack && s.index[y] == s.low[v] && (v, y) in reach
  }

  /** A frame's lowlink is the index of a stacked node it reaches. */
  ghost predicate LowSound(reach: Relation, s: State)
    requires Shape(s)
  {
    forall i :: 0 <= i < |s.work| ==> LowWitness(reach, s, s.work[i].node)
  }

  /** No edge looked at from a frame's segment goes to a stacked node whose
      index is below the frame's lowlink. */
  ghost predicate LowComplete(s: State)
    requires Shape(s)
  {
    forall i, x, w :: 0 <= i < |s.work| && (x, w) in s.looked && x in s.onStack && w in s.onStack
                      && InSegment(s, i, x)
      ==> s.low[s.work[i].node] <= s.index[w]
  }

  ghost predicate InvWith(edges: Edges, reach: Relation, s: State, coming: set<Id>) {
    && Shape(s) && Neighbours(edges, s) && Frontier(edges, s, coming)
    && ReachesOn(reach, s) && ReachesBack(reach, s)
    && LowSound(reach, s) && LowComplete(s)
  }

  ghost predicate Inv(edges: Edges, reach: Relation, s: State) {
    InvWith(edges, reach, s, {})
  }

  // ----- pushing a newly discovered node -----

  lemma PushShape(s: State, w: Id, targets: seq<Id>)
    requires Shape(s) && w !in s.index
    ensures Shape(Push(s, w, targets))
  {
  }

  lemma PushFrontier(edges: Edges, s: State, w: Id, targets: seq<Id>)
    requires Shape(s) && Neighbours(edges, s) && Frontier(edges, s, {w}) && w !in s.index && TargetsOf(edges, w, targets)
    ensures Shape(Push(s, w, targets)) && Neighbours(edges, Push(s, w, targets))
    ensures Frontier(edges, Push(s, w, targets), {})
  {
    PushShape(s, w, targets);
    var t := Push(s, w, targets);
    assert t.work[|s.work|].node == w;
    forall x | HasFrame(s, x) ensures HasFrame(t, x) {
      var i :| 0 <= i < |s.work| && s.work[i].node == x;
      assert t.work[i].node == x;
    }
    assert HasFrame(t, w);
  }

  lemma PushReaches(reach: Relation, s: State, w: Id, targets: seq<Id>)
    requires Shape(s) && ReachesOn(reach, s) && w !in s.index
    requires (w, w) in reach && forall i :: 0 <= i < |s.work| ==> (s.work[i].node, w) in reach
    ensures Shape(Push(s, w, targets)) && ReachesOn(reach, Push(s, w, targets))
  {
    PushShape(s, w, targets);
    var t := Push(s, w, targets);
    forall i, x | 0 <= i < |t.work| && x in t.onStack && t.index[t.work[i].node] <= t.index[x]
      ensures (t.work[i].node, x) in reach
    {
      assert t.work[i].node == if i < |s.work| then s.work[i].node else w;
    }
  }

  lemma BackToFrame(reach: Relation, s: State, x: Id) returns (i: nat)
    requires Shape(s) && ReachesBack(reach, s) && x in s.onStack
    ensures i < |s.work| && s.index[s.work[i].node] <= s.index[x] && (x, s.work[i].node) in reach
  {
    assert ReachesFrame(reach, s, x);
    i :| 0 <= i < |s.work| && s.index[s.work[i].node] <= s.index[x] && (x, s.work[i].node) in reach;
  }

  lemma FrameReached(reach: Relation, s: State, x: Id, i: nat)
    requires Shape(s) && x in s.index && i < |s.work|
    requires s.index[s.work[i].node] <= s.index[x] && (x, s.work[i].node) in reach
    ensures ReachesFrame(reach, s, x)
  {
  }

  lemma PushReachesBack(reach: Relation, s: State, w: Id, targets: seq<Id>)
    requires Shape(s) && ReachesBack(reach, s) && w !in s.index && (w, w) in reach
    ensures Shape(Push(s, w, targets)) && ReachesBack(reach, Push(s, w, targets))
  {
    hide ReachesFrame;
    PushShape(s, w, targets);
    var t := Push(s, w, targets);
    forall x | x in t.onStack
      ensures ReachesFrame(reach, t, x)
    {
      if x == w {
        FrameReached(reach, t, x, |s.work|);
      } else {
        var i := BackToFrame(reach, s, x);
        FrameReached(reach, t, x, i);
      }
    }
  }

  lemma PushSound(reach: Relation, s: State, w: Id, targets: seq<Id>)
    requires Shape(s) && LowSound(reach, s) && w !in s.index && (w, w) in reach
    ensures Shape(Push(s, w, targets)) && LowSound(reach, Push(s, w, targets))
  {
    PushShape(s, w, targets);
    var t := Push(s, w, targets);
    forall i | 0 <= i < |t.work|
      ensures LowWitness(reach, t, t.work[i].node)
    {
      if i < |s.work| {
        var v := s.work[i].node;
        assert LowWitness(reach, s, v);
        var y :| y in s.onStack && s.index[y] == s.low[v] && (v, y) in reach;
        assert y in t.onStack && t.index[y] == t.low[v];
      }
    }
  }

  lemma PushComplete(reach: Relation, s: State, w: Id, targets: seq<Id>)
    requires Shape(s) && LowSound(reach, s) && LowComplete(s)
    requires w !in s.index && forall x, y :: (x, y) in s.looked ==> x in s.index
    ensures Shape(Push(s, w, targets)) && LowComplete(Push(s, w, targets))
  {
    PushShape(s, w, targets);
    var t := Push(s, w, targets);
    forall i, x, y | 0 <= i < |t.work| && (x, y) in t.looked && x in t.onStack && y in t.onStack
                     && InSegment(t, i, x)
      ensures t.low[t.work[i].node] <= t.index[y]
    {
      if i < |s.work| {
        assert InSegment(s, i, x);
        assert LowWitness(reach, s, s.work[i].node);
      }
    }
  }

  /** A node the open frames reach may be pushed. */
  lemma PushKeeps(edges: Edges, reach: Relation, s: State, w: Id, targets: seq<Id>)
    requires InvWith(edges, reach, s, {w}) && w !in s.index && TargetsOf(edges, w, targets)
    requires (w, w) in reach && forall i :: 0 <= i < |s.work| ==> (s.work[i].node, w) in reach
    ensures Inv(edges, reach, Push(s, w, targets))
  {
    PushFrontier(edges, s, w, targets);
    PushReaches(reach, s, w, targets);
    PushReachesBack(reach, s, w, targets);
    PushSound(reach, s, w, targets);
    PushComplete(reach, s, w, targets);
  }

  // ----- stepping over an edge -----

  /** The state after the top frame has stepped over an edge to `w`: a stacked
      `w` lowers the frame's lowlink, any other discovered `w` changes nothing. */
  function StepOver(s: State): State
    requires |s.work| > 0 && Top(s).next < |Top(s).targets| && Top(s).node in s.low
  {
    var w := Top(s).targets[Top(s).next];
    var t := Advance(s);
    if w in s.onStack && w in s.index then Lower(t, Top(s).node, s.index[w]) else t
  }

  /** The two states have the same nodes on their frames. */
  ghost predicate SameFrames(s: State, t: State) {
    |s.work| == |t.work| && forall i :: 0 <= i < |s.work| ==> s.work[i].node == t.work[i].node
  }

  lemma AdvanceShape(edges: Edges, s: State)
    requires Shape(s) && Neighbours(edges, s) && |s.work| > 0 && Top(s).next < |Top(s).targets|
    ensures Shape(Advance(s)) && Neighbours(edges, Advance(s)) && SameFrames(s, Advance(s))
    ensures (Top(s).node, Top(s).targets[Top(s).next]) in edges
  {
    assert Top(s).targets[Top(s).next] in Top(s).targets;
  }

  lemma AdvanceIs(edges: Edges, s: State)
    requires Shape(s) && Neighbours(edges, s) && |s.work| > 0 && Top(s).next < |Top(s).targets|
    ensures var t, last := Advance(s), |s.work| - 1;
      && t.index == s.index && t.onStack == s.onStack
      && t.looked == s.looked + {(Top(s).node, Top(s).targets[Top(s).next])}
      && |t.work| == |s.work| && t.work[..last] == s.work[..last]
      && t.work[last] == s.work[last].(next := s.work[last].next + 1)
    ensures Top(s).node in s.index && Top(s) == s.work[|s.work| - 1]
    ensures forall i :: 0 <= i < |s.work| ==> s.work[i].next <= |s.work[i].targets|
  {
  }

  lemma AdvanceHasFrames(s: State, t: State)
    requires SameFrames(s, t)
    ensures forall x :: HasFrame(s, x) ==> HasFrame(t, x)
  {
    forall x | HasFrame(s, x) ensures HasFrame(t, x) {
      var i :| 0 <= i < |s.work| && s.work[i].node == x;
      assert t.work[i].node == x;
    }
  }

  /** What a frame has stepped past has been looked at. */
  lemma AdvanceLooked(s: State, t: State)
    requires |t.work| == |s.work| > 0 && t.work[..|s.work| - 1] == s.work[..|s.work| - 1]
    requires var last, after := s.work[|s.work| - 1], t.work[|s.work| - 1];
      && last.next < |last.targets| && after == last.(next := last.next + 1)
      && t.looked == s.looked + {(last.node, last.targets[last.next])}
    requires forall i :: 0 <= i < |s.work| ==> s.work[i].next <= |s.work[i].targets|
    requires forall i, k :: 0 <= i < |s.work| && 0 <= k < s.work[i].next ==>
               (s.work[i].node, s.work[i].targets[k]) in s.looked
    ensures forall i, k :: 0 <= i < |t.work| && 0 <= k < t.work[i].next && k < |t.work[i].targets| ==>
               (t.work[i].node, t.work[i].targets[k]) in t.looked
  {
    forall i, k | 0 <= i < |t.work| && 0 <= k < t.work[i].next && k < |t.work[i].targets|
      ensures (t.work[i].node, t.work[i].targets[k]) in t.looked
    {
      if i < |s.work| - 1 {
        assert t.work[i] == t.work[..|s.work| - 1][i] == s.work[i];
      }
    }
  }

  lemma AdvanceFrontier(edges: Edges, s: State, coming: set<Id>)
    requires Shape(s) && Neighbours(edges, s) && Frontier(edges, s, {}) && |s.work| > 0
    requires Top(s).next < |Top(s).targets|
    requires Top(s).targets[Top(s).next] in s.index.Keys + coming
    ensures Shape(Advance(s)) && Neighbours(edges, Advance(s)) && Frontier(edges, Advance(s), coming)
  {
    hide TargetsOf, Shape, Neighbours, Advance;
    AdvanceShape(edges, s);
    AdvanceIs(edges, s);
    var t := Advance(s);
    AdvanceHasFrames(s, t);
    hide HasFrame;
    AdvanceLooked(s, t);
  }

  lemma SameFramesReach(reach: Relation, s: State, t: State)
    requires Shape(s) && Shape(t) && ReachesOn(reach, s) && ReachesBack(reach, s) && SameFrames(s, t)
    requires s.index == t.index && s.onStack == t.onStack
    ensures ReachesOn(reach, t) && ReachesBack(reach, t)
  {
    hide ReachesFrame;
    forall i, x | 0 <= i < |t.work| && x in t.onStack && t.index[t.work[i].node] <= t.index[x]
      ensures (t.work[i].node, x) in reach
    {
      assert t.work[i].node == s.work[i].node;
    }
    forall x | x in t.onStack
      ensures ReachesFrame(reach, t, x)
    {
      var i := BackToFrame(reach, s, x);
      FrameReached(reach, t, x, i);
    }
  }

  lemma StepOverSound(edges: Edges, reach: Relation, s: State)
    requires Shape(s) && Neighbours(edges, s) && LowSound(reach, s) && |s.work| > 0
    requires Top(s).next < |Top(s).targets|
    requires (Top(s).node, Top(s).targets[Top(s).next]) in reach
    ensures Shape(StepOver(s)) && LowSound(reach, StepOver(s))
  {
    hide TargetsOf;
    AdvanceShape(edges, s);
    var t := StepOver(s);
    var w := Top(s).targets[Top(s).next];
    forall i | 0 <= i < |t.work|
      ensures LowWitness(reach, t, t.work[i].node)
    {
      var u := s.work[i].node;
      assert t.work[i].node == u;
      assert LowWitness(reach, s, u);
      var y :| y in s.onStack && s.index[y] == s.low[u] && (u, y) in reach;
      assert (if t.low[u] == s.low[u] then y else w) in t.onStack;
    }
  }

  /** Only the last segment holds the node of the top frame. */
  lemma TopSegment(s: State, i: nat)
    requires Shape(s) && i < |s.work| && InSegment(s, i, Top(s).node)
    ensures i == |s.work| - 1
  {
  }

  lemma SameFramesSegment(s: State, t: State, i: nat, x: Id)
    requires Shape(s) && Shape(t) && SameFrames(s, t) && s.index == t.index
    requires i < |t.work| && x in t.index && InSegment(t, i, x)
    ensures InSegment(s, i, x)
  {
  }

  lemma StepOverBound(s: State, i: nat, x: Id, y: Id)
    requires Shape(s) && |s.work| > 0 && Top(s).next < |Top(s).targets| && i < |s.work|
    requires x in s.onStack && y in s.onStack && InSegment(s, i, x) && (x, y) in StepOver(s).looked
    requires (x, y) in s.looked ==> s.low[s.work[i].node] <= s.index[y]
    ensures StepOver(s).low[s.work[i].node] <= s.index[y]
  {
    if (x, y) !in s.looked {
      TopSegment(s, i);
    }
  }

  lemma StepOverComplete(edges: Edges, s: State)
    requires Shape(s) && Neighbours(edges, s) && LowComplete(s) && |s.work| > 0
    requires Top(s).next < |Top(s).targets|
    ensures Shape(StepOver(s)) && LowComplete(StepOver(s))
  {
    AdvanceShape(edges, s);
    var t := StepOver(s);
    assert SameFrames(s, t) && Shape(t) && t.index == s.index && t.onStack == s.onStack;
    forall i, x, y | 0 <= i < |t.work| && (x, y) in t.looked && x in t.onStack && y in t.onStack
                     && InSegment(t, i, x)
      ensures t.low[t.work[i].node] <= t.index[y]
    {
      SameFramesSegment(s, t, i, x);
      StepOverBound(s, i, x, y);
    }
  }

  /** Stepping over an edge to a node already discovered. */
  lemma StepOverKeeps(edges: Edges, reach: Relation, s: State)
    requires Inv(edges, reach, s) && |s.work| > 0 && Top(s).next < |Top(s).targets|
    requires Top(s).targets[Top(s).next] in s.index
    requires (Top(s).node, Top(s).targets[Top(s).next]) in reach
    ensures Inv(edges, reach, StepOver(s))
  {
    hide ReachesOn, ReachesBack, LowSound, LowComplete, TargetsOf;
    AdvanceShape(edges, s);
    AdvanceFrontier(edges, s, {});
    var t := StepOver(s);
    SameFramesReach(reach, s, t);
    StepOverSound(edges, reach, s);
    StepOverComplete(edges, s);
    assert forall x :: HasFrame(Advance(s), x) <==> HasFrame(t, x);
  }

  /** Stepping over an edge to an undiscovered node leaves only that node owing. */
  lemma AdvanceKeeps(edges: Edges, reach: Relation, s: State, w: Id)
    requires Inv(edges, reach, s) && |s.work| > 0 && Top(s).next < |Top(s).targets|
    requires w == Top(s).targets[Top(s).next] && w !in s.index && (Top(s).node, w) in reach
    ensures InvWith(edges, reach, Advance(s), {w})
  {
    hide ReachesOn, ReachesBack, LowSound, LowComplete, TargetsOf;
    AdvanceShape(edges, s);
    AdvanceFrontier(edges, s, {w});
    SameFramesReach(reach, s, Advance(s));
    StepOverSound(edges, reach, s);
    StepOverComplete(edges, s);
    assert StepOver(s) == Advance(s);
  }

  // ----- leaving a node -----

  lemma PopShape(edges: Edges, s: State)
    requires Shape(s) && Neighbours(edges, s) && |s.work| > 0
    ensures Shape(PopFrame(s)) && Neighbours(edges, PopFrame(s))
  {
    hide TargetsOf;
  }

  lemma PopFrontier(edges: Edges, s: State)
    requires Shape(s) && Neighbours(edges, s) && Frontier(edges, s, {}) && |s.work| > 0
    requires Top(s).next == |Top(s).targets|
    ensures Shape(PopFrame(s)) && Neighbours(edges, PopFrame(s)) && Frontier(edges, PopFrame(s), {})
  {
    PopShape(edges, s);
    var t := PopFrame(s);
    var v := Top(s).node;
    forall x | HasFrame(s, x) && x != v
      ensures HasFrame(t, x)
    {
      var i :| 0 <= i < |s.work| && s.work[i].node == x;
      assert t.work[i].node == x;
    }
    forall w | (v, w) in edges
      ensures (v, w) in s.looked
    {
      assert w in Top(s).targets;
    }
  }

  /** A node that is not the root of its component reaches an older frame. */
  lemma OlderFrame(reach: Relation, s: State) returns (y: Id, g: nat)
    requires Shape(s) && ReachesBack(reach, s) && LowSound(reach, s) && |s.work| > 0
    requires s.low[Top(s).node] < s.index[Top(s).node]
    ensures g < |s.work| - 1
    ensures (Top(s).node, y) in reach && (y, s.work[g].node) in reach
  {
    var v := Top(s).node;
    assert LowWitness(reach, s, v);
    y :| y in s.onStack && s.index[y] == s.low[v] && (v, y) in reach;
    assert ReachesFrame(reach, s, y);
    g :| 0 <= g < |s.work| && s.index[s.work[g].node] <= s.index[y] && (y, s.work[g].node) in reach;
  }

  lemma PopReachesOn(edges: Edges, reach: Relation, s: State)
    requires Shape(s) && Neighbours(edges, s) && ReachesOn(reach, s) && |s.work| > 0
    ensures Shape(PopFrame(s)) && ReachesOn(reach, PopFrame(s))
  {
    hide Neighbours;
    PopShape(edges, s);
  }

  lemma PopReachesBack(edges: Edges, reach: Relation, s: State, g: nat)
    requires Shape(s) && Neighbours(edges, s) && ReachesBack(reach, s) && g < |s.work| - 1
    requires forall x :: x in s.onStack && (x, Top(s).node) in reach ==> (x, s.work[g].node) in reach
    ensures Shape(PopFrame(s)) && ReachesBack(reach, PopFrame(s))
  {
    hide Neighbours, ReachesFrame;
    PopShape(edges, s);
    var t := PopFrame(s);
    forall x | x in t.onStack
      ensures ReachesFrame(reach, t, x)
    {
      var i := BackToFrame(reach, s, x);
      FrameReached(reach, t, x, if i < |s.work| - 1 then i else g);
    }
  }

  lemma PopSound(edges: Edges, reach: Relation, s: State, y: Id)
    requires Shape(s) && Neighbours(edges, s) && LowSound(reach, s) && |s.work| > 1
    requires y in s.onStack && s.index[y] == s.low[Top(s).node] && (s.work[|s.work| - 2].node, y) in reach
    ensures Shape(PopFrame(s)) && LowSound(reach, PopFrame(s))
  {
    PopShape(edges, s);
    var t := PopFrame(s);
    forall i | 0 <= i < |t.work|
      ensures LowWitness(reach, t, t.work[i].node)
    {
      var u := s.work[i].node;
      assert LowWitness(reach, s, u);
      var yu :| yu in s.onStack && s.index[yu] == s.low[u] && (u, yu) in reach;
      assert (if t.low[u] == s.low[u] then yu else y) in t.onStack;
    }
  }

  /** What was in the popped frame's segment is now in its parent's. */
  lemma PopSegment(s: State, t: State, i: nat, x: Id)
    requires Shape(s) && Shape(t) && |s.work| > 0 && t.work == s.work[..|s.work| - 1] && s.index == t.index
    requires i < |t.work| && x in t.index && InSegment(t, i, x)
    ensures InSegment(s, i, x) || (i == |s.work| - 2 && InSegment(s, i + 1, x))
  {
  }

  lemma PopFrameIs(s: State)
    requires Shape(s) && |s.work| > 0
    ensures Shape(PopFrame(s)) && forall i :: 0 <= i < |s.work| ==> s.work[i].node in s.index && s.work[i].node in s.low
    ensures var t := PopFrame(s);
      && t.work == s.work[..|s.work| - 1] && t.index == s.index && t.onStack == s.onStack && t.stack == s.stack
      && t.looked == s.looked && t.low.Keys == t.index.Keys && t.onStack <= t.index.Keys
  {
  }

  /** A frame below keeps its lowlink, or lowers it to that of the frame left. */
  lemma PopLow(s: State, i: nat)
    requires Shape(s) && i + 1 < |s.work| && Shape(PopFrame(s)) && s.work[i].node in PopFrame(s).low
    requires s.work[i].node in s.low && s.work[i + 1].node in s.low
    ensures PopFrame(s).low[s.work[i].node] <= s.low[s.work[i].node]
    ensures i == |s.work| - 2 ==> PopFrame(s).low[s.work[i].node] <= s.low[s.work[i + 1].node]
  {
  }

  lemma PopComplete(edges: Edges, s: State)
    requires Shape(s) && Neighbours(edges, s) && LowComplete(s) && |s.work| > 0
    ensures Shape(PopFrame(s)) && LowComplete(PopFrame(s))
  {
    hide Neighbours, InSegment, PopFrame, Shape;
    PopShape(edges, s);
    PopFrameIs(s);
    var t := PopFrame(s);
    forall i, x, y | 0 <= i < |t.work| && (x, y) in t.looked && x in t.onStack && y in t.onStack
                     && InSegment(t, i, x)
      ensures t.low[t.work[i].node] <= t.index[y]
    {
      PopSegment(s, t, i, x);
      PopLow(s, i);
    }
  }

  ghost predicate Transitive(reach: Relation) {
    forall a, b, c :: (a, b) in reach && (b, c) in reach ==> (a, c) in reach
  }

  lemma Chain(reach: Relation, a: Id, b: Id, c: Id)
    requires Transitive(reach) && (a, b) in reach && (b, c) in reach
    ensures (a, c) in reach
  {
  }

  lemma ParentReaches(reach: Relation, s: State)
    requires Shape(s) && ReachesOn(reach, s) && |s.work| > 1
    ensures (s.work[|s.work| - 2].node, Top(s).node) in reach
  {
  }

  /** Leaving a node that is not the root of its component. */
  lemma PopKeeps(edges: Edges, reach: Relation, s: State)
    requires Inv(edges, reach, s) && |s.work| > 0 && Top(s).next == |Top(s).targets|
    requires s.low[Top(s).node] < s.index[Top(s).node] && Transitive(reach)
    ensures Inv(edges, reach, PopFrame(s))
  {
    hide Frontier, Neighbours, ReachesOn, ReachesBack, LowComplete;
    PopFrontier(edges, s);
    var y, g := OlderFrame(reach, s);
    PopReachesOn(edges, reach, s);
    PopReachesBack(edges, reach, s, g);
    assert LowWitness(reach, s, Top(s).node);
    var yv :| yv in s.onStack && s.index[yv] == s.low[Top(s).node] && (Top(s).node, yv) in reach;
    ParentReaches(reach, s);
    Chain(reach, s.work[|s.work| - 2].node, Top(s).node, yv);
    PopSound(edges, reach, s, yv);
    PopComplete(edges, s);
  }

  // ----- closing a component -----

  /** The top frame is finished and its node is the root of its component,
      which starts at position m of the component stack. */
  ghost predicate AtRoot(edges: Edges, reach: Relation, s: State, m: nat) {
    && Inv(edges, reach, s) && |s.work| > 0 && Top(s).next == |Top(s).targets|
    && s.low[Top(s).node] == s.index[Top(s).node]
    && m < |s.stack| && s.stack[m] == Top(s).node
  }

  function Component(s: State, m: nat): set<Id>
    requires m <= |s.stack|
  {
    Elements(s.stack[m..])
  }

  function Close(s: State, m: nat): State
    requires m <= |s.stack| && |s.work| > 0 && forall i :: 0 <= i < |s.work| ==> s.work[i].node in s.low
  {
    CutStack(PopFrame(s), m)
  }

  lemma CutByIndex(s: State, m: nat, x: Id)
    requires Shape(s) && m < |s.stack|
    ensures x in Component(s, m) <==> x in s.onStack && s.index[s.stack[m]] <= s.index[x]
    ensures x in Elements(s.stack[..m]) <==> x in s.onStack && s.index[x] < s.index[s.stack[m]]
  {
    if x in s.onStack {
      var k :| 0 <= k < |s.stack| && s.stack[k] == x;
      if k >= m {
        assert s.stack[m..][k - m] == x;
      } else {
        assert s.stack[..m][k] == x;
      }
    }
  }

  lemma OnlyTopFrame(s: State, m: nat, x: Id)
    requires Shape(s) && |s.work| > 0 && m < |s.stack| && s.stack[m] == Top(s).node && x in Component(s, m)
    ensures HasFrame(s, x) ==> x == Top(s).node
  {
    CutByIndex(s, m, x);
    assert forall i :: 0 <= i < |s.work| - 1 ==> s.index[s.work[i].node] < s.index[Top(s).node];
  }

  lemma ComponentEdges(edges: Edges, s: State, m: nat, x: Id, w: Id)
    requires Shape(s) && Neighbours(edges, s) && Frontier(edges, s, {}) && LowComplete(s)
    requires |s.work| > 0 && Top(s).next == |Top(s).targets|
    requires s.low[Top(s).node] == s.index[Top(s).node]
    requires m < |s.stack| && s.stack[m] == Top(s).node
    requires x in Component(s, m) && (x, w) in edges
    ensures w in s.index && (w in s.onStack ==> w in Component(s, m))
  {
    CutByIndex(s, m, x);
    CutByIndex(s, m, w);
    var n := |s.work| - 1;
    assert (x, w) in s.looked by {
      if x == Top(s).node {
        assert w in Top(s).targets;
      } else {
        OnlyTopFrame(s, m, x);
      }
    }
    assert InSegment(s, n, x);
  }

  /** Finished nodes, with or without the component at the top, have no way out. */
  lemma ComponentClosed(edges: Edges, reach: Relation, s: State, m: nat)
    requires AtRoot(edges, reach, s, m)
    ensures ClosedUnder(edges, s.index.Keys - s.onStack)
    ensures ClosedUnder(edges, s.index.Keys - s.onStack + Component(s, m))
  {
    var inside := s.index.Keys - s.onStack + Component(s, m);
    forall x, w | x in inside && (x, w) in edges
      ensures w in inside
    {
      if x in Component(s, m) {
        ComponentEdges(edges, s, m, x, w);
      }
    }
  }

  ghost predicate StaysInside(edges: Edges, reach: Relation) {
    forall inside: set<Id>, a, b :: ClosedUnder(edges, inside) && a in inside && (a, b) in reach ==> b in inside
  }

  lemma Inside(edges: Edges, reach: Relation, inside: set<Id>, a: Id, b: Id)
    requires StaysInside(edges, reach) && ClosedUnder(edges, inside) && a in inside && (a, b) in reach
    ensures b in inside
  {
  }

  lemma OldestFrame(reach: Relation, s: State, m: nat, x: Id, outside: set<Id>)
    requires Shape(s) && ReachesBack(reach, s) && |s.work| > 0 && m < |s.stack| && s.stack[m] == Top(s).node
    requires x in s.onStack && outside !! s.onStack
    requires forall y :: (x, y) in reach ==> y in outside + Component(s, m)
    ensures (x, Top(s).node) in reach
  {
    assert ReachesFrame(reach, s, x);
    var i :| 0 <= i < |s.work| && s.index[s.work[i].node] <= s.index[x] && (x, s.work[i].node) in reach;
    CutByIndex(s, m, s.work[i].node);
  }

  /** Everything in the component reaches its root. */
  lemma ComponentReachesRoot(edges: Edges, reach: Relation, s: State, m: nat, x: Id)
    requires AtRoot(edges, reach, s, m) && StaysInside(edges, reach) && x in Component(s, m)
    ensures (x, Top(s).node) in reach && (Top(s).node, x) in reach
  {
    ComponentClosed(edges, reach, s, m);
    CutByIndex(s, m, x);
    var inside := s.index.Keys - s.onStack + Component(s, m);
    forall y | (x, y) in reach ensures y in inside {
      Inside(edges, reach, inside, x, y);
    }
    OldestFrame(reach, s, m, x, s.index.Keys - s.onStack);
  }

  /** The component is the strongly connected component of each of its nodes. */
  lemma ComponentIsExact(edges: Edges, reach: Relation, s: State, m: nat, x: Id, y: Id)
    requires AtRoot(edges, reach, s, m) && StaysInside(edges, reach) && Transitive(reach)
    requires x in Component(s, m)
    ensures y in Component(s, m) <==> (x, y) in reach && (y, x) in reach
  {
    ComponentReachesRoot(edges, reach, s, m, x);
    if y in Component(s, m) {
      ComponentReachesRoot(edges, reach, s, m, y);
      Chain(reach, x, Top(s).node, y);
      Chain(reach, y, Top(s).node, x);
    } else if (x, y) in reach && (y, x) in reach {
      ComponentClosed(edges, reach, s, m);
      CutByIndex(s, m, x);
      Inside(edges, reach, s.index.Keys - s.onStack + Component(s, m), x, y);
      Inside(edges, reach, s.index.Keys - s.onStack, y, x);
    }
  }

  lemma CloseShape(edges: Edges, s: State, m: nat)
    requires Shape(s) && Neighbours(edges, s) && |s.work| > 0
    requires m < |s.stack| && s.stack[m] == Top(s).node
    ensures Shape(Close(s, m)) && Neighbours(edges, Close(s, m))
    ensures forall x :: x in Close(s, m).onStack <==> x in s.onStack && s.index[x] < s.index[Top(s).node]
  {
    PopShape(edges, s);
    var t := PopFrame(s);
    assert t.index == s.index && t.stack == s.stack && t.work == s.work[..|s.work| - 1];
    assert forall i :: 0 <= i < |t.work| ==> s.index[s.work[i].node] < s.index[Top(s).node];
    hide Shape, Neighbours, PopFrame;
    CutShape(t, m);
    CutNeighbours(edges, t, m);
  }

  /** Cutting above all frames keeps the shape. */
  lemma CutShape(s: State, m: nat)
    requires Shape(s) && m < |s.stack|
    requires forall i :: 0 <= i < |s.work| ==> s.index[s.work[i].node] < s.index[s.stack[m]]
    ensures Shape(CutStack(s, m))
    ensures forall x :: x in CutStack(s, m).onStack <==> x in s.onStack && s.index[x] < s.index[s.stack[m]]
  {
    var t := CutStack(s, m);
    forall x ensures x in t.onStack <==> x in s.onStack && s.index[x] < s.index[s.stack[m]] {
      CutByIndex(s, m, x);
    }
  }

  lemma CutNeighbours(edges: Edges, s: State, m: nat)
    requires Neighbours(edges, s) && m < |s.stack|
    ensures Neighbours(edges, CutStack(s, m))
  {
  }

  lemma CloseFrontier(edges: Edges, reach: Relation, s: State, m: nat)
    requires AtRoot(edges, reach, s, m)
    ensures Shape(Close(s, m)) && Neighbours(edges, Close(s, m)) && Frontier(edges, Close(s, m), {})
  {
    CloseShape(edges, s, m);
    PopFrontier(edges, s);
    ComponentClosed(edges, reach, s, m);
    var t := Close(s, m);
    forall x ensures x in t.index && x !in t.onStack <==> x in s.index.Keys - s.onStack + Component(s, m) {
      CutByIndex(s, m, x);
    }
    assert forall x :: HasFrame(PopFrame(s), x) <==> HasFrame(t, x);
  }

  lemma CloseReaches(edges: Edges, reach: Relation, s: State, m: nat)
    requires Shape(s) && Neighbours(edges, s) && ReachesOn(reach, s) && |s.work| > 0
    requires m < |s.stack| && s.stack[m] == Top(s).node
    ensures Shape(Close(s, m)) && ReachesOn(reach, Close(s, m))
  {
    CloseShape(edges, s, m);
  }

  lemma CloseReachesBack(edges: Edges, reach: Relation, s: State, m: nat)
    requires Shape(s) && Neighbours(edges, s) && ReachesBack(reach, s) && |s.work| > 0
    requires m < |s.stack| && s.stack[m] == Top(s).node
    ensures Shape(Close(s, m)) && ReachesBack(reach, Close(s, m))
  {
    hide Neighbours, ReachesFrame;
    CloseShape(edges, s, m);
    var t := Close(s, m);
    forall x | x in t.onStack
      ensures ReachesFrame(reach, t, x)
    {
      var i := BackToFrame(reach, s, x);
      FrameReached(reach, t, x, i);
    }
  }

  lemma CloseIs(edges: Edges, s: State, m: nat)
    requires Shape(s) && Neighbours(edges, s) && |s.work| > 0
    requires m < |s.stack| && s.stack[m] == Top(s).node && s.low[Top(s).node] == s.index[Top(s).node]
    ensures Close(s, m).work == s.work[..|s.work| - 1] && Close(s, m).index == s.index && Shape(Close(s, m))
    ensures forall i :: 0 <= i < |s.work| ==> s.work[i].node in s.index && s.work[i].node in s.low
    ensures Close(s, m).onStack <= s.onStack
  {
    CloseShape(edges, s, m);
  }

  /** A root's own lowlink is not lower than that of the frame it is left for. */
  lemma CloseLowSame(reach: Relation, s: State, m: nat, i: nat)
    requires Shape(s) && i + 1 < |s.work| && m <= |s.stack| && s.low[Top(s).node] == s.index[Top(s).node]
    requires LowWitness(reach, s, s.work[i].node) && s.work[i].node in Close(s, m).low
    ensures Close(s, m).low[s.work[i].node] == s.low[s.work[i].node]
  {
    assert s.low[s.work[i].node] <= s.index[s.work[i].node] < s.index[Top(s).node];
  }

  lemma CloseLow(edges: Edges, reach: Relation, s: State, m: nat, i: nat)
    requires Shape(s) && Neighbours(edges, s) && |s.work| > 0 && i + 1 < |s.work|
    requires m < |s.stack| && s.stack[m] == Top(s).node && s.low[Top(s).node] == s.index[Top(s).node]
    requires LowWitness(reach, s, s.work[i].node) && Shape(Close(s, m)) && s.work[i].node in Close(s, m).index
    ensures LowWitness(reach, Close(s, m), s.work[i].node)
  {
    hide Neighbours, Close, PopFrame;
    CloseShape(edges, s, m);
    CloseIs(edges, s, m);
    var t, u := Close(s, m), s.work[i].node;
    CloseLowSame(reach, s, m, i);
    assert s.index[u] < s.index[Top(s).node];
    var y :| y in s.onStack && s.index[y] == s.low[u] && (u, y) in reach;
    assert y in t.onStack;
  }

  lemma CloseSound(edges: Edges, reach: Relation, s: State, m: nat)
    requires Shape(s) && Neighbours(edges, s) && LowSound(reach, s) && |s.work| > 0
    requires m < |s.stack| && s.stack[m] == Top(s).node && s.low[Top(s).node] == s.index[Top(s).node]
    ensures Shape(Close(s, m)) && LowSound(reach, Close(s, m))
  {
    hide Neighbours, Shape, Close, LowWitness;
    CloseShape(edges, s, m);
    CloseIs(edges, s, m);
    var t := Close(s, m);
    forall i | 0 <= i < |t.work|
      ensures LowWitness(reach, t, t.work[i].node)
    {
      CloseLow(edges, reach, s, m, i);
    }
  }

  lemma CutComplete(s: State, m: nat)
    requires Shape(s) && LowComplete(s) && m <= |s.stack| && Shape(CutStack(s, m))
    ensures LowComplete(CutStack(s, m))
  {
    hide InSegment;
    var t := CutStack(s, m);
    assert t.onStack <= s.onStack;
    forall i, x, y | 0 <= i < |t.work| && (x, y) in t.looked && x in t.onStack && y in t.onStack
                     && InSegment(t, i, x)
      ensures t.low[t.work[i].node] <= t.index[y]
    {
      SameFramesSegment(s, t, i, x);
    }
  }

  lemma CloseComplete(edges: Edges, s: State, m: nat)
    requires Shape(s) && Neighbours(edges, s) && LowComplete(s) && |s.work| > 0
    requires m < |s.stack| && s.stack[m] == Top(s).node
    ensures Shape(Close(s, m)) && LowComplete(Close(s, m))
  {
    hide Neighbours, InSegment;
    CloseShape(edges, s, m);
    PopShape(edges, s);
    PopComplete(edges, s);
    CutComplete(PopFrame(s), m);
  }

  /** Leaving the root of a component takes the component off the stack. */
  lemma CloseKeeps(edges: Edges, reach: Relation, s: State, m: nat)
    requires AtRoot(edges, reach, s, m)
    ensures Inv(edges, reach, Close(s, m))
  {
    CloseFrontier(edges, reach, s, m);
    CloseReaches(edges, reach, s, m);
    CloseReachesBack(edges, reach, s, m);
    CloseSound(edges, reach, s, m);
    CloseComplete(edges, s, m);
  }

  // ----- the search, over real reachability -----

  ghost function ReachOf(edges: Edges): Relation {
    iset a: Id, b: Id | Reach(edges, a, b) :: (a, b)
  }

  lemma ReachOfFacts(edges: Edges)
    ensures Transitive(ReachOf(edges)) && StaysInside(edges, ReachOf(edges))
  {
    forall a, b, c | (a, b) in ReachOf(edges) && (b, c) in ReachOf(edges)
      ensures (a, c) in ReachOf(edges)
    {
      ReachTransitive(edges, a, b, c);
    }
    forall inside: set<Id>, a, b | ClosedUnder(edges, inside) && a in inside && (a, b) in ReachOf(edges)
      ensures b in inside
    {
      ReachStaysInside(edges, inside, a, b);
    }
  }

  lemma EdgeReach(edges: Edges, a: Id, b: Id)
    requires (a, b) in edges
    ensures (a, b) in ReachOf(edges)
  {
    ReachEdge(edges, a, b);
  }

  lemma SelfReach(edges: Edges, a: Id)
    ensures (a, a) in ReachOf(edges)
  {
    ReachSelf(edges, a);
  }

  ghost predicate Searching(edges: Edges, s: State) {
    Inv(edges, ReachOf(edges), s)
  }

  /** Everything discovered is reachable from one of the starting points. */
  ghost predicate FoundFrom(edges: Edges, starts: set<Id>, found: set<Id>) {
    forall x :: x in found ==> ReachedFrom(edges, starts, x)
  }

  ghost predicate ReachedFrom(edges: Edges, starts: set<Id>, x: Id) {
    exists f :: f in starts && Reach(edges, f, x)
  }

  ghost predicate Finished(s: State, x: Id) {
    x in s.index && x !in s.onStack
  }

  ghost predicate GoodGroup(s: State, group: seq<Id>) {
    |group| > 1 && StrictlySorted(group) && forall x :: x in group ==> Finished(s, x)
  }

  /** The groups reported so far are the components with more than one node
      among the finished nodes. */
  ghost predicate Groups(edges: Edges, s: State, sccs: seq<seq<Id>>) {
    && (forall k :: 0 <= k < |sccs| ==> GoodGroup(s, sccs[k]))
    && (forall k, a, b :: 0 <= k < |sccs| && a in sccs[k] ==> (b in sccs[k] <==> Mutual(edges, a, b)))
    && (forall a, b :: Finished(s, a) && Finished(s, b) && a != b && Mutual(edges, a, b) ==> InSomeGroup(sccs, a))
    && (forall k, l :: 0 <= k < l < |sccs| ==> Elements(sccs[k]) !! Elements(sccs[l]))
  }

  ghost predicate InSomeGroup(sccs: seq<seq<Id>>, a: Id) {
    exists k :: 0 <= k < |sccs| && a in sccs[k]
  }

  ghost predicate SameGroup(sccs: seq<seq<Id>>, a: Id, b: Id) {
    exists k :: 0 <= k < |sccs| && a in sccs[k] && b in sccs[k]
  }

  /** When no frame is open the component stack is empty and nothing found has an edge out. */
  lemma IdleStackEmpty(edges: Edges, s: State)
    requires Searching(edges, s) && s.work == []
    ensures s.onStack == {} && ClosedUnder(edges, s.index.Keys)
  {
    assert forall x :: x in s.onStack ==> ReachesFrame(ReachOf(edges), s, x);
  }

  lemma StartKeeps(edges: Edges, s: State, w: Id, targets: seq<Id>)
    requires Searching(edges, s) && s.work == [] && w !in s.index && TargetsOf(edges, w, targets)
    ensures Searching(edges, Push(s, w, targets))
  {
    SelfReach(edges, w);
    PushKeeps(edges, ReachOf(edges), s, w, targets);
  }

  lemma NextEdge(edges: Edges, s: State)
    requires Searching(edges, s) && |s.work| > 0 && Top(s).next < |Top(s).targets|
    ensures (Top(s).node, Top(s).targets[Top(s).next]) in edges
    ensures (Top(s).node, Top(s).targets[Top(s).next]) in ReachOf(edges)
  {
    AdvanceShape(edges, s);
    EdgeReach(edges, Top(s).node, Top(s).targets[Top(s).next]);
  }

  lemma VisitKeeps(edges: Edges, s: State, w: Id, targets: seq<Id>)
    requires Searching(edges, s) && |s.work| > 0 && Top(s).next < |Top(s).targets|
    requires w == Top(s).targets[Top(s).next] && w !in s.index && TargetsOf(edges, w, targets)
    ensures Searching(edges, Push(Advance(s), w, targets))
  {
    hide ReachesBack, LowSound, LowComplete, Frontier;
    var reach := ReachOf(edges);
    NextEdge(edges, s);
    AdvanceKeeps(edges, reach, s, w);
    var t := Advance(s);
    forall i | 0 <= i < |t.work| ensures (t.work[i].node, w) in reach {
      assert t.work[i].node == s.work[i].node;
      assert (s.work[i].node, Top(s).node) in reach;
      ReachOfFacts(edges);
      Chain(reach, s.work[i].node, Top(s).node, w);
    }
    SelfReach(edges, w);
    PushKeeps(edges, reach, t, w, targets);
  }

  lemma SkipKeeps(edges: Edges, s: State)
    requires Searching(edges, s) && |s.work| > 0 && Top(s).next < |Top(s).targets|
    requires Top(s).targets[Top(s).next] in s.index
    ensures Searching(edges, StepOver(s))
  {
    NextEdge(edges, s);
    StepOverKeeps(edges, ReachOf(edges), s);
  }

  lemma LeaveKeeps(edges: Edges, s: State)
    requires Searching(edges, s) && |s.work| > 0 && Top(s).next == |Top(s).targets|
    requires s.low[Top(s).node] < s.index[Top(s).node]
    ensures Searching(edges, PopFrame(s))
  {
    ReachOfFacts(edges);
    PopKeeps(edges, ReachOf(edges), s);
  }

  lemma RootKeeps(edges: Edges, s: State, m: nat)
    requires AtRoot(edges, ReachOf(edges), s, m)
    ensures Searching(edges, Close(s, m))
    ensures forall x, y :: x in Component(s, m) ==> (y in Component(s, m) <==> Mutual(edges, x, y))
    ensures forall x :: x in Component(s, m) ==> !Finished(s, x)
    ensures forall x :: Finished(Close(s, m), x) <==> Finished(s, x) || x in Component(s, m)
  {
    CloseKeeps(edges, ReachOf(edges), s, m);
    ReachOfFacts(edges);
    forall x, y | x in Component(s, m)
      ensures y in Component(s, m) <==> Mutual(edges, x, y)
    {
      ComponentIsExact(edges, ReachOf(edges), s, m, x, y);
    }
    forall x ensures x in Component(s, m) <==> x in s.onStack && s.index[Top(s).node] <= s.index[x] {
      CutByIndex(s, m, x);
    }
    CloseShape(edges, s, m);
  }

  /** Moving nodes that are still on the stack does not affect the groups. */
  lemma GroupsFrame(edges: Edges, s: State, t: State, sccs: seq<seq<Id>>)
    requires Groups(edges, s, sccs)
    requires forall x :: Finished(s, x) <==> Finished(t, x)
    ensures Groups(edges, t, sccs)
  {
  }

  /** A component closed with more than one node becomes a new group; a single
      node needs none. */
  lemma GroupsClose(edges: Edges, s: State, t: State, sccs: seq<seq<Id>>, comp: set<Id>, group: seq<Id>)
    requires Groups(edges, s, sccs)
    requires forall x :: Finished(t, x) <==> Finished(s, x) || x in comp
    requires forall x :: x in comp ==> !Finished(s, x)
    requires forall x, y :: x in comp ==> (y in comp <==> Mutual(edges, x, y))
    requires Elements(group) == comp && StrictlySorted(group) && |group| > 0
    ensures Groups(edges, t, if |group| > 1 then sccs + [group] else sccs)
  {
    var after := if |group| > 1 then sccs + [group] else sccs;
    forall a, b | Finished(t, a) && Finished(t, b) && a != b && Mutual(edges, a, b)
      ensures InSomeGroup(after, a)
    {
      if a in comp {
        assert a in group && b in Elements(group);
        assert after[|sccs|] == group;
      } else {
        assert Mutual(edges, b, a);
        assert InSomeGroup(sccs, a);
        var k :| 0 <= k < |sccs| && a in sccs[k];
        assert after[k] == sccs[k];
      }
    }
    forall k, l | 0 <= k < l < |after|
      ensures Elements(after[k]) !! Elements(after[l])
    {
      if l == |sccs| {
        assert GoodGroup(s, sccs[k]);
      }
    }
  }

  lemma GroupedAreMutual(edges: Edges, starts: set<Id>, s: State, sccs: seq<seq<Id>>, a: Id, b: Id)
    requires Groups(edges, s, sccs) && FoundFrom(edges, starts, s.index.Keys) && SameGroup(sccs, a, b)
    ensures Mutual(edges, a, b) && ReachedFrom(edges, starts, a)
  {
    var k :| 0 <= k < |sccs| && a in sccs[k] && b in sccs[k];
    assert GoodGroup(s, sccs[k]);
    assert Finished(s, a);
    assert a in s.index.Keys;
  }

  /** When the search is over, the groups are exactly the strongly connected
      components with more than one node. */
  lemma GroupsComplete(edges: Edges, starts: set<Id>, s: State, sccs: seq<seq<Id>>, a: Id, b: Id)
    requires Groups(edges, s, sccs) && s.onStack == {} && ClosedUnder(edges, s.index.Keys)
    requires starts <= s.index.Keys && FoundFrom(edges, starts, s.index.Keys) && a != b
    ensures SameGroup(sccs, a, b) <==> Mutual(edges, a, b) && ReachedFrom(edges, starts, a)
  {
    if SameGroup(sccs, a, b) {
      GroupedAreMutual(edges, starts, s, sccs, a, b);
    }
    if Mutual(edges, a, b) && ReachedFrom(edges, starts, a) {
      var f :| f in starts && Reach(edges, f, a);
      ReachStaysInside(edges, s.index.Keys, f, a);
      ReachStaysInside(edges, s.index.Keys, a, b);
      assert Finished(s, a) && Finished(s, b);
      assert InSomeGroup(sccs, a);
    }
  }

  // ----- what the loop itself needs to know -----

  lemma InitialState(edges: Edges)
    ensures Searching(edges, State(0, map[], map[], {}, [], [], {}))
    ensures Groups(edges, State(0, map[], map[], {}, [], [], {}), [])
  {
  }

  lemma GroupsWellFormed(edges: Edges, s: State, sccs: seq<seq<Id>>)
    requires Groups(edges, s, sccs)
    ensures forall k :: 0 <= k < |sccs| ==> |sccs[k]| > 1 && StrictlySorted(sccs[k])
    ensures forall k, l :: 0 <= k < l < |sccs| ==> Elements(sccs[k]) !! Elements(sccs[l])
  {
    assert forall k :: 0 <= k < |sccs| ==> GoodGroup(s, sccs[k]);
  }

  lemma TopFacts(edges: Edges, s: State)
    requires Searching(edges, s) && |s.work| > 0
    ensures s.low.Keys == s.index.Keys && Top(s).node in s.onStack && s.onStack <= s.index.Keys
    ensures Top(s).next <= |Top(s).targets|
    ensures forall i :: 0 <= i < |s.work| ==> s.work[i].node in s.low
    ensures |s.work| > 1 ==> s.work[|s.work| - 2].node != Top(s).node
    ensures s.low[Top(s).node] <= s.index[Top(s).node]
    ensures Top(s).node in s.stack && Distinct(s.stack) && s.onStack == Elements(s.stack)
  {
    assert LowWitness(ReachOf(edges), s, Top(s).node);
    assert Top(s).node in Elements(s.stack);
  }

  lemma FoundMore(edges: Edges, starts: set<Id>, found: set<Id>, v: Id, w: Id)
    requires FoundFrom(edges, starts, found) && v in found && (v, w) in edges
    ensures FoundFrom(edges, starts, found + {w})
  {
    assert ReachedFrom(edges, starts, v);
    var f :| f in starts && Reach(edges, f, v);
    ReachEdge(edges, v, w);
    ReachTransitive(edges, f, v, w);
    assert ReachedFrom(edges, starts, w);
  }

  lemma FoundStart(edges: Edges, starts: set<Id>, found: set<Id>, w: Id)
    requires FoundFrom(edges, starts, found) && w in starts
    ensures FoundFrom(edges, starts, found + {w})
  {
    ReachSelf(edges, w);
    assert ReachedFrom(edges, starts, w);
  }

  /** Visiting and stepping over leave the finished nodes as they are. */
  lemma GroupsThroughVisit(edges: Edges, s: State, w: Id, targets: seq<Id>, sccs: seq<seq<Id>>)
    requires Groups(edges, s, sccs) && w !in s.index && |s.work| > 0 && Top(s).next < |Top(s).targets|
    ensures Groups(edges, Push(Advance(s), w, targets), sccs)
  {
    GroupsFrame(edges, s, Push(Advance(s), w, targets), sccs);
  }

  lemma GroupsThroughStep(edges: Edges, s: State, t: State, sccs: seq<seq<Id>>)
    requires Groups(edges, s, sccs) && t.index == s.index && t.onStack == s.onStack
    ensures Groups(edges, t, sccs)
  {
    GroupsFrame(edges, s, t, sccs);
  }

  lemma GroupsThroughStart(edges: Edges, s: State, w: Id, targets: seq<Id>, sccs: seq<seq<Id>>)
    requires Groups(edges, s, sccs) && w !in s.index
    ensures Groups(edges, Push(s, w, targets), sccs)
  {
    GroupsFrame(edges, s, Push(s, w, targets), sccs);
  }

  /** Visiting an undiscovered neighbour keeps the search, the groups, and everything
      found reachable from a starting point. */
  lemma Visited(edges: Edges, starts: set<Id>, s: State, w: Id, targets: seq<Id>, sccs: seq<seq<Id>>)
    requires Searching(edges, s) && |s.work| > 0 && Top(s).next < |Top(s).targets|
    requires w == Top(s).targets[Top(s).next] && w !in s.index && TargetsOf(edges, w, targets)
    requires Groups(edges, s, sccs) && FoundFrom(edges, starts, s.index.Keys)
    ensures var t := Push(Advance(s), w, targets);
      && Searching(edges, t) && Groups(edges, t, sccs) && FoundFrom(edges, starts, t.index.Keys)
      && t.index.Keys == s.index.Keys + {w}
  {
    hide Searching, Groups, FoundFrom, TargetsOf;
    TopFacts(edges, s);
    NextEdge(edges, s);
    VisitKeeps(edges, s, w, targets);
    GroupsThroughVisit(edges, s, w, targets, sccs);
    FoundMore(edges, starts, s.index.Keys, Top(s).node, w);
    assert Push(Advance(s), w, targets).index.Keys == s.index.Keys + {w};
  }

  /** Closing a component: the search goes on and the group is recorded. */
  lemma RootCloses(edges: Edges, s: State, m: nat, sccs: seq<seq<Id>>, group: seq<Id>)
    requires Searching(edges, s) && |s.work| > 0 && Top(s).next == |Top(s).targets|
    requires s.low[Top(s).node] == s.index[Top(s).node] && m < |s.stack| && s.stack[m] == Top(s).node
    requires Groups(edges, s, sccs) && StrictlySorted(group) && Elements(group) == Component(s, m) && |group| > 0
    ensures Searching(edges, Close(s, m))
    ensures Groups(edges, Close(s, m), if |group| > 1 then sccs + [group] else sccs)
  {
    RootKeeps(edges, s, m);
    GroupsClose(edges, s, Close(s, m), sccs, Component(s, m), group);
  }
}
