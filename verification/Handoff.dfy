/** The hand-off of the paused state between threads: pausing stores it, approve
    and reject each pop it, under one lock, and any thread may run between any two
    steps. Every pause carries its own token. */
module Handoff {
  import opened Collections

  /** Where a thread is: outside, holding the lock before looking, having read the
      paused state, having cleared it, or holding the lock to store a new one. */
  datatype Place = Outside | Entered | HasRead(token: nat) | HasCleared(token: nat) | Storing(token: nat)

  datatype State = State(
    lock: Option<nat>,
    slot: Option<nat>,
    next: nat,
    places: map<nat, Place>,
    stored: seq<nat>,
    taken: seq<nat>)

  datatype Action = EnterTake | FindNothing | Read | Clear | LeaveTake | EnterPause | Store

  function PlaceOf(s: State, thread: nat): Place {
    if thread in s.places then s.places[thread] else Outside
  }

  function Move(s: State, thread: nat, place: Place): State {
    s.(places := s.places[thread := place])
  }

  /** One step of one thread. Without the lock, entering never waits. */
  ghost predicate Step(locking: bool, s: State, t: State, thread: nat, action: Action) {
    match action
    case EnterTake =>
      PlaceOf(s, thread).Outside? && (locking ==> s.lock.None?) && t == Move(s.(lock := Some(thread)), thread, Entered)
    case FindNothing =>
      PlaceOf(s, thread).Entered? && s.slot.None? && t == Move(s.(lock := None), thread, Outside)
    case Read =>
      PlaceOf(s, thread).Entered? && s.slot.Some? && t == Move(s, thread, HasRead(s.slot.value))
    case Clear =>
      PlaceOf(s, thread).HasRead? && t == Move(s.(slot := None), thread, HasCleared(PlaceOf(s, thread).token))
    case LeaveTake =>
      PlaceOf(s, thread).HasCleared? &&
      t == Move(s.(lock := None, taken := s.taken + [PlaceOf(s, thread).token]), thread, Outside)
    case EnterPause =>
      PlaceOf(s, thread).Outside? && (locking ==> s.lock.None?) &&
      t == Move(s.(lock := Some(thread), next := s.next + 1), thread, Storing(s.next))
    case Store =>
      PlaceOf(s, thread).Storing? &&
      t == Move(s.(lock := None, slot := Some(PlaceOf(s, thread).token), stored := s.stored + [PlaceOf(s, thread).token]),
                thread, Outside)
  }

  const Start: State := State(None, None, 0, map[], [], [])

  ghost predicate Steps(locking: bool, s: State, t: State) {
    exists thread, action :: Step(locking, s, t, thread, action)
  }

  /** A run: any interleaving of any number of threads. */
  ghost predicate IsRun(locking: bool, run: seq<State>) {
    |run| > 0 && run[0] == Start && forall i :: 0 <= i < |run| - 1 ==> Steps(locking, run[i], run[i + 1])
  }

  /** Only the thread with the lock is inside; what it has read is in the slot
      until it clears it; tokens in use have not been taken. */
  ghost predicate Safe(s: State) {
    && (forall i: nat :: PlaceOf(s, i) != Outside ==> s.lock == Some(i))
    && (forall i: nat :: PlaceOf(s, i).HasRead? ==> s.slot == Some(PlaceOf(s, i).token))
    && (forall i: nat :: PlaceOf(s, i).HasCleared? ==>
          s.slot == None && PlaceOf(s, i).token in s.stored && PlaceOf(s, i).token !in s.taken)
    && (forall i: nat :: PlaceOf(s, i).Storing? ==> PlaceOf(s, i).token < s.next && PlaceOf(s, i).token !in s.stored)
    && (s.slot.Some? ==> s.slot.value in s.stored && s.slot.value !in s.taken)
    && (forall t :: t in s.stored ==> t < s.next)
    && (forall t :: t in s.taken ==> t in s.stored)
    && Distinct(s.stored) && Distinct(s.taken)
  }

  lemma StepKeepsSafe(s: State, t: State, thread: nat, action: Action)
    requires Safe(s) && Step(true, s, t, thread, action)
    ensures Safe(t)
  {
    assert forall i: nat :: i != thread ==> PlaceOf(t, i) == PlaceOf(s, i);
    if action == Store {
      assert PlaceOf(s, thread).token !in s.taken;
    }
  }

  lemma {:induction false} RunIsSafe(run: seq<State>, n: nat)
    requires IsRun(true, run) && n < |run|
    ensures Safe(run[n])
  {
    if n > 0 {
      RunIsSafe(run, n - 1);
      assert Steps(true, run[n - 1], run[n - 1 + 1]);
      var thread, action :| Step(true, run[n - 1], run[n], thread, action);
      StepKeepsSafe(run[n - 1], run[n], thread, action);
    }
  }

  /** Under any interleaving every pause is handed out at most once, and only
      pauses that were stored are handed out. */
  lemma EachPauseTakenOnce(run: seq<State>, n: nat)
    requires IsRun(true, run) && n < |run|
    ensures Distinct(run[n].taken) && forall t :: t in run[n].taken ==> t in run[n].stored
  {
    RunIsSafe(run, n);
  }

  lemma OneMoreStep(run: seq<State>, next: State, thread: nat, action: Action) returns (longer: seq<State>)
    requires IsRun(false, run) && Step(false, run[|run| - 1], next, thread, action)
    ensures IsRun(false, longer) && longer[|longer| - 1] == next
  {
    hide Step;
    longer := run + [next];
    assert Steps(false, run[|run| - 1], next);
  }

  /** One thread has stored a pause, and two others have read it. */
  lemma BothRead() returns (run: seq<State>)
    ensures IsRun(false, run)
    ensures var s := run[|run| - 1]; s.taken == [] && PlaceOf(s, 2) == HasRead(0) && PlaceOf(s, 3) == HasRead(0)
  {
    hide IsRun, Steps;
    run := [Start];
    RunStarts();
    var s1 := Move(Start.(lock := Some(1), next := 1), 1, Storing(0));
    var s2 := Move(s1.(lock := None, slot := Some(0), stored := [0]), 1, Outside);
    var s3 := Move(s2.(lock := Some(2)), 2, Entered);
    var s4 := Move(s3.(lock := Some(3)), 3, Entered);
    var s5 := Move(s4, 2, HasRead(0));
    run := OneMoreStep(run, s1, 1, EnterPause);
    run := OneMoreStep(run, s2, 1, Store);
    run := OneMoreStep(run, s3, 2, EnterTake);
    run := OneMoreStep(run, s4, 3, EnterTake);
    run := OneMoreStep(run, s5, 2, Read);
    run := OneMoreStep(run, Move(s5, 3, HasRead(0)), 3, Read);
  }

  lemma RunStarts()
    ensures IsRun(false, [Start])
  {
  }

  /** Without the lock two threads can both read the state before either clears
      it, and both carry on with the same pause. */
  lemma RaceWithoutLock() returns (run: seq<State>)
    ensures IsRun(false, run) && run[|run| - 1].taken == [0, 0]
  {
    hide IsRun, Steps;
    run := BothRead();
    RunIsSome(run);
    var s := run[|run| - 1];
    var s1 := Move(s.(slot := None), 2, HasCleared(0));
    var s2 := Move(s1.(slot := None), 3, HasCleared(0));
    var s3 := Move(s2.(lock := None, taken := [0]), 2, Outside);
    run := OneMoreStep(run, s1, 2, Clear);
    run := OneMoreStep(run, s2, 3, Clear);
    run := OneMoreStep(run, s3, 2, LeaveTake);
    run := OneMoreStep(run, Move(s3.(lock := None, taken := [0, 0]), 3, Outside), 3, LeaveTake);
  }

  lemma RunIsSome(run: seq<State>)
    requires IsRun(false, run)
    ensures run != []
  {
  }
}
