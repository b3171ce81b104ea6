/**
 Cancelling a future while its thread runs (`Future.__asynccall`, `cancel` and `delay` in src/Pyro4/futures.py): none
 of them takes a lock, so they interleave statement by statement.
 */
module Cancellation {
  import opened Common

  /** Where the thread of the future is. */
  datatype Place =
    | Unstarted
    | ReadingDelay | ReadingFlag                      // the two tests of the loop
    | Taking | Sleeping(delay: real) | Subtracting(delay: real) | Storing(value: real)
    | Testing                                         // the test after the loop
    | Finishing | GivingUp | Cancelled                // it was cancelled
    | Completing | Clearing | Calling | Called        // it was not
    | Died                                            // a negative delay cannot be slept

  /** A call of `cancel`: its test has passed, or it has answered. */
  datatype Request = Passed | Answered(accepted: bool)

  datatype State = State(
    place: Place, callDelay: real, cancelled: bool, completed: bool,
    cancels: map<nat, Request>, delays: set<nat>, ran: bool)

  datatype Action =
    | Begin                            // the future is called
    | Own                              // the thread's next statement
    | CancelTest(k: nat)
    | CancelSet(k: nat)
    | DelayTest(k: nat)
    | DelaySet(k: nat, seconds: real)

  function Initial(): State {
    State(Unstarted, 0.0, false, false, map[], {}, false)
  }

  function OwnStep(s: State): State {
    match s.place
    case ReadingDelay => s.(place := if s.callDelay > 0.0 then ReadingFlag else Testing)
    case ReadingFlag => s.(place := if s.cancelled then Testing else Taking)
    case Taking => s.(place := Sleeping(if s.callDelay < 2.0 then s.callDelay else 2.0))
    case Sleeping(delay) => s.(place := if delay < 0.0 then Died else Subtracting(delay))
    case Subtracting(delay) => s.(place := Storing(s.callDelay - delay))
    case Storing(value) => s.(place := ReadingDelay, callDelay := value)
    case Testing => s.(place := if s.cancelled then Finishing else Completing)
    case Finishing => s.(place := GivingUp, completed := true)
    case GivingUp => s.(place := Cancelled)
    case Completing => s.(place := Clearing, completed := true)
    case Clearing => s.(place := Calling, cancelled := false)
    case Calling => s.(place := Called, ran := true)
    case _ => s
  }

  /** One statement. Actions that are not possible change nothing. */
  function Do(s: State, a: Action): State {
    match a
    case Begin => if s.place.Unstarted? && !s.cancelled then s.(place := ReadingDelay) else s
    case Own => OwnStep(s)
    case CancelTest(k) =>
      if k in s.cancels then s else s.(cancels := s.cancels[k := if s.completed then Answered(false) else Passed])
    case CancelSet(k) =>
      if k in s.cancels && s.cancels[k].Passed? then s.(cancelled := true, cancels := s.cancels[k := Answered(true)]) else s
    case DelayTest(k) => if s.completed then s else s.(delays := s.delays + {k})
    case DelaySet(k, seconds) => if k in s.delays then s.(delays := s.delays - {k}, callDelay := seconds) else s
  }

  /** The state after the first n actions. */
  function At(actions: seq<Action>, n: nat): State
    requires n <= |actions|
  {
    if n == 0 then Initial() else Do(At(actions, n - 1), actions[n - 1])
  }

  /** The thread's test after the loop finds no cancellation in its i-th action. */
  ghost predicate TestMisses(actions: seq<Action>, i: nat) {
    i < |actions| && actions[i].Own? && At(actions, i).place.Testing? && !At(actions, i).cancelled
  }

  ghost predicate MissedBefore(actions: seq<Action>, n: nat) {
    exists i: nat :: i < n && TestMisses(actions, i)
  }

  /** The i-th action is the first statement of request k, and finds the future not completed. */
  ghost predicate TestsAt(actions: seq<Action>, i: nat, k: nat) {
    i < |actions| && actions[i] == CancelTest(k) && k !in At(actions, i).cancels && !At(actions, i).completed
  }

  /** The i-th action is the second one. */
  ghost predicate SetsAt(actions: seq<Action>, i: nat, k: nat) {
    i < |actions| && actions[i] == CancelSet(k) && k in At(actions, i).cancels && At(actions, i).cancels[k].Passed?
  }

  /** The thread has passed that test without noticing a cancellation. */
  predicate OnItsWay(p: Place) { p.Completing? || p.Clearing? || p.Calling? || p.Called? }

  /** Only a test that misses puts the thread on its way, and nothing takes it off again. */
  lemma OnItsWayStep(s: State, a: Action)
    ensures OnItsWay(Do(s, a).place) <==> OnItsWay(s.place) || (a.Own? && s.place.Testing? && !s.cancelled)
  {}

  lemma {:induction false} OnItsWayAt(actions: seq<Action>, n: nat)
    requires n <= |actions|
    ensures OnItsWay(At(actions, n).place) <==> MissedBefore(actions, n)
  {
    if n > 0 {
      OnItsWayAt(actions, n - 1);
      OnItsWayStep(At(actions, n - 1), actions[n - 1]);
      if TestMisses(actions, n - 1) {
        assert MissedBefore(actions, n);
      }
      assert forall i: nat :: i < n && TestMisses(actions, i) ==> i < n - 1 || i == n - 1;
    }
  }

  lemma {:induction false} RanAt(actions: seq<Action>, n: nat)
    requires n <= |actions|
    ensures At(actions, n).ran <==> At(actions, n).place.Called?
  {
    if n > 0 {
      RanAt(actions, n - 1);
      RanStep(At(actions, n - 1), actions[n - 1]);
    }
  }

  lemma RanStep(s: State, a: Action)
    requires s.ran <==> s.place.Called?
    ensures Do(s, a).ran <==> Do(s, a).place.Called?
  {}

  /** A cancellation that is set before the test is noticed by it: the call can no longer happen. */
  lemma {:induction false} NoticedAt(actions: seq<Action>, n: nat, m: nat)
    requires n <= m <= |actions| && At(actions, n).cancelled && !OnItsWay(At(actions, n).place)
    ensures At(actions, m).cancelled && !OnItsWay(At(actions, m).place)
    decreases m - n
  {
    if n < m {
      NoticedAt(actions, n, m - 1);
      NoticedStep(At(actions, m - 1), actions[m - 1]);
    }
  }

  lemma NoticedStep(s: State, a: Action)
    requires s.cancelled && !OnItsWay(s.place)
    ensures Do(s, a).cancelled && !OnItsWay(Do(s, a).place)
  {}

  lemma {:induction false} StaysOnItsWay(actions: seq<Action>, n: nat, m: nat)
    requires n <= m <= |actions| && OnItsWay(At(actions, n).place)
    ensures OnItsWay(At(actions, m).place)
    decreases m - n
  {
    if n < m {
      StaysOnItsWay(actions, n, m - 1);
      OnItsWayStep(At(actions, m - 1), actions[m - 1]);
    }
  }

  lemma PassedStep(s: State, a: Action, k: nat)
    ensures var t := Do(s, a);
            if k !in s.cancels then
              k in t.cancels ==> a == CancelTest(k) && t.cancels[k] == if s.completed then Answered(false) else Passed
            else
              k in t.cancels && t.cancels[k] == if a == CancelSet(k) && s.cancels[k].Passed? then Answered(true) else s.cancels[k]
  {}

  lemma {:induction false} PassedTested(actions: seq<Action>, n: nat, k: nat) returns (h: nat)
    requires n <= |actions| && k in At(actions, n).cancels && At(actions, n).cancels[k].Passed?
    ensures h < n && TestsAt(actions, h, k)
  {
    hide Do;
    PassedStep(At(actions, n - 1), actions[n - 1], k);
    if TestsAt(actions, n - 1, k) {
      h := n - 1;
    } else {
      h := PassedTested(actions, n - 1, k);
    }
  }

  lemma {:induction false} AcceptedSet(actions: seq<Action>, n: nat, k: nat) returns (i: nat)
    requires n <= |actions| && k in At(actions, n).cancels && At(actions, n).cancels[k] == Answered(true)
    ensures i < n && SetsAt(actions, i, k)
  {
    hide Do;
    PassedStep(At(actions, n - 1), actions[n - 1], k);
    if SetsAt(actions, n - 1, k) {
      i := n - 1;
    } else {
      i := AcceptedSet(actions, n - 1, k);
    }
  }

  /** Main result: in every run, a cancellation that was answered with True made its test before the future was
      completed, and the call follows it, if the thread ends at all, if and only if its second statement came
      after the thread's test had missed it. Earlier ones prevent the call. */
  lemma AcceptedCancellation(actions: seq<Action>, k: nat) returns (h: nat, i: nat)
    requires k in At(actions, |actions|).cancels && At(actions, |actions|).cancels[k] == Answered(true)
    ensures h < i < |actions| && TestsAt(actions, h, k) && SetsAt(actions, i, k)
    ensures var s := At(actions, |actions|);
            && (MissedBefore(actions, i) <==> OnItsWay(s.place))
            && (s.ran ==> MissedBefore(actions, i))
            && (s.place.Called? || s.place.Cancelled? || s.place.Died? ==> (s.ran <==> MissedBefore(actions, i)))
  {
    i := AcceptedSet(actions, |actions|, k);
    h := PassedTested(actions, i, k);
    OnItsWayAt(actions, i);
    RanAt(actions, |actions|);
    if MissedBefore(actions, i) {
      StaysOnItsWay(actions, i, |actions|);
    } else {
      OnItsWayStep(At(actions, i), actions[i]);
      NoticedAt(actions, i + 1, |actions|);
    }
  }

  function ToGo(p: Place): nat {
    match p case Completing => 3 case Clearing => 2 case Calling => 1 case _ => 0
  }

  function OwnSteps(actions: seq<Action>, n: nat, m: nat): nat
    requires n <= m <= |actions|
    decreases m - n
  {
    if n == m then 0 else OwnSteps(actions, n, m - 1) + if actions[m - 1].Own? then 1 else 0
  }

  lemma ToGoStep(s: State, a: Action)
    requires OnItsWay(s.place)
    ensures OnItsWay(Do(s, a).place)
    ensures ToGo(Do(s, a).place) == if a.Own? && ToGo(s.place) > 0 then ToGo(s.place) - 1 else ToGo(s.place)
  {}

  /** Nothing can prevent the call any more: it happens at the latest with the thread's third statement. */
  lemma {:induction false} CallIsCertain(actions: seq<Action>, n: nat, m: nat)
    requires n <= m <= |actions| && OnItsWay(At(actions, n).place)
    ensures var k, left := OwnSteps(actions, n, m), ToGo(At(actions, n).place);
            && OnItsWay(At(actions, m).place)
            && ToGo(At(actions, m).place) == (if k < left then left - k else 0)
            && (k >= 3 ==> At(actions, m).place.Called?)
    decreases m - n
  {
    if n < m {
      CallIsCertain(actions, n, m - 1);
      ToGoStep(At(actions, m - 1), actions[m - 1]);
    }
  }

  lemma AtNext(actions: seq<Action>, n: nat)
    requires n < |actions|
    ensures At(actions, n + 1) == Do(At(actions, n), actions[n])
  {}

  lemma BetweenTests(actions: seq<Action>)
    requires |actions| >= 5 && actions[..5] == [Begin, Own, Own, CancelTest(0), CancelSet(0)]
    ensures At(actions, 5) == Initial().(place := Completing, cancelled := true, cancels := map[0 := Answered(true)])
  {
    assert forall i :: 0 <= i < 5 ==> actions[i] == actions[..5][i];
    assert At(actions, 0) == Initial();
    hide At;
    AtNext(actions, 0);
    AtNext(actions, 1);
    AtNext(actions, 2);
    assert At(actions, 3) == Initial().(place := Completing);
    AtNext(actions, 3);
    AtNext(actions, 4);
  }

  /** Such a run: the two statements of `cancel` fall between the thread's test and its setting `completed`. */
  lemma LateCancellation() returns (actions: seq<Action>)
    ensures var s := At(actions, |actions|); s.ran && 0 in s.cancels && s.cancels[0] == Answered(true)
  {
    var first := [Begin, Own, Own, CancelTest(0), CancelSet(0)];
    actions := first + [Own, Own, Own];
    assert actions[..5] == first;
    BetweenTests(actions);
    hide At;
    AtNext(actions, 5);
    AtNext(actions, 6);
    AtNext(actions, 7);
  }
}
