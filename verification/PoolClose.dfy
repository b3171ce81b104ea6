/**
 The two machines of the job pool (src/Pyro4/socketserver/threadpool.py) compared, and what closing the pool does to
 the jobs it has accepted.
 */
module PoolClose {
  import opened Common
  import opened ThreadPool

  // -------------------------------- an atomic operation is a run of statements

  ghost predicate FineReachable(min: nat, max: nat, s: State) {
    exists run :: FineRun(min, max, run) && Last(run) == s
  }

  lemma FineReach(min: nat, max: nat, s: State, a: FineAction) returns (t: State)
    requires FineReachable(min, max, s) && FineEnabled(s, a)
    ensures t == FineApply(min, max, s, a) && FineReachable(min, max, t)
  {
    t := FineApply(min, max, s, a);
    var run :| FineRun(min, max, run) && Last(run) == s;
    var longer := run + [t];
    forall i | 0 < i < |longer| ensures FineNext(min, max, longer[i - 1], longer[i]) {
      if i < |run| {
        assert FineNext(min, max, run[i - 1], run[i]);
      }
    }
    assert FineRun(min, max, longer) && Last(longer) == t;
  }

  lemma TakeWorker(min: nat, max: nat, s: State, w: nat) returns (t: State)
    requires FineReachable(min, max, s) && s.hand.Free? && CoarseEnabled(max, s, Process(w))
    ensures FineReachable(min, max, t)
    ensures t == s.(idle := s.idle - {w}, hand := Chosen(w), workers := s.workers[w := if w in s.workers then s.workers[w] else FRESH])
  {
    if s.idle != {} {
      t := FineReach(min, max, s, Pop(w));
      assert s.workers[w := s.workers[w]] == s.workers;
    } else {
      t := FineReach(min, max, s, Count);
      t := FineReach(min, max, t, Advance);
      t := FineReach(min, max, t, Advance);
      assert t.hand == Creating;
      t := FineReach(min, max, t, Create(w));
      assert s.idle - {w} == s.idle;
    }
  }

  lemma FillSlot(min: nat, max: nat, s: State, w: nat) returns (t: State)
    requires FineReachable(min, max, s) && s.hand == Added(w) && w in s.workers
    ensures FineReachable(min, max, t)
    ensures t == s.(workers := s.workers[w := s.workers[w].(job := Some(s.accepted), event := true)],
                    accepted := s.accepted + 1, hand := Free)
  {
    var x := s.workers[w].(job := Some(s.accepted));
    t := FineReach(min, max, s, Advance);
    assert t == s.(workers := s.workers[w := x], accepted := s.accepted + 1, hand := Filled(w));
    t := FineReach(min, max, t, Advance);
    assert s.workers[w := x][w := x.(event := true)] == s.workers[w := x.(event := true)];
  }

  lemma ProcessIsFine(min: nat, max: nat, s: State, w: nat)
    requires FineReachable(min, max, s) && s.hand.Free? && CoarseEnabled(max, s, Process(w))
    ensures FineReachable(min, max, CoarseApply(min, max, s, Process(w)))
  {
    var x := if w in s.workers then s.workers[w] else FRESH;
    var t := TakeWorker(min, max, s, w);
    t := FineReach(min, max, t, Advance);
    assert t == s.(idle := s.idle - {w}, busy := s.busy + {w}, hand := Added(w), workers := s.workers[w := x]);
    hide FineReachable;
    t := FillSlot(min, max, t, w);
    assert s.workers[w := x][w := x.(job := Some(s.accepted), event := true)]
           == s.workers[w := x.(job := Some(s.accepted), event := true)];
  }

  lemma NotifyDecides(min: nat, max: nat, s: State, w: nat) returns (t: State)
    requires FineReachable(min, max, s) && !s.closed && CanStep(s, w) && s.workers[w].pc.Removing?
    ensures FineReachable(min, max, t)
    ensures t == s.(busy := s.busy - {w},
                    workers := s.workers[w := s.workers[w].(pc := if |s.idle| >= min then Stopping else Keeping)])
  {
    var x := s.workers[w];
    t := FineReach(min, max, s, Own(w));
    assert t == s.(busy := s.busy - {w}, workers := s.workers[w := x.(pc := CheckingClosed)]);
    t := FineReach(min, max, t, Own(w));
    assert t.workers == s.workers[w := x.(pc := CheckingIdle)];
    t := FineReach(min, max, t, Own(w));
  }

  lemma NotifyIsFine(min: nat, max: nat, s: State, w: nat)
    requires FineReachable(min, max, s) && !s.closed && CoarseEnabled(max, s, NotifyDone(w))
    ensures FineReachable(min, max, CoarseApply(min, max, s, NotifyDone(w)))
  {
    var t := NotifyDecides(min, max, s, w);
    hide FineReachable;
    if |s.idle| >= min {
      t := TellSelf(min, max, t, w);
    } else {
      t := FineReach(min, max, t, Own(w));
    }
    assert t.workers == CoarseApply(min, max, s, NotifyDone(w)).workers;
  }

  lemma TellSelf(min: nat, max: nat, s: State, w: nat) returns (t: State)
    requires FineReachable(min, max, s) && w in s.workers && s.workers[w].pc.Stopping?
    ensures FineReachable(min, max, t) && t == s.(workers := s.workers[w := Slot(Waiting, true, None)])
  {
    var x := s.workers[w];
    t := FineReach(min, max, s, Own(w));
    assert t == s.(workers := s.workers[w := x.(pc := Waking, job := None)]);
    t := FineReach(min, max, t, Own(w));
    assert s.workers[w := x.(pc := Waking, job := None)][w := Slot(Waiting, true, None)]
           == s.workers[w := Slot(Waiting, true, None)];
  }

  lemma CoarseStepIsFine(min: nat, max: nat, s: State, a: CoarseAction)
    requires FineReachable(min, max, s) && s.hand.Free? && !s.closed && CoarseEnabled(max, s, a) && !a.Close?
    ensures FineReachable(min, max, CoarseApply(min, max, s, a))
  {
    match a
    case Statement(w) => var t := FineReach(min, max, s, Own(w));
    case NotifyDone(w) => NotifyIsFine(min, max, s, w);
    case Process(w) => ProcessIsFine(min, max, s, w);
  }

  /** So jobs are conserved in the atomic machine too, up to `close`. */
  lemma {:induction false} CoarseRunIsFine(min: nat, max: nat, run: seq<State>)
    requires CoarseRun(min, max, run) && min <= max && !Last(run).closed
    ensures FineReachable(min, max, Last(run))
  {
    if |run| == 1 {
      assert FineRun(min, max, run);
    } else {
      var s := run[|run| - 2];
      assert CoarseNext(min, max, s, Last(run));
      var a :| CoarseEnabled(max, s, a) && Last(run) == CoarseApply(min, max, s, a);
      CoarseRunInvariant(min, max, run[..|run| - 1]);
      CoarseRunIsFine(min, max, run[..|run| - 1]);
      CoarseStepIsFine(min, max, s, a);
    }
  }

  // ------------------------------------------------------- what close drops

  /** In one step: exactly the jobs that are pending are dropped, those that run are not. */
  lemma CloseDropsPending(min: nat, max: nat, s: State)
    requires CoarseOk(min, max, s) && Conserved(s) && !s.closed
    ensures var t := CoarseApply(min, max, s, Close);
            && (Conserved(t) <==> forall w: nat, j: nat :: !Pending(s, w, j))
            && (forall w: nat, j: nat :: !Pending(t, w, j) && (RunBy(t, w, j) <==> RunBy(s, w, j)))
  {
    var t := CoarseApply(min, max, s, Close);
    forall w: nat, j: nat ensures !Pending(t, w, j) && (RunBy(t, w, j) <==> RunBy(s, w, j)) {
      CloseTellsAll(min, max, s);
    }
    if w: nat, j: nat :| Pending(s, w, j) {
      assert Holds(s, w, j);
      forall v: nat ensures !Holds(t, v, j) {
        assert Holds(s, v, j) ==> v == w;
        assert !RunBy(s, w, j);
      }
      assert j < t.accepted && j !in t.finished;
    } else {
      forall w: nat, j: nat ensures Holds(t, w, j) <==> Holds(s, w, j) {}
    }
  }

  /** Afterwards nothing is accepted or called any more, and what runs is finished. */
  lemma ClosedEffect(min: nat, max: nat, s: State, a: CoarseAction)
    requires CoarseOk(min, max, s) && s.closed && CoarseEnabled(max, s, a)
    ensures var t := CoarseApply(min, max, s, a);
            && t.accepted == s.accepted && t.started == s.started && s.finished <= t.finished
            && (forall w: nat, j: nat :: RunBy(t, w, j) ==> RunBy(s, w, j))
            && (forall w: nat, j: nat :: RunBy(s, w, j) ==> RunBy(t, w, j) || j in t.finished)
            && (forall j: nat :: j in t.finished ==> j in s.finished || exists w: nat :: RunBy(s, w, j))
  {
    if a.Statement? {
      assert ToldToStop(s.workers[a.w]);
      if s.workers[a.w].pc.Running? { assert RunBy(s, a.w, s.workers[a.w].pc.n); }
    }
  }

  /** The fate of a job after `close`: where it is at the end of any continuation. */
  ghost predicate Fate(s: State, t: State, j: nat) {
    if j in s.finished || exists w: nat :: RunBy(s, w, j) then j in t.finished || exists w: nat :: RunBy(t, w, j)
    else j !in t.finished && forall w: nat :: !RunBy(t, w, j)
  }

  lemma {:induction false} FateAfterClose(min: nat, max: nat, run: seq<State>, actions: seq<CoarseAction>, j: nat)
    requires Segment(min, max, run, actions) && CoarseOk(min, max, run[0]) && run[0].closed
    ensures CoarseOk(min, max, Last(run)) && Last(run).closed
    ensures Last(run).started == run[0].started && Last(run).accepted == run[0].accepted && Fate(run[0], Last(run), j)
  {
    if actions != [] {
      var n := |actions| - 1;
      FateAfterClose(min, max, run[..n + 1], actions[..n], j);
      ClosedEffect(min, max, run[n], actions[n]);
      CoarseStep(min, max, run[n], actions[n]);
      ClosedStays(min, max, run[n], actions[n]);
    }
  }

  lemma ClosedStays(min: nat, max: nat, s: State, a: CoarseAction)
    requires s.closed && CoarseEnabled(max, s, a)
    ensures CoarseApply(min, max, s, a).closed
  {}

  /** Main result: whatever happens after `close`, of the jobs accepted before it exactly those that were pending,
      in a slot and not yet called, are lost for good: they are never called. Every other one was called and is
      finished or still running. */
  lemma CloseLosesExactlyPending(min: nat, max: nat, run: seq<State>, later: seq<State>, actions: seq<CoarseAction>, j: nat)
    requires CoarseRun(min, max, run) && min <= max && !Last(run).closed
    requires Segment(min, max, later, actions) && later[0] == CoarseApply(min, max, Last(run), Close)
    requires j < Last(run).accepted
    ensures var s, t := Last(run), Last(later);
            if exists w: nat :: Pending(s, w, j) then
              j !in t.started && j !in t.finished && forall w: nat :: !RunBy(t, w, j)
            else
              j in t.started && (j in t.finished || exists w: nat :: RunBy(t, w, j))
  {
    var s := Last(run);
    CoarseRunInvariant(min, max, run);
    CoarseRunIsFine(min, max, run);
    FineReachableInvariant(min, max, s);
    CloseDropsPending(min, max, s);
    CoarseStep(min, max, s, Close);
    FateAfterClose(min, max, later, actions, j);
    PendingOrStarted(s, j);
    hide Conserved, CoarseApply, Segment, CoarseOk;
  }

  lemma FineReachableInvariant(min: nat, max: nat, s: State)
    requires FineReachable(min, max, s)
    ensures Orderly(s) && Conserved(s) && StartedOnce(s) && !s.closed
  {
    var run :| FineRun(min, max, run) && Last(run) == s;
    FineRunInvariant(min, max, run);
  }

  lemma PendingOrStarted(s: State, j: nat)
    requires Conserved(s) && StartedOnce(s) && j < s.accepted
    ensures if exists w: nat :: Pending(s, w, j) then
              j !in s.started && j !in s.finished && forall w: nat :: !RunBy(s, w, j)
            else
              j in s.started && (j in s.finished || exists w: nat :: RunBy(s, w, j))
  {
    if w: nat :| Pending(s, w, j) {
      assert Holds(s, w, j);
    } else if j !in s.finished {
      var w: nat :| Holds(s, w, j);
      assert RunBy(s, w, j);
    }
  }
}
