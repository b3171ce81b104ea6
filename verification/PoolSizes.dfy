/**
 The sizes of the job pool when the statements of its threads interleave (src/Pyro4/socketserver/threadpool.py):
 within their bounds when certain statements do not overlap, and without any bound otherwise.
 */
module PoolSizes {
  import opened Common
  import opened ThreadPool
  import opened PoolClose

  /** In `notify_done`, out of `busy` and possibly on the way to `idle`. */
  predicate Returning(pc: Pc) { pc.CheckingClosed? || pc.CheckingIdle? || pc.Keeping? }

  predicate Deciding(pc: Pc) { pc.CheckingIdle? || pc.Keeping? }

  ghost predicate Member(s: State, w: nat) {
    w in s.workers && (w in s.idle || w in s.busy || InHand(s, w) || Returning(s.workers[w].pc))
  }

  ghost function Members(s: State): set<nat> {
    set w | w in s.workers && Member(s, w)
  }

  ghost function Keepers(s: State): set<nat> {
    set w | w in s.workers && s.workers[w].pc.Keeping?
  }

  lemma MembersOwn(min: nat, s: State, w: nat)
    requires Orderly(s) && !s.closed && CanStep(s, w)
    ensures Members(WorkerStep(min, s, w)) ==
            if s.workers[w].pc.CheckingIdle? && |s.idle| >= min then Members(s) - {w} else Members(s)
  {
    var t := WorkerStep(min, s, w);
    assert SlotOk(s, w, s.workers[w]);
    hide Orderly, SlotOk;
    forall v | v in s.workers && v != w ensures Member(t, v) <==> Member(s, v) {}
    hide NextSlot, CanStep;
  }

  lemma MembersOther(min: nat, max: nat, s: State, a: FineAction)
    requires Orderly(s) && FineEnabled(s, a) && !a.Own?
    ensures Members(FineApply(min, max, s, a)) == if a.Create? then Members(s) + {a.w} else Members(s)
    ensures a.Create? ==> a.w !in Members(s)
  {
    var t := FineApply(min, max, s, a);
    if a.Create? {
      forall v | v in s.workers ensures Member(t, v) <==> Member(s, v) {}
    } else if a.Advance? {
      forall v | v in s.workers ensures Member(t, v) <==> Member(s, v) {
        assert SlotOk(s, v, s.workers[v]);
      }
    }
  }

  /** What each statement does to the size of the pool: only starting a worker adds one, and only telling one to
      stop removes one. */
  lemma MembersStep(min: nat, max: nat, s: State, a: FineAction)
    requires Orderly(s) && !s.closed && FineEnabled(s, a)
    ensures Members(FineApply(min, max, s, a)) ==
            if a.Create? then Members(s) + {a.w}
            else if a.Own? && s.workers[a.w].pc.CheckingIdle? && |s.idle| >= min then Members(s) - {a.w}
            else Members(s)
    ensures a.Create? ==> a.w !in Members(s)
  {
    hide Members;
    if a.Own? {
      MembersOwn(min, s, a.w);
    } else {
      MembersOther(min, max, s, a);
    }
  }

  /** No worker is in `notify_done` when the dispatcher starts to count, and no two decide at once. */
  ghost predicate Calm(s: State) {
    && (s.hand.Counting? ==> forall w :: w in s.workers ==> !Returning(s.workers[w].pc))
    && (forall v, w :: v in s.workers && w in s.workers && Deciding(s.workers[v].pc) && Deciding(s.workers[w].pc) ==> v == w)
  }

  ghost predicate Bounded(min: nat, max: nat, s: State) {
    && |s.idle| + |Keepers(s)| <= min
    && |Members(s)| <= max
    && (s.hand.Counted? ==> |Members(s)| <= s.hand.n + |s.idle|)
    && (s.hand.Creating? ==> |Members(s)| < max)
  }

  lemma CountedMembers(s: State)
    requires Orderly(s) && s.hand.Counting? && Calm(s)
    ensures |Members(s)| <= |s.busy| + |s.idle|
  {
    assert Members(s) == s.busy + s.idle;
    DisjointSize(s.busy, s.idle);
  }

  lemma DisjointSize(a: set<nat>, b: set<nat>)
    ensures |a + b| <= |a| + |b|
  {
    assert a + b == a + (b - a);
    SubsetSize(b - a, b);
  }

  lemma {:induction false} SubsetSize(a: set<nat>, b: set<nat>)
    requires a <= b
    ensures |a| <= |b|
    decreases a
  {
    if w :| w in a {
      SubsetSize(a - {w}, b - {w});
    }
  }

  lemma KeepersChange(min: nat, s: State, w: nat)
    requires CanStep(s, w)
    ensures Keepers(WorkerStep(min, s, w)) ==
            if s.workers[w].pc.Keeping? then Keepers(s) - {w}
            else if s.workers[w].pc.CheckingIdle? && |s.idle| < min then Keepers(s) + {w}
            else Keepers(s)
  {
    var t := WorkerStep(min, s, w);
    assert t.workers == s.workers[w := t.workers[w]];
    assert t.workers[w].pc.Keeping? <==> s.workers[w].pc.CheckingIdle? && |s.idle| < min;
    hide WorkerStep, NextSlot, CanStep;
  }

  lemma KeepersOwn(min: nat, s: State, w: nat)
    requires Orderly(s) && Calm(s) && !s.closed && CanStep(s, w) && |s.idle| + |Keepers(s)| <= min
    ensures var t := WorkerStep(min, s, w); |t.idle| + |Keepers(t)| <= min
  {
    KeepersChange(min, s, w);
    assert SlotOk(s, w, s.workers[w]);
    hide Orderly, SlotOk, CanStep;
    var pc := s.workers[w].pc;
    if pc.CheckingIdle? {
      assert Keepers(s) == {};
    } else {
      hide Calm;
      assert pc.Keeping? ==> w in Keepers(s);
      hide Keepers;
    }
  }

  lemma KeepersStep(min: nat, max: nat, s: State, a: FineAction)
    requires Orderly(s) && Calm(s) && !s.closed && FineEnabled(s, a) && |s.idle| + |Keepers(s)| <= min
    ensures var t := FineApply(min, max, s, a); |t.idle| + |Keepers(t)| <= min
  {
    if a.Own? {
      KeepersOwn(min, s, a.w);
    } else {
      var t := FineApply(min, max, s, a);
      assert a.Advance? && s.hand.Added? ==> SlotOk(s, s.hand.w, s.workers[s.hand.w]);
      hide Calm, Orderly;
      assert Keepers(t) == Keepers(s);
    }
  }

  lemma BoundedOwn(min: nat, max: nat, s: State, w: nat)
    requires Orderly(s) && Calm(s) && !s.closed && CanStep(s, w) && Bounded(min, max, s)
    ensures Bounded(min, max, WorkerStep(min, s, w))
  {
    var t := WorkerStep(min, s, w);
    MembersOwn(min, s, w);
    KeepersOwn(min, s, w);
    hide Members, Keepers, Calm, Orderly, NextSlot, CanStep;
    SubsetSize(Members(t), Members(s));
    SubsetSize(s.idle, t.idle);
  }

  lemma OtherChange(min: nat, max: nat, s: State, a: FineAction)
    requires FineEnabled(s, a) && !a.Own?
    ensures var t := FineApply(min, max, s, a);
            && (t.idle == s.idle || (s.hand.Free? && t.idle <= s.idle))
            && (if a.Create? then s.hand.Creating? && t.hand.Chosen?
                else if a.Pop? || a.Count? then Holding(t.hand) || t.hand.Counting?
                else t.hand == match s.hand
                               case Counting => Counted(|s.busy|)
                               case Counted(n) => if n + |s.idle| < max then Creating else Free
                               case Chosen(w) => Added(w)
                               case Added(w) => Filled(w)
                               case _ => Free)
  {}

  lemma BoundedOther(min: nat, max: nat, s: State, a: FineAction)
    requires Orderly(s) && Calm(s) && !s.closed && FineEnabled(s, a) && !a.Own? && Bounded(min, max, s)
    ensures Bounded(min, max, FineApply(min, max, s, a))
  {
    MembersOther(min, max, s, a);
    KeepersStep(min, max, s, a);
    OtherChange(min, max, s, a);
    if s.hand.Counting? {
      CountedMembers(s);
    }
    hide Members, Keepers, Calm, Orderly, FineApply, FineEnabled;
  }

  lemma BoundedStep(min: nat, max: nat, s: State, a: FineAction)
    requires Orderly(s) && Calm(s) && !s.closed && FineEnabled(s, a) && Bounded(min, max, s)
    ensures Bounded(min, max, FineApply(min, max, s, a))
  {
    if a.Own? {
      BoundedOwn(min, max, s, a.w);
    } else {
      BoundedOther(min, max, s, a);
    }
  }

  lemma {:induction false} BoundedRun(min: nat, max: nat, run: seq<State>)
    requires FineRun(min, max, run) && min <= max && forall i :: 0 <= i < |run| ==> Calm(run[i])
    ensures Bounded(min, max, Last(run))
  {
    if |run| == 1 {
      assert Members(run[0]) == run[0].idle && Keepers(run[0]) == {};
    } else {
      var s, t := run[|run| - 2], Last(run);
      assert FineNext(min, max, s, t);
      BoundedRun(min, max, run[..|run| - 1]);
      FineRunInvariant(min, max, run[..|run| - 1]);
      var a :| FineEnabled(s, a) && t == FineApply(min, max, s, a);
      BoundedStep(min, max, s, a);
    }
  }

  /** Main result: statement by statement the sizes stay within their bounds in every run in which the dispatcher
      does not start to count while a worker is in `notify_done`, and no two workers decide at once. */
  lemma SizesWhenCalm(min: nat, max: nat, run: seq<State>)
    requires FineRun(min, max, run) && min <= max && forall i :: 0 <= i < |run| ==> Calm(run[i])
    ensures var s := Last(run); s.idle !! s.busy && |s.idle| <= min && |s.idle| + |s.busy| <= max
  {
    BoundedRun(min, max, run);
    FineRunInvariant(min, max, run);
    var s := Last(run);
    forall w | w in s.idle + s.busy ensures !(w in s.idle && w in s.busy) && w in Members(s) {
      assert SlotOk(s, w, s.workers[w]);
    }
    assert |s.idle + s.busy| == |s.idle| + |s.busy|;
    SubsetSize(s.idle + s.busy, Members(s));
  }

  // ------------------------------------------------- and no bound otherwise

  /** Every worker is idle or about to become idle. */
  ghost predicate Parked(min: nat, s: State) {
    && s.hand.Free? && !s.closed && s.busy == {} && s.idle <= s.workers.Keys && |s.idle| <= min
    && forall w :: w in s.workers ==> s.workers[w] == if w in s.idle then FRESH else Slot(Keeping, false, None)
  }

  lemma {:induction false} Unused(ids: set<nat>) returns (bound: nat)
    ensures forall w :: w in ids ==> w < bound
  {
    bound := 0;
    if w: nat :| w in ids {
      var rest := Unused(ids - {w});
      assert forall v :: v in ids ==> v == w || v in ids - {w};
      bound := if w < rest then rest else w + 1;
    }
  }

  lemma OwnStep(min: nat, max: nat, s: State, w: nat, x: Slot) returns (t: State)
    requires FineReachable(min, max, s) && CanStep(s, w)
    requires NextSlot(s.workers[w], s.closed, |s.idle| >= min) == x
    requires !s.workers[w].pc.Keeping? && !s.workers[w].pc.Removing? && !s.workers[w].pc.Calling? && !s.workers[w].pc.Running?
    ensures FineReachable(min, max, t) && t == s.(workers := s.workers[w := x])
  {
    t := FineReach(min, max, s, Own(w));
  }

  lemma PicksUpJob(min: nat, max: nat, s: State, w: nat, j: nat) returns (t: State)
    requires FineReachable(min, max, s) && w in s.workers && s.workers[w] == Slot(Waiting, true, Some(j))
    ensures FineReachable(min, max, t) && t == s.(workers := s.workers[w := Slot(Testing, false, Some(j))])
  {
    t := OwnStep(min, max, s, w, Slot(Clearing, true, Some(j)));
    hide FineReachable;
    t := OwnStep(min, max, t, w, Slot(Testing, false, Some(j)));
    hide NextSlot, CanStep;
    assert s.workers[w := Slot(Clearing, true, Some(j))][w := Slot(Testing, false, Some(j))]
           == s.workers[w := Slot(Testing, false, Some(j))];
  }

  /** A worker that has a job runs it. */
  lemma RunsJob(min: nat, max: nat, s: State, w: nat, j: nat) returns (t: State)
    requires FineReachable(min, max, s) && w in s.workers && s.workers[w] == Slot(Waiting, true, Some(j))
    ensures FineReachable(min, max, t)
    ensures t == s.(workers := s.workers[w := Slot(Removing, false, None)], started := s.started + [j], finished := s.finished + [j])
  {
    t := PicksUpJob(min, max, s, w, j);
    hide FineReachable;
    t := OwnStep(min, max, t, w, Slot(Calling, false, Some(j)));
    hide NextSlot, CanStep;
    assert t == s.(workers := s.workers[w := Slot(Calling, false, Some(j))]);
    t := CallsJob(min, max, t, w, j);
    assert s.workers[w := Slot(Calling, false, Some(j))][w := Slot(Removing, false, None)]
           == s.workers[w := Slot(Removing, false, None)];
  }

  lemma CallsJob(min: nat, max: nat, s: State, w: nat, j: nat) returns (t: State)
    requires FineReachable(min, max, s) && w in s.workers && s.workers[w] == Slot(Calling, false, Some(j))
    ensures FineReachable(min, max, t)
    ensures t == s.(workers := s.workers[w := Slot(Removing, false, None)], started := s.started + [j], finished := s.finished + [j])
  {
    t := FineReach(min, max, s, Own(w));
    assert t == s.(workers := s.workers[w := Slot(Running(j), false, Some(j))], started := s.started + [j]);
    t := FineReach(min, max, t, Own(w));
    assert t == s.(workers := s.workers[w := Slot(Resetting, false, Some(j))], started := s.started + [j], finished := s.finished + [j]);
    t := OwnStep(min, max, t, w, Slot(Removing, false, None));
  }

  /** A worker that has run its job stops just before it becomes idle. */
  lemma ParkAfterJob(min: nat, max: nat, s: State, w: nat, j: nat) returns (t: State)
    requires FineReachable(min, max, s) && !s.closed && |s.idle| < min
    requires w in s.workers && s.workers[w] == Slot(Waiting, true, Some(j))
    ensures FineReachable(min, max, t)
    ensures t.idle == s.idle && t.busy == s.busy - {w} && t.workers == s.workers[w := Slot(Keeping, false, None)]
    ensures t.hand == s.hand && t.closed == s.closed
  {
    t := RunsJob(min, max, s, w, j);
    t := NotifyDecides(min, max, t, w);
    assert s.workers[w := Slot(Removing, false, None)][w := Slot(Keeping, false, None)]
           == s.workers[w := Slot(Keeping, false, None)];
  }

  lemma OneMoreParked(min: nat, s: State, t: State, w: nat)
    requires Parked(min, s) && (w in s.idle || (s.idle == {} && w !in s.workers))
    requires t.workers == s.workers[w := Slot(Keeping, false, None)] && t.idle == s.idle - {w} && t.busy == {}
    requires t.hand == s.hand && t.closed == s.closed
    ensures Parked(min, t) && |t.workers.Keys - t.idle| == |s.workers.Keys - s.idle| + 1
  {
    assert t.workers.Keys - t.idle == s.workers.Keys - s.idle + {w};
  }

  lemma Candidate(s: State) returns (w: nat)
    ensures w in s.idle || (s.idle == {} && w !in s.workers)
  {
    if s.idle != {} {
      w :| w in s.idle;
    } else {
      w := Unused(s.workers.Keys);
    }
  }

  lemma GivesJob(min: nat, max: nat, s: State, w: nat) returns (t: State)
    requires FineReachable(min, max, s) && Parked(min, s) && 1 <= min <= max
    requires w in s.idle || (s.idle == {} && w !in s.workers)
    ensures FineReachable(min, max, t) && |t.idle| < min
    ensures t == s.(idle := s.idle - {w}, busy := {w}, accepted := s.accepted + 1,
                    workers := s.workers[w := Slot(Waiting, true, Some(s.accepted))])
  {
    ProcessIsFine(min, max, s, w);
    t := CoarseApply(min, max, s, Process(w));
    hide FineReachable;
  }

  /** One more worker stops just before it becomes idle. */
  lemma ParkOne(min: nat, max: nat, s: State) returns (t: State)
    requires FineReachable(min, max, s) && Parked(min, s) && 1 <= min <= max
    ensures FineReachable(min, max, t) && Parked(min, t)
    ensures |t.workers.Keys - t.idle| == |s.workers.Keys - s.idle| + 1
  {
    var w := Candidate(s);
    t := GivesJob(min, max, s, w);
    t := ParkAfterJob(min, max, t, w, s.accepted);
    hide FineReachable;
    assert s.hand == t.hand && s.closed == t.closed by { assert Parked(min, s); }
    hide Parked;
    OneMoreParked(min, s, t, w);
  }

  lemma {:induction false} ParkMany(min: nat, max: nat, s: State, n: nat) returns (t: State)
    requires FineReachable(min, max, s) && Parked(min, s) && 1 <= min <= max
    ensures FineReachable(min, max, t) && Parked(min, t) && |t.workers.Keys - t.idle| >= n
  {
    t := s;
    if n > 0 {
      t := ParkMany(min, max, s, n - 1);
      t := ParkOne(min, max, t);
    }
  }

  lemma {:induction false} AllBecomeIdle(min: nat, max: nat, s: State, todo: set<nat>) returns (t: State)
    requires FineReachable(min, max, s) && forall w :: w in todo ==> w in s.workers && s.workers[w] == Slot(Keeping, false, None)
    ensures FineReachable(min, max, t) && s.idle + todo <= t.idle
    decreases todo
  {
    t := s;
    if w: nat :| w in todo {
      t := FineReach(min, max, s, Own(w));
      t := AllBecomeIdle(min, max, t, todo - {w});
    }
  }

  lemma {:induction false} FirstIds(n: nat) returns (ids: set<nat>)
    ensures |ids| == n && forall w :: w in ids ==> w < n
  {
    ids := {};
    if n > 0 {
      ids := FirstIds(n - 1);
      ids := ids + {n - 1};
    }
  }

  /** Without that there is no bound at all: workers that have found too few idle ones can be suspended in any
      number before they become idle. */
  lemma NoBoundOtherwise(min: nat, max: nat, n: nat)
    requires 1 <= min <= max
    ensures exists run :: FineRun(min, max, run) && |Last(run).idle| >= n
  {
    var ids := FirstIds(min);
    var s := State(map w | w in ids :: FRESH, ids, {}, false, Free, 0, [], []);
    assert s.workers.Keys == ids;
    assert FineRun(min, max, [s]) && Last([s]) == s;
    var t := ParkMany(min, max, s, n);
    var u := AllBecomeIdle(min, max, t, t.workers.Keys - t.idle);
    SubsetSize(t.workers.Keys - t.idle, u.idle);
    var run :| FineRun(min, max, run) && Last(run) == u;
  }
}
