/**
 The job pool of the threaded socket server (src/Pyro4/socketserver/threadpool.py).

 `Worker` and `Pool` are the code. After them come two state machines over the same states: `Fine`, in which
 the dispatcher and the workers interleave statement by statement, and `Coarse`, in which `Pool.process`,
 `Pool.notify_done` and `Pool.close` (up to setting `closed`) are atomic. The lock that would make them so is
 created but never taken. That no job is lost or run twice before `close` holds for `Fine`; the size bounds hold
 for `Coarse`, and for the runs of `Fine` in which certain statements do not overlap, but not for all of them.
 */
module ThreadPool {
  import opened Common

  /** What `Pool.process` does with a job. */
  datatype Admission = PoolClosed | UseIdle | Spawn | NoFreeWorkers

  function Admit(closed: bool, idle: nat, busy: nat, max: nat): Admission {
    if closed then PoolClosed
    else if idle > 0 then UseIdle
    else if busy + idle < max then Spawn
    else NoFreeWorkers
  }

  /** Whether `Pool.notify_done` tells the worker to stop instead of keeping it. */
  predicate Surplus(closed: bool, idle: nat, min: nat) {
    closed || idle >= min
  }

  // ---------------------------------------------------------------- the code

  class Worker<J> {
    var jobAvailable: bool
    var job: Option<J>

    constructor ()
      ensures !jobAvailable && job == None
    {
      jobAvailable, job := false, None;
    }

    method Process(job: Option<J>)
      modifies this
      ensures this.job == job && jobAvailable
    {
      this.job := job;
      jobAvailable := true;
    }
  }

  ghost predicate Sizes<W>(idle: set<W>, busy: set<W>, min: nat, max: nat) {
    && idle !! busy
    && |idle| <= min
    && |idle| + |busy| <= max
  }

  class Pool<J> {
    const min: nat
    const max: nat
    var idle: set<Worker<J>>
    var busy: set<Worker<J>>
    var closed: bool

    ghost predicate Valid()
      reads this
    {
      && 1 <= min <= max
      && Sizes(idle, busy, min, max)
    }

    constructor (min: nat, max: nat)
      requires 1 <= min <= max
      ensures Valid() && this.min == min && this.max == max
      ensures !closed && busy == {} && |idle| == min && fresh(idle)
      ensures forall w :: w in idle ==> !w.jobAvailable && w.job == None
    {
      this.min, this.max := min, max;
      idle, busy, closed := {}, {}, false;
      new;
      for i := 0 to min
        invariant |idle| == i && fresh(idle) && busy == {} && !closed
        invariant forall w :: w in idle ==> !w.jobAvailable && w.job == None
      {
        var worker := new Worker<J>();
        idle := idle + {worker};
      }
    }

    method Process(job: J) returns (r: Admission, ghost w: Worker?<J>)
      requires Valid()
      modifies this, idle
      ensures Valid() && closed == old(closed)
      ensures r == Admit(old(closed), |old(idle)|, |old(busy)|, max)
      ensures r == NoFreeWorkers <==> !closed && |old(busy)| == max
      ensures r.UseIdle? ==> w in old(idle) && idle == old(idle) - {w}
      ensures r.Spawn? ==> w != null && fresh(w) && idle == old(idle)
      ensures r.UseIdle? || r.Spawn? ==> busy == old(busy) + {w} && w.job == Some(job) && w.jobAvailable
      ensures r.PoolClosed? || r.NoFreeWorkers? ==> w == null && idle == old(idle) && busy == old(busy)
      ensures forall v :: v in old(idle) && v != w ==> unchanged(v)
    {
      w := null;
      if closed { return PoolClosed, null; }
      var worker;
      if idle != {} {
        r := UseIdle;
        worker :| worker in idle;
        idle := idle - {worker};
      } else if |busy| + |idle| < max {
        r := Spawn;
        worker := new Worker<J>();
      } else {
        return NoFreeWorkers, null;
      }
      busy := busy + {worker};
      worker.Process(Some(job));
      w := worker;
    }

    /** Only a worker that is not the pool's can take it over its bounds. */
    method NotifyDone(worker: Worker<J>)
      requires Valid()
      modifies this, worker
      ensures closed == old(closed)
      ensures Valid() <==> || Surplus(closed, |old(idle)|, min) || worker in old(busy) + old(idle)
                           || |old(idle)| + |old(busy)| < max
      ensures busy == old(busy) - {worker}
      ensures Surplus(closed, |old(idle)|, min) ==> idle == old(idle) && worker.job == None && worker.jobAvailable
      ensures !Surplus(closed, |old(idle)|, min) ==> idle == old(idle) + {worker} && unchanged(worker)
    {
      if worker in busy {
        busy := busy - {worker};
      }
      if closed {
        worker.Process(None);
        return;
      }
      if |idle| >= min {
        worker.Process(None);
      } else {
        idle := idle + {worker};
      }
    }

    /** `close` up to setting `closed`. */
    method Close()
      requires Valid()
      modifies this`closed, idle, busy
      ensures Valid() && closed
      ensures !old(closed) ==> forall w :: w in idle + busy ==> w.job == None && w.jobAvailable
      ensures old(closed) ==> forall w :: w in idle + busy ==> unchanged(w)
    {
      if !closed {
        TellAll(busy);
        TellAll(idle);
        closed := true;
      }
    }

    method TellAll(workers: set<Worker<J>>)
      modifies workers
      ensures forall w :: w in workers ==> w.job == None && w.jobAvailable
    {
      var todo := workers;
      while todo != {}
        invariant todo <= workers
        invariant forall w :: w in workers - todo ==> w.job == None && w.jobAvailable
        decreases |todo|
      {
        var w :| w in todo;
        w.Process(None);
        todo := todo - {w};
      }
    }
  }

  // ------------------------------------------------------ states and steps

  /** Where a worker is: one case per statement of `Worker.run`, then those of `Pool.notify_done`. Jobs are
      numbered in the order in which `Pool.process` accepts them. */
  datatype Pc =
    | Waiting | Clearing | Testing | Calling | Running(n: nat) | Resetting
    | Removing | CheckingClosed | CheckingIdle | Stopping | Waking | Keeping
    | Exited

  datatype Slot = Slot(pc: Pc, event: bool, job: Option<nat>)

  /** Where the dispatcher is in `Pool.process`: it may have found no idle worker, then read the size of `busy`,
      then decided to start a worker; or it may have one in hand. */
  datatype Hand =
    | Free | Counting | Counted(n: nat) | Creating
    | Chosen(w: nat) | Added(w: nat) | Filled(w: nat)

  predicate Holding(h: Hand) { h.Chosen? || h.Added? || h.Filled? }

  datatype State = State(
    workers: map<nat, Slot>,
    idle: set<nat>,
    busy: set<nat>,
    closed: bool,
    hand: Hand,
    accepted: nat,
    started: seq<nat>,
    finished: seq<nat>)

  const FRESH := Slot(Waiting, false, None)

  ghost predicate Init(min: nat, s: State) {
    && s.workers.Keys == s.idle && |s.idle| == min && s.busy == {}
    && (forall w :: w in s.workers ==> s.workers[w] == FRESH)
    && !s.closed && s.hand == Free && s.accepted == 0 && s.started == [] && s.finished == []
  }

  /** The worker's next statement can be executed: only waiting for the event blocks. */
  ghost predicate CanStep(s: State, w: nat) {
    w in s.workers && !s.workers[w].pc.Exited? && (s.workers[w].pc.Waiting? ==> s.workers[w].event)
  }

  /** What one statement does to the worker itself; `full`: the pool has its minimum of idle workers. */
  function NextSlot(x: Slot, closed: bool, full: bool): Slot {
    match x.pc
    case Waiting => x.(pc := Clearing)
    case Clearing => x.(pc := Testing, event := false)
    case Testing => x.(pc := if x.job == None then Exited else Calling)
    // a job that was taken away in between is called all the same, which only logs an error
    case Calling => x.(pc := if x.job == None then Resetting else Running(x.job.value))
    case Running(n) => x.(pc := Resetting)
    case Resetting => x.(pc := Removing, job := None)
    case Removing => x.(pc := CheckingClosed)
    case CheckingClosed => x.(pc := if closed then Stopping else CheckingIdle)
    case CheckingIdle => x.(pc := if full then Stopping else Keeping)
    case Stopping => x.(pc := Waking, job := None)
    case Waking => x.(pc := Waiting, event := true)
    case Keeping => x.(pc := Waiting)
    case Exited => x
  }

  /** One statement of worker `w`. */
  ghost function WorkerStep(min: nat, s: State, w: nat): State
    requires CanStep(s, w)
  {
    var x := s.workers[w];
    s.(workers := s.workers[w := NextSlot(x, s.closed, |s.idle| >= min)],
       idle := if x.pc.Keeping? then s.idle + {w} else s.idle,
       busy := if x.pc.Removing? then s.busy - {w} else s.busy,
       started := if x.pc.Calling? && x.job.Some? then s.started + [x.job.value] else s.started,
       finished := if x.pc.Running? then s.finished + [x.pc.n] else s.finished)
  }

  datatype FineAction =
    | Own(w: nat)       // a worker's next statement
    | Pop(w: nat)       // the dispatcher takes an idle worker
    | Count             // or finds none
    | Create(w: nat)    // and starts a new one
    | Advance           // the dispatcher's next statement

  ghost predicate FineEnabled(s: State, a: FineAction) {
    match a
    case Own(w) => CanStep(s, w)
    case Pop(w) => s.hand.Free? && w in s.idle
    case Count => s.hand.Free? && s.idle == {}
    case Create(w) => s.hand.Creating? && w !in s.workers
    case Advance => s.hand.Counting? || s.hand.Counted? || (Holding(s.hand) && s.hand.w in s.workers)
  }

  ghost function FineApply(min: nat, max: nat, s: State, a: FineAction): State
    requires FineEnabled(s, a)
  {
    match a
    case Own(w) => WorkerStep(min, s, w)
    case Pop(w) => s.(idle := s.idle - {w}, hand := Chosen(w))
    case Count => s.(hand := Counting)
    case Create(w) => s.(workers := s.workers[w := FRESH], hand := Chosen(w))
    case Advance =>
      (match s.hand
       case Counting => s.(hand := Counted(|s.busy|))
       case Counted(n) => s.(hand := if n + |s.idle| < max then Creating else Free)
       case Chosen(w) => s.(busy := s.busy + {w}, hand := Added(w))
       case Added(w) =>
         s.(workers := s.workers[w := s.workers[w].(job := Some(s.accepted))], accepted := s.accepted + 1, hand := Filled(w))
       case Filled(w) => s.(workers := s.workers[w := s.workers[w].(event := true)], hand := Free))
  }

  ghost predicate FineNext(min: nat, max: nat, s: State, t: State) {
    exists a :: FineEnabled(s, a) && t == FineApply(min, max, s, a)
  }

  /** A run of the pool before `close`. */
  ghost predicate FineRun(min: nat, max: nat, run: seq<State>) {
    && run != [] && Init(min, run[0])
    && forall i :: 0 < i < |run| ==> FineNext(min, max, run[i - 1], run[i])
  }

  // ------------------------------------------- job conservation, statement by statement

  /** The job in the slot, not called yet. */
  function PendingJob(x: Slot): Option<nat> {
    if x.pc.Waiting? || x.pc.Clearing? || x.pc.Testing? || x.pc.Calling? then x.job else None
  }

  function RunningJob(x: Slot): Option<nat> {
    if x.pc.Running? then Some(x.pc.n) else None
  }

  ghost predicate Pending(s: State, w: nat, j: nat) {
    w in s.workers && PendingJob(s.workers[w]) == Some(j)
  }

  ghost predicate RunBy(s: State, w: nat, j: nat) {
    w in s.workers && RunningJob(s.workers[w]) == Some(j)
  }

  ghost predicate Holds(s: State, w: nat, j: nat) {
    Pending(s, w, j) || RunBy(s, w, j)
  }

  ghost predicate InHand(s: State, w: nat) {
    Holding(s.hand) && s.hand.w == w
  }

  /** The slot of one worker: nobody but the dispatcher touches it while it is idle or in hand, and nobody but
      the worker itself otherwise. */
  ghost predicate SlotOk(s: State, w: nat, x: Slot) {
    if w in s.idle then x == FRESH && w !in s.busy && !InHand(s, w)
    else if InHand(s, w) then
      && x == FRESH.(job := x.job)
      && (if s.hand.Filled? then x.job.Some? else x.job == None)
      && (w in s.busy <==> !s.hand.Chosen?)
    else
      match x.pc
      case Waiting => x.event && (x.job.Some? <==> w in s.busy)
      case Clearing => x.job.Some? <==> w in s.busy
      case Testing => !x.event && (x.job.Some? <==> w in s.busy)
      case Calling => !x.event && x.job.Some? && w in s.busy
      case Running(n) => !x.event && w in s.busy
      case Resetting => !x.event && w in s.busy
      case Removing => !x.event && w in s.busy && x.job == None
      case Exited => w !in s.busy && x.job == None
      case _ => !x.event && w !in s.busy && x.job == None
  }

  ghost predicate Orderly(s: State) {
    && s.idle <= s.workers.Keys && s.busy <= s.workers.Keys
    && (Holding(s.hand) ==> s.hand.w in s.workers)
    && (forall w :: w in s.workers ==> SlotOk(s, w, s.workers[w]))
  }

  lemma OrderlyOwn(min: nat, s: State, w: nat)
    requires Orderly(s) && CanStep(s, w)
    ensures Orderly(WorkerStep(min, s, w))
    ensures w !in s.idle && !InHand(s, w)
  {
    var t := WorkerStep(min, s, w);
    assert SlotOk(s, w, s.workers[w]);
    assert SlotOk(t, w, t.workers[w]);
    forall v | v in t.workers && v != w ensures SlotOk(t, v, t.workers[v]) {
      assert SlotOk(s, v, s.workers[v]);
    }
  }

  lemma OrderlyStep(min: nat, max: nat, s: State, a: FineAction)
    requires Orderly(s) && FineEnabled(s, a)
    ensures Orderly(FineApply(min, max, s, a))
  {
    if a.Own? {
      OrderlyOwn(min, s, a.w);
    } else {
      var t := FineApply(min, max, s, a);
      forall v | v in t.workers ensures SlotOk(t, v, t.workers[v]) {
        assert v in s.workers ==> SlotOk(s, v, s.workers[v]);
      }
    }
  }

  /** All a step can do to jobs: nothing, accept the next one into an empty slot, start a pending one, or finish
      a running one. */
  datatype Effect = Nothing | Accept(w: nat) | Start(w: nat) | Finish(w: nat)

  ghost predicate Does(s: State, t: State, e: Effect) {
    && s.workers.Keys <= t.workers.Keys
    && (forall v :: v in t.workers && v !in s.workers ==> t.workers[v] == FRESH)
    && (forall v :: v in s.workers && (e.Nothing? || v != e.w) ==>
          PendingJob(t.workers[v]) == PendingJob(s.workers[v]) && RunningJob(t.workers[v]) == RunningJob(s.workers[v]))
    && (!e.Accept? ==> t.accepted == s.accepted)
    && (!e.Start? ==> t.started == s.started)
    && (!e.Finish? ==> t.finished == s.finished)
    && (!e.Nothing? ==>
          && e.w in s.workers
          && var x, y := s.workers[e.w], t.workers[e.w];
          match e
          case Accept(w) =>
            && PendingJob(x) == None && RunningJob(x) == None && PendingJob(y) == Some(s.accepted) && RunningJob(y) == None
            && t.accepted == s.accepted + 1
          case Start(w) =>
            && PendingJob(x).Some? && RunningJob(x) == None && PendingJob(y) == None && RunningJob(y) == PendingJob(x)
            && t.started == s.started + [PendingJob(x).value]
          case Finish(w) =>
            && RunningJob(x).Some? && PendingJob(x) == None && PendingJob(y) == None && RunningJob(y) == None
            && t.finished == s.finished + [RunningJob(x).value])
  }

  lemma OwnEffect(min: nat, s: State, w: nat) returns (e: Effect)
    requires CanStep(s, w) && SlotOk(s, w, s.workers[w])
    ensures Does(s, WorkerStep(min, s, w), e)
  {
    var x := s.workers[w];
    e := if x.pc.Calling? && x.job.Some? then Start(w) else if x.pc.Running? then Finish(w) else Nothing;
  }

  lemma StepEffect(min: nat, max: nat, s: State, a: FineAction) returns (e: Effect)
    requires Orderly(s) && FineEnabled(s, a)
    ensures Does(s, FineApply(min, max, s, a), e)
  {
    if a.Own? {
      e := OwnEffect(min, s, a.w);
    } else {
      assert a.Advance? && Holding(s.hand) ==> SlotOk(s, s.hand.w, s.workers[s.hand.w]);
      e := if a.Advance? && s.hand.Added? then Accept(s.hand.w) else Nothing;
    }
  }

  /** Every accepted job is in exactly one place, and is there once. */
  ghost predicate Conserved(s: State) {
    && (forall w: nat, j: nat :: Holds(s, w, j) ==> j < s.accepted && j !in s.finished)
    && (forall v: nat, w: nat, j: nat :: Holds(s, v, j) && Holds(s, w, j) ==> v == w)
    && (forall j: nat :: j < s.accepted && j !in s.finished ==> exists w :: Holds(s, w, j))
    && (forall j: nat :: j in s.finished ==> j < s.accepted)
    && Distinct(s.finished)
  }

  /** A pending job has not been called, a running or finished one has been called once. */
  ghost predicate StartedOnce(s: State) {
    && Distinct(s.started)
    && (forall j: nat :: j in s.started ==> j < s.accepted)
    && (forall w: nat, j: nat :: Pending(s, w, j) ==> j !in s.started)
    && (forall w: nat, j: nat :: RunBy(s, w, j) ==> j in s.started)
    && (forall j: nat :: j in s.finished ==> j in s.started)
  }

  lemma ConservedEffect(s: State, t: State, e: Effect)
    requires Conserved(s) && Does(s, t, e)
    ensures Conserved(t)
  {
    forall j: nat | j < t.accepted && j !in t.finished ensures exists w :: Holds(t, w, j) {
      if e.Accept? && j == s.accepted {
        assert Holds(t, e.w, j);
      } else {
        var w :| Holds(s, w, j);
        assert Holds(t, w, j);
      }
    }
    assert forall v: nat, j: nat :: Holds(t, v, j) ==> Holds(s, v, j) || (e.Accept? && v == e.w && j == s.accepted);
    if e.Finish? {
      assert Holds(s, e.w, RunningJob(s.workers[e.w]).value);
    }
  }

  lemma StartedEffect(s: State, t: State, e: Effect)
    requires Conserved(s) && StartedOnce(s) && Does(s, t, e)
    ensures StartedOnce(t)
  {
    forall v: nat, j: nat | Pending(t, v, j) ensures j !in t.started {
      if e.Accept? && v == e.w {
      } else {
        assert Pending(s, v, j);
        if e.Start? {
          assert Holds(s, v, j) && Holds(s, e.w, PendingJob(s.workers[e.w]).value);
        }
      }
    }
    if e.Start? {
      assert Pending(s, e.w, PendingJob(s.workers[e.w]).value);
      assert Holds(s, e.w, PendingJob(s.workers[e.w]).value);
    }
    if e.Finish? {
      assert RunBy(s, e.w, RunningJob(s.workers[e.w]).value);
    }
    forall v: nat, j: nat | RunBy(t, v, j) ensures j in t.started {
      assert RunBy(s, v, j) || (e.Start? && v == e.w);
    }
  }

  // -------------------------------------------------------------- over runs

  ghost function Last(run: seq<State>): State
    requires run != []
  {
    run[|run| - 1]
  }

  lemma {:induction false} FineRunInvariant(min: nat, max: nat, run: seq<State>)
    requires FineRun(min, max, run)
    ensures Orderly(Last(run)) && Conserved(Last(run)) && StartedOnce(Last(run)) && !Last(run).closed
  {
    if |run| > 1 {
      var s, t := run[|run| - 2], Last(run);
      assert FineNext(min, max, s, t);
      FineRunInvariant(min, max, run[..|run| - 1]);
      var a :| FineEnabled(s, a) && t == FineApply(min, max, s, a);
      OrderlyStep(min, max, s, a);
      var e := StepEffect(min, max, s, a);
      ConservedEffect(s, t, e);
      StartedEffect(s, t, e);
    }
  }

  /** With one dispatcher and the workers interleaving statement by statement, every accepted job is at each
      moment either finished, once, or with exactly one worker, a busy one: in its slot and not yet called, or
      being run, having been called once. */
  lemma NoJobLostOrRunTwice(min: nat, max: nat, run: seq<State>, j: nat)
    requires FineRun(min, max, run) && j < Last(run).accepted
    ensures var s := Last(run);
            && Distinct(s.finished) && Distinct(s.started)
            && (if j in s.finished then j in s.started && forall w: nat :: !Holds(s, w, j)
                else exists w: nat ::
                    && Holds(s, w, j) && w in s.busy
                    && (forall v: nat :: Holds(s, v, j) ==> v == w)
                    && (Pending(s, w, j) <==> j !in s.started) && (RunBy(s, w, j) <==> j in s.started))
  {
    FineRunInvariant(min, max, run);
    var s := Last(run);
    if j !in s.finished {
      var w: nat :| Holds(s, w, j);
      assert SlotOk(s, w, s.workers[w]);
    }
  }

  /** Jobs only move forward: what was finished stays so, in order, and what was started is not started again. */
  lemma JobsOnlyMoveForward(min: nat, max: nat, s: State, a: FineAction, w: nat, j: nat)
    requires Orderly(s) && FineEnabled(s, a)
    ensures var t := FineApply(min, max, s, a);
            && s.finished <= t.finished && s.started <= t.started && s.accepted <= t.accepted
            && (Pending(s, w, j) ==> Pending(t, w, j) || (RunBy(t, w, j) && t.started == s.started + [j]))
            && (RunBy(s, w, j) ==> RunBy(t, w, j) || t.finished == s.finished + [j])
  {
    var e := StepEffect(min, max, s, a);
  }

  // ------------------------------- process, notify_done and close atomic

  datatype CoarseAction =
    | Statement(w: nat)   // one statement of Worker.run
    | NotifyDone(w: nat)  // all of Pool.notify_done
    | Process(w: nat)     // all of Pool.process, when it takes or starts worker w
    | Close               // Pool.close up to setting `closed`
    | Forget              // and the two assignments that empty the sets

  ghost predicate CoarseEnabled(max: nat, s: State, a: CoarseAction) {
    match a
    case Statement(w) => CanStep(s, w) && !s.workers[w].pc.Removing?
    case NotifyDone(w) => CanStep(s, w) && s.workers[w].pc.Removing?
    case Process(w) =>
      (match Admit(s.closed, |s.idle|, |s.busy|, max)
       case UseIdle => w in s.idle && w in s.workers
       case Spawn => w !in s.workers
       case _ => false)
    case Close => !s.closed
    case Forget => s.closed
  }

  ghost function CoarseApply(min: nat, max: nat, s: State, a: CoarseAction): State
    requires CoarseEnabled(max, s, a)
  {
    match a
    case Statement(w) => WorkerStep(min, s, w)
    case NotifyDone(w) =>
      if Surplus(s.closed, |s.idle|, min)
      then s.(busy := s.busy - {w}, workers := s.workers[w := Slot(Waiting, true, None)])
      else s.(busy := s.busy - {w}, idle := s.idle + {w}, workers := s.workers[w := s.workers[w].(pc := Waiting)])
    case Process(w) =>
      var x := if w in s.workers then s.workers[w] else FRESH;
      s.(idle := s.idle - {w}, busy := s.busy + {w}, accepted := s.accepted + 1,
         workers := s.workers[w := x.(job := Some(s.accepted), event := true)])
    case Close =>
      s.(closed := true,
         workers := map w | w in s.workers ::
           if w in s.idle + s.busy then s.workers[w].(job := None, event := true) else s.workers[w])
    case Forget => s.(idle := {}, busy := {})
  }

  ghost predicate CoarseNext(min: nat, max: nat, s: State, t: State) {
    exists a :: CoarseEnabled(max, s, a) && t == CoarseApply(min, max, s, a)
  }

  ghost predicate CoarseRun(min: nat, max: nat, run: seq<State>) {
    && run != [] && Init(min, run[0])
    && forall i :: 0 < i < |run| ==> CoarseNext(min, max, run[i - 1], run[i])
  }

  ghost predicate AtStatement(pc: Pc) {
    pc.Waiting? || pc.Clearing? || pc.Testing? || pc.Calling? || pc.Running? || pc.Resetting? || pc.Removing? || pc.Exited?
  }

  /** After `close`, whoever has no job to finish has been told to stop. */
  ghost predicate ToldToStop(x: Slot) {
    (x.pc.Waiting? ==> x.event) && (x.pc.Waiting? || x.pc.Clearing? || x.pc.Testing? || x.pc.Calling? ==> x.job == None)
  }

  ghost predicate CoarseOk(min: nat, max: nat, s: State) {
    && s.hand.Free?
    && Sizes(s.idle, s.busy, min, max)
    && (forall w :: w in s.workers ==> AtStatement(s.workers[w].pc))
    && (if s.closed then forall w :: w in s.workers ==> ToldToStop(s.workers[w]) else Orderly(s))
  }

  lemma SizesAfterNotify(min: nat, max: nat, s: State, w: nat)
    requires CoarseOk(min, max, s) && !s.closed && CoarseEnabled(max, s, NotifyDone(w))
    ensures Sizes(CoarseApply(min, max, s, NotifyDone(w)).idle, CoarseApply(min, max, s, NotifyDone(w)).busy, min, max)
  {
    assert SlotOk(s, w, s.workers[w]);
    assert w in s.busy && w !in s.idle;
    hide CoarseOk, Orderly, SlotOk, CanStep;
    assert |s.busy - {w}| == |s.busy| - 1;
  }

  lemma SizesStep(min: nat, max: nat, s: State, a: CoarseAction)
    requires CoarseOk(min, max, s) && CoarseEnabled(max, s, a)
    ensures Sizes(CoarseApply(min, max, s, a).idle, CoarseApply(min, max, s, a).busy, min, max)
  {
    if a.NotifyDone? && !s.closed {
      SizesAfterNotify(min, max, s, a.w);
    } else if a.Statement? && !s.closed {
      OrderlyOwn(min, s, a.w);
      assert SlotOk(s, a.w, s.workers[a.w]);
    }
  }

  lemma OpenStep(min: nat, max: nat, s: State, a: CoarseAction)
    requires CoarseOk(min, max, s) && !s.closed && CoarseEnabled(max, s, a) && !a.Close?
    ensures Orderly(CoarseApply(min, max, s, a))
  {
    var t := CoarseApply(min, max, s, a);
    if a.Statement? {
      OrderlyOwn(min, s, a.w);
    } else {
      forall w | w in t.workers ensures SlotOk(t, w, t.workers[w]) {
        assert w in s.workers ==> SlotOk(s, w, s.workers[w]);
      }
    }
  }

  lemma CloseTellsAll(min: nat, max: nat, s: State)
    requires CoarseOk(min, max, s) && !s.closed
    ensures forall w :: w in s.workers ==> ToldToStop(CoarseApply(min, max, s, Close).workers[w])
  {
    forall w | w in s.workers ensures ToldToStop(CoarseApply(min, max, s, Close).workers[w]) {
      assert SlotOk(s, w, s.workers[w]);
    }
  }

  lemma StoppedStep(min: nat, max: nat, s: State, a: CoarseAction)
    requires CoarseOk(min, max, s) && s.closed && CoarseEnabled(max, s, a)
    ensures forall w :: w in CoarseApply(min, max, s, a).workers ==> ToldToStop(CoarseApply(min, max, s, a).workers[w])
  {
    var t := CoarseApply(min, max, s, a);
    forall w | w in t.workers ensures ToldToStop(t.workers[w]) {
      assert w in s.workers && ToldToStop(s.workers[w]);
    }
  }

  lemma AtStatementKept(min: nat, max: nat, s: State, a: CoarseAction, w: nat)
    requires CoarseEnabled(max, s, a) && (w in s.workers ==> AtStatement(s.workers[w].pc))
    requires w in CoarseApply(min, max, s, a).workers
    ensures AtStatement(CoarseApply(min, max, s, a).workers[w].pc)
  {}

  lemma AtStatementStep(min: nat, max: nat, s: State, a: CoarseAction)
    requires CoarseOk(min, max, s) && CoarseEnabled(max, s, a)
    ensures forall w :: w in CoarseApply(min, max, s, a).workers ==> AtStatement(CoarseApply(min, max, s, a).workers[w].pc)
  {
    forall w | w in CoarseApply(min, max, s, a).workers
      ensures AtStatement(CoarseApply(min, max, s, a).workers[w].pc)
    {
      AtStatementKept(min, max, s, a, w);
    }
  }

  lemma CoarseStep(min: nat, max: nat, s: State, a: CoarseAction)
    requires CoarseOk(min, max, s) && CoarseEnabled(max, s, a)
    ensures CoarseOk(min, max, CoarseApply(min, max, s, a))
  {
    AtStatementStep(min, max, s, a);
    SizesStep(min, max, s, a);
    if !s.closed {
      if a.Close? {
        CloseTellsAll(min, max, s);
      } else {
        OpenStep(min, max, s, a);
      }
    } else {
      StoppedStep(min, max, s, a);
    }
  }

  lemma {:induction false} CoarseRunInvariant(min: nat, max: nat, run: seq<State>)
    requires CoarseRun(min, max, run) && min <= max
    ensures CoarseOk(min, max, Last(run))
  {
    if |run| > 1 {
      assert CoarseNext(min, max, run[|run| - 2], Last(run));
      CoarseRunInvariant(min, max, run[..|run| - 1]);
      var a :| CoarseEnabled(max, run[|run| - 2], a) && Last(run) == CoarseApply(min, max, run[|run| - 2], a);
      CoarseStep(min, max, run[|run| - 2], a);
    }
  }

  /** The pool never grows beyond its bounds, and a job is refused for lack of workers exactly when the maximum
      number of workers are busy. */
  lemma PoolStaysInBounds(min: nat, max: nat, run: seq<State>)
    requires CoarseRun(min, max, run) && min <= max
    ensures var s := Last(run);
            && s.idle !! s.busy && |s.idle| <= min && |s.idle| + |s.busy| <= max
            && (Admit(s.closed, |s.idle|, |s.busy|, max) == NoFreeWorkers <==> !s.closed && |s.busy| == max)
  {
    CoarseRunInvariant(min, max, run);
  }

  // ------------------------------------------------------- exit after close

  /** How many of its own steps a worker still has to take once `close` has told it to stop. */
  function Distance(pc: Pc): nat {
    match pc
    case Calling => 6
    case Running(_) => 6
    case Resetting => 5
    case Waiting => 3
    case Clearing => 2
    case Testing => 1
    case Exited => 0
    case _ => 4
  }

  predicate StepOf(a: CoarseAction, w: nat) {
    (a.Statement? || a.NotifyDone?) && a.w == w
  }

  ghost function OwnSteps(actions: seq<CoarseAction>, w: nat): nat {
    if actions == [] then 0
    else OwnSteps(actions[..|actions| - 1], w) + if StepOf(actions[|actions| - 1], w) then 1 else 0
  }

  ghost predicate Segment(min: nat, max: nat, run: seq<State>, actions: seq<CoarseAction>) {
    && |run| == |actions| + 1
    && forall i :: 0 <= i < |actions| ==>
         CoarseEnabled(max, run[i], actions[i]) && run[i + 1] == CoarseApply(min, max, run[i], actions[i])
  }

  lemma ClosedStep(min: nat, max: nat, s: State, a: CoarseAction, w: nat)
    requires CoarseOk(min, max, s) && s.closed && w in s.workers && CoarseEnabled(max, s, a)
    ensures var t := CoarseApply(min, max, s, a);
            && CoarseOk(min, max, t) && t.closed && w in t.workers
            && Distance(t.workers[w].pc) + (if StepOf(a, w) then 1 else 0) == Distance(s.workers[w].pc)
  {
    CoarseStep(min, max, s, a);
  }

  /** From `close` on, a worker is never stuck, takes at most six more steps of its own, five once its current
      job has returned, and then has exited. */
  lemma {:induction false} WorkersExitAfterClose(min: nat, max: nat, run: seq<State>, actions: seq<CoarseAction>, w: nat)
    requires Segment(min, max, run, actions)
    requires CoarseOk(min, max, run[0]) && run[0].closed && w in run[0].workers
    ensures CoarseOk(min, max, Last(run)) && Last(run).closed && w in Last(run).workers
    ensures OwnSteps(actions, w) + Distance(Last(run).workers[w].pc) == Distance(run[0].workers[w].pc) <= 6
    ensures !run[0].workers[w].pc.Running? && !run[0].workers[w].pc.Calling? ==> Distance(run[0].workers[w].pc) <= 5
    ensures Last(run).workers[w].pc.Exited? || CanStep(Last(run), w)
    ensures Last(run).workers[w].pc.Exited? <==> OwnSteps(actions, w) == Distance(run[0].workers[w].pc)
  {
    if actions != [] {
      var n := |actions| - 1;
      WorkersExitAfterClose(min, max, run[..n + 1], actions[..n], w);
      ClosedStep(min, max, run[n], actions[n], w);
    }
  }
}
