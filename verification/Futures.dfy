/**
 Asynchronous results and their call chains (src/Pyro4/futures.py). A callable is a function of the previous value;
 what it returns may itself be a wrapped exception. `FutureResult` works under its lock, so that its operations are
 atomic and an interleaving of threads is an order of operations.
 */
module Futures {
  import opened Common

  datatype Val<V, E> = Plain(v: V) | Wrapped(error: E)

  datatype Outcome<V, E> = Returns(value: Val<V, E>) | Raises(error: E)

  type Call<!V, !E> = Val<V, E> -> Outcome<V, E>

  /** An exception handler may raise an error itself. */
  type Handler<!E> = Option<E -> Option<E>>

  function Handle<E>(h: Handler<E>, e: E): Option<E> {
    match h case None => None case Some(f) => f(e)
  }

  // ------------------------------------------------------- what is computed

  /** The calls applied from left to right, until one raises an error. */
  function Fold<V, E>(calls: seq<Call<V, E>>, v: Val<V, E>): Outcome<V, E> {
    if calls == [] then Returns(v)
    else match calls[0](v) case Raises(e) => Raises(e) case Returns(w) => Fold(calls[1..], w)
  }

  /** How many of them are called. */
  function FoldCalls<V, E>(calls: seq<Call<V, E>>, v: Val<V, E>): (n: nat)
    ensures n <= |calls|
  {
    if calls == [] then 0
    else 1 + match calls[0](v) case Raises(_) => 0 case Returns(w) => FoldCalls(calls[1..], w)
  }

  /** The value and the error that the loop of `set_value` ends with, and how many calls it makes. */
  datatype Walked<V, E> = Walked(value: Val<V, E>, raised: Option<E>, calls: nat)

  function Walk<V, E>(calls: seq<Call<V, E>>, v: Val<V, E>): Walked<V, E> {
    if calls == [] then Walked(v, None, 0)
    else
      match calls[0](v)
      case Raises(e) => Walked(v, Some(e), 1)
      case Returns(w) =>
        if w.Wrapped? then Walked(w, None, 1)
        else var r := Walk(calls[1..], w); r.(calls := r.calls + 1)
  }

  /** The loop makes the calls up to the first that raises an error or returns a wrapped exception, each on what the
      ones before it come to. */
  lemma {:induction false} WalkIsPrefix<V, E>(calls: seq<Call<V, E>>, v: Val<V, E>)
    requires v.Plain?
    ensures var r := Walk(calls, v); var n := r.calls;
            && n <= |calls|
            && (forall k :: 0 <= k < n ==> Fold(calls[..k], v).Returns? && Fold(calls[..k], v).value.Plain?)
            && (r.raised == None ==> Fold(calls[..n], v) == Returns(r.value) && (n == |calls| || r.value.Wrapped?))
            && (r.raised.Some? ==>
                  n > 0 && Fold(calls[..n], v) == Raises(r.raised.value) && Fold(calls[..n - 1], v) == Returns(r.value))
  {
    if calls != [] {
      forall k | 1 <= k <= |calls| ensures calls[..k][0] == calls[0] && calls[..k][1..] == calls[1..][..k - 1] {}
      assert calls[..0] == [];
      if calls[0](v).Returns? && calls[0](v).value.Plain? {
        WalkIsPrefix(calls[1..], calls[0](v).value);
      } else {
        assert calls[1..][..0] == [];
      }
    }
  }

  /** And so does a future's own loop, wrapped exceptions or not. */
  lemma {:induction false} FoldStops<V, E>(calls: seq<Call<V, E>>, v: Val<V, E>)
    ensures var n := FoldCalls(calls, v);
            && n <= |calls|
            && (forall k :: 0 <= k < n ==> Fold(calls[..k], v).Returns?)
            && (if n == |calls| then true else Fold(calls[..n], v).Raises?)
            && Fold(calls[..n], v) == Fold(calls, v)
  {
    if calls != [] {
      forall k | 1 <= k <= |calls| ensures calls[..k][0] == calls[0] && calls[..k][1..] == calls[1..][..k - 1] {}
      assert calls[..0] == [];
      if calls[0](v).Returns? {
        FoldStops(calls[1..], calls[0](v).value);
      } else {
        assert calls[1..][..0] == [];
      }
    } else {
      assert calls[..0] == calls;
    }
  }

  /** `ran` records the calls that were made. */
  datatype State<!V, !E> = State(
    callchain: seq<Call<V, E>>, value: Option<Val<V, E>>, ready: bool, ran: seq<Call<V, E>>, handler: Handler<E>)

  ghost predicate Sound<V, E>(s: State<V, E>) {
    s.ready ==> s.value.Some? && s.callchain == []
  }

  /** The state after `set_value`, and the error it raises. */
  ghost function AfterSet<V, E>(s: State<V, E>, v: Val<V, E>): (State<V, E>, Option<E>) {
    if v.Wrapped? then
      var raised := Handle(s.handler, v.error);
      if raised.Some? then (s.(value := Some(v)), raised)
      else (s.(value := Some(v), callchain := [], ready := true), None)
    else
      var r := Walk(s.callchain, v);
      WalkBound(s.callchain, v);
      var t := s.(value := Some(r.value), ran := s.ran + s.callchain[..r.calls]);
      if r.raised.Some? then (t, r.raised) else (t.(callchain := [], ready := true), None)
  }

  lemma WalkBound<V, E>(calls: seq<Call<V, E>>, v: Val<V, E>)
    ensures Walk(calls, v).calls <= |calls|
  {}

  lemma SetMeans<V, E>(s: State<V, E>, v: Val<V, E>)
    ensures var (t, raised) := AfterSet(s, v);
            v.Plain? ==>
              var n := |t.ran| - |s.ran|;
              && 0 <= n <= |s.callchain| && t.ran == s.ran + s.callchain[..n]
              && (forall k :: 0 <= k < n ==> Fold(s.callchain[..k], v).Returns? && Fold(s.callchain[..k], v).value.Plain?)
              && (if raised == None then
                    && t.ready && t.callchain == []
                    && t.value.Some? && Fold(s.callchain[..n], v) == Returns(t.value.value)
                    && (n == |s.callchain| || t.value.value.Wrapped?)
                  else
                    && t.ready == s.ready && t.callchain == s.callchain
                    && n > 0 && Fold(s.callchain[..n], v) == Raises(raised.value)
                    && t.value.Some? && Fold(s.callchain[..n - 1], v) == Returns(t.value.value))
  {
    if v.Plain? {
      WalkIsPrefix(s.callchain, v);
      hide Walk, Fold;
    }
  }

  /** The state after `then`, and the error it raises. */
  ghost function AfterThen<V, E>(s: State<V, E>, f: Call<V, E>): (State<V, E>, Option<E>)
    requires Sound(s)
  {
    if !s.ready then (s.(callchain := s.callchain + [f]), None)
    else
      var t := s.(ran := s.ran + [f]);
      match f(s.value.value) case Raises(e) => (t, Some(e)) case Returns(w) => (t.(value := Some(w)), None)
  }

  // ---------------------------------------------------------------- the code

  class FutureResult<!V(!new), !E(!new)> {
    var callchain: seq<Call<V, E>>
    var value: Option<Val<V, E>>
    var ready: bool
    var exceptionhandler: Handler<E>
    ghost var ran: seq<Call<V, E>>

    ghost function Now(): State<V, E>
      reads this
    {
      State(callchain, value, ready, ran, exceptionhandler)
    }

    ghost predicate Valid()
      reads this
    {
      Sound(Now())
    }

    constructor ()
      ensures Valid() && Now() == State([], None, false, [], None)
    {
      callchain, value, ready, exceptionhandler, ran := [], None, false, None, [];
    }

    method SetValue(v: Val<V, E>) returns (raised: Option<E>)
      requires Valid()
      modifies this
      ensures Valid() && (Now(), raised) == AfterSet(old(Now()), v)
      ensures exceptionhandler == old(exceptionhandler)
      // an exception makes no calls; its handler may fail
      ensures v.Wrapped? ==>
                && value == Some(v) && ran == old(ran)
                && if exceptionhandler.Some? && exceptionhandler.value(v.error).Some?
                   then raised == exceptionhandler.value(v.error) && ready == old(ready) && callchain == old(callchain)
                   else raised == None && ready && callchain == []
      // a value goes through the calls up to the first that fails or gives an exception
      ensures v.Plain? ==>
                var n := |ran| - |old(ran)|;
                && 0 <= n <= |old(callchain)| && ran == old(ran) + old(callchain)[..n]
                && (forall k :: 0 <= k < n ==> Fold(old(callchain)[..k], v).Returns? && Fold(old(callchain)[..k], v).value.Plain?)
                && (if raised == None then
                      && ready && callchain == []
                      && value.Some? && Fold(old(callchain)[..n], v) == Returns(value.value)
                      && (n == |old(callchain)| || value.value.Wrapped?)
                    else
                      && ready == old(ready) && callchain == old(callchain)
                      && n > 0 && Fold(old(callchain)[..n], v) == Raises(raised.value)
                      && value.Some? && Fold(old(callchain)[..n - 1], v) == Returns(value.value))
    {
      SetMeans(Now(), v);
      hide Fold, Walk;
      value := Some(v);
      if v.Wrapped? {
        raised := Handle(exceptionhandler, v.error);
        if raised.Some? { return; }
      } else {
        raised := MakeCalls(v);
        if raised.Some? { return; }
      }
      callchain := [];
      ready := true;
      raised := None;
    }

    /** The loop over the call chain. */
    method MakeCalls(v: Val<V, E>) returns (raised: Option<E>)
      requires value == Some(v) && v.Plain?
      modifies this`value, this`ran
      ensures var r := Walk(callchain, v);
              && r.calls <= |callchain|
              && value == Some(r.value) && raised == r.raised && ran == old(ran) + callchain[..r.calls]
    {
      WalkBound(callchain, v);
      var i := 0;
      while i < |callchain|
        invariant i <= |callchain| && value.Some? && value.value.Plain? && ran == old(ran) + callchain[..i]
        invariant Walk(callchain, v) == (var r := Walk(callchain[i..], value.value); r.(calls := r.calls + i))
      {
        assert callchain[..i] + [callchain[i]] == callchain[..i + 1] && callchain[i..][1..] == callchain[i + 1..];
        ran := ran + [callchain[i]];
        match callchain[i](value.value) {
          case Raises(e) => return Some(e);
          case Returns(w) => value := Some(w);
        }
        i := i + 1;
        if value.value.Wrapped? { return None; }
      }
      raised := None;
    }

    method Then(call: Call<V, E>) returns (raised: Option<E>)
      requires Valid()
      modifies this
      ensures Valid() && (Now(), raised) == AfterThen(old(Now()), call)
      ensures ready == old(ready)
      ensures if !ready then raised == None && callchain == old(callchain) + [call] && value == old(value) && ran == old(ran)
              else
                && callchain == old(callchain) && ran == old(ran) + [call]
                && match call(old(value).value)
                   case Raises(e) => raised == Some(e) && value == old(value)
                   case Returns(w) => raised == None && value == Some(w)
    {
      if ready {
        ran := ran + [call];
        match call(value.value) {
          case Raises(e) => return Some(e);
          case Returns(w) => value := Some(w);
        }
      } else {
        callchain := callchain + [call];
      }
      raised := None;
    }
  }

  // ------------------------------------------------------------ interleavings

  ghost function Fresh<V, E>(h: Handler<E>): State<V, E> {
    State([], None, false, [], h)
  }

  /** After `then` with each of the calls in turn; errors go to the threads that called it. */
  ghost function Registered<V, E>(s: State<V, E>, calls: seq<Call<V, E>>): (t: State<V, E>)
    requires Sound(s)
    ensures Sound(t)
    decreases |calls|
  {
    if calls == [] then s else Registered(AfterThen(s, calls[0]).0, calls[1..])
  }

  /** The calls are registered in this order, and the value is set when k of them have been. */
  ghost function Interleaved<V, E>(h: Handler<E>, calls: seq<Call<V, E>>, v: Val<V, E>, k: nat): State<V, E>
    requires k <= |calls|
  {
    Registered(AfterSet(Registered(Fresh(h), calls[..k]), v).0, calls[k..])
  }

  lemma {:induction false} RegisteredWaiting<V, E>(s: State<V, E>, calls: seq<Call<V, E>>)
    requires Sound(s) && !s.ready
    ensures Registered(s, calls) == s.(callchain := s.callchain + calls)
    decreases |calls|
  {
    if calls == [] {
      assert s.callchain + calls == s.callchain;
    } else {
      assert s.callchain + [calls[0]] + calls[1..] == s.callchain + calls;
      RegisteredWaiting(AfterThen(s, calls[0]).0, calls[1..]);
    }
  }

  /** Once the value is there each call runs, and the value changes as long as none of them raises an error. */
  lemma {:induction false} RegisteredReady<V, E>(s: State<V, E>, calls: seq<Call<V, E>>)
    requires Sound(s) && s.ready
    ensures var t := Registered(s, calls);
            && t.ready && t.ran == s.ran + calls
            && match Fold(calls, s.value.value) case Returns(w) => t.value == Some(w) case Raises(_) => true
    decreases |calls|
  {
    if calls == [] {
      assert s.ran + calls == s.ran;
    } else {
      assert s.ran + [calls[0]] + calls[1..] == s.ran + calls;
      RegisteredReady(AfterThen(s, calls[0]).0, calls[1..]);
    }
  }

  /** No call raises an error, and none is given a wrapped exception. */
  predicate Clean<V, E>(calls: seq<Call<V, E>>, v: Val<V, E>) {
    calls == [] || (v.Plain? && var r := calls[0](v); r.Returns? && Clean(calls[1..], r.value))
  }

  lemma {:induction false} WalkIsFold<V, E>(calls: seq<Call<V, E>>, v: Val<V, E>)
    requires calls != [] ==> v.Plain?
    ensures Clean(calls, v) <==> Walk(calls, v).raised == None && Walk(calls, v).calls == |calls|
    ensures Clean(calls, v) ==> Fold(calls, v) == Returns(Walk(calls, v).value)
  {
    if calls != [] && calls[0](v).Returns? {
      var w := calls[0](v).value;
      if w.Plain? || calls[1..] == [] { WalkIsFold(calls[1..], w); }
    }
  }

  lemma {:induction false} CleanParts<V, E>(calls: seq<Call<V, E>>, v: Val<V, E>, k: nat)
    requires Clean(calls, v) && k <= |calls|
    ensures Clean(calls[..k], v) && Fold(calls[..k], v).Returns?
    ensures var w := Fold(calls[..k], v).value; Clean(calls[k..], w) && Fold(calls, v) == Fold(calls[k..], w)
  {
    if k > 0 {
      assert calls[..k][1..] == calls[1..][..k - 1] && calls[k..] == calls[1..][k - 1..];
      CleanParts(calls[1..], calls[0](v).value, k - 1);
    } else {
      assert calls[0..] == calls;
    }
  }

  lemma {:induction false} CleanReturns<V, E>(calls: seq<Call<V, E>>, v: Val<V, E>)
    requires Clean(calls, v)
    ensures Fold(calls, v).Returns?
  {
    if calls != [] { CleanReturns(calls[1..], calls[0](v).value); }
  }

  /** What one hopes of a result: every call ran once, in order, and the value is theirs. */
  ghost predicate Delivered<V, E>(s: State<V, E>, calls: seq<Call<V, E>>, v: Val<V, E>) {
    s.ready && s.ran == calls && s.value.Some? && Fold(calls, v) == Returns(s.value.value)
  }

  /** Main result: at whatever moment the value is set, the calls are folded over it in the order of their
      registration, if and only if no call raises an error or is given a wrapped exception. */
  lemma FoldedAtAnyMoment<V, E>(calls: seq<Call<V, E>>, v: Val<V, E>, h: Handler<E>)
    requires v.Wrapped? ==> Handle(h, v.error) == None
    ensures (forall k: nat :: k <= |calls| ==> Delivered(Interleaved(h, calls, v, k), calls, v)) <==> Clean(calls, v)
  {
    if Clean(calls, v) {
      forall k: nat | k <= |calls| ensures Delivered(Interleaved(h, calls, v, k), calls, v) {
        CleanParts(calls, v, k);
        CleanReturns(calls, v);
        SetWhenClean(calls[..k], v, h);
        RegisteredReady(AfterSet(Registered(Fresh(h), calls[..k]), v).0, calls[k..]);
        assert calls[..k] + calls[k..] == calls;
      }
    } else {
      NotDelivered(calls, v, h);
    }
  }

  lemma SetWhenClean<V, E>(calls: seq<Call<V, E>>, v: Val<V, E>, h: Handler<E>)
    requires Clean(calls, v) && (v.Wrapped? ==> Handle(h, v.error) == None)
    ensures var s := AfterSet(Registered(Fresh(h), calls), v).0;
            s.ready && s.ran == calls && s.value.Some? && Fold(calls, v) == Returns(s.value.value)
  {
    var fresh_: State<V, E> := Fresh(h);
    RegisteredWaiting(fresh_, calls);
    assert [] + calls == calls && calls[..|calls|] == calls;
    WalkIsFold(calls, v);
  }

  lemma NotDelivered<V, E>(calls: seq<Call<V, E>>, v: Val<V, E>, h: Handler<E>)
    requires !Clean(calls, v) && (v.Wrapped? ==> Handle(h, v.error) == None)
    ensures !Delivered(Interleaved(h, calls, v, |calls|), calls, v)
  {
    var fresh_: State<V, E> := Fresh(h);
    RegisteredWaiting(fresh_, calls);
    assert [] + calls == calls && calls[..|calls|] == calls && calls[|calls|..] == [];
    if v.Plain? {
      WalkIsFold(calls, v);
      WalkBound(calls, v);
    }
  }

  /** If the value set is an exception, no call registered before it runs, and each one after it does. */
  lemma ExceptionSkips<V, E>(calls: seq<Call<V, E>>, e: E, k: nat, h: Handler<E>)
    requires k <= |calls|
    ensures var s := Interleaved(h, calls, Wrapped(e), k);
            && (s.ready <==> h == None || h.value(e) == None)
            && s.ran == if s.ready then calls[k..] else []
  {
    var fresh_: State<V, E> := Fresh(h);
    RegisteredWaiting(fresh_, calls[..k]);
    var s := AfterSet(Registered(fresh_, calls[..k]), Wrapped(e)).0;
    if s.ready {
      RegisteredReady(s, calls[k..]);
      assert [] + calls[k..] == calls[k..];
    } else {
      RegisteredWaiting(s, calls[k..]);
    }
  }

  // -------------------------------------------------------------- futures

  /** What happens while a future sleeps. */
  datatype Disturbance = Nothing | Cancel | Delay(seconds: real)

  datatype StartError = AlreadyEvaluated | AlreadyCancelled

  /** The result after the exception of a future was handled. */
  ghost function Failed<V, E>(s: State<V, E>, error: E, h: Handler<E>): (State<V, E>, Option<E>) {
    if Handle(h, error).Some? then (s, Handle(h, error)) else AfterSet(s, Wrapped(error))
  }

  /** The result after the future's own calls had this outcome, and the error its thread ends with. */
  ghost function Finished<V, E>(s: State<V, E>, outcome: Outcome<V, E>, h: Handler<E>): (State<V, E>, Option<E>) {
    match outcome
    case Raises(error) => Failed(s, error, h)
    case Returns(v) =>
      var (t, raised) := AfterSet(s, v);
      if raised.Some? then Failed(t, raised.value, h) else (t, None)
  }

  /** How long the thread sleeps, in how many naps, and whether it then finds the future cancelled. */
  datatype Waited = Waited(slept: real, naps: nat, cancelled: bool)

  function Wait(callDelay: real, sleeps: seq<Disturbance>): Waited
    decreases |sleeps|, if callDelay > 0.0 then callDelay.Floor + 1 else 0
  {
    if callDelay <= 0.0 then Waited(0.0, 0, false)
    else
      var nap := if callDelay < 2.0 then callDelay else 2.0;
      if sleeps == [] then
        var w := Wait(callDelay - nap, []); Waited(nap + w.slept, w.naps + 1, w.cancelled)
      else if sleeps[0].Cancel? then Waited(nap, 1, true)
      else
        var w := Wait((if sleeps[0].Delay? then sleeps[0].seconds else callDelay) - nap, sleeps[1..]);
        Waited(nap + w.slept, w.naps + 1, w.cancelled)
  }

  /** A cancellation during a sleep prevents the call, if it comes during one of the sleeps there are. */
  lemma {:induction false} CancelledInSleep(callDelay: real, sleeps: seq<Disturbance>)
    ensures var w := Wait(callDelay, sleeps);
            w.cancelled <==> exists i: nat :: i < w.naps && i < |sleeps| && sleeps[i].Cancel?
    ensures callDelay > 0.0 <==> Wait(callDelay, sleeps).naps > 0
    decreases |sleeps|, if callDelay > 0.0 then callDelay.Floor + 1 else 0
  {
    if callDelay > 0.0 {
      var nap := if callDelay < 2.0 then callDelay else 2.0;
      if sleeps == [] {
        CancelledInSleep(callDelay - nap, []);
      } else if sleeps[0].Cancel? {
        assert exists i: nat :: i < 1 && i < |sleeps| && sleeps[i].Cancel?;
      } else {
        var next := (if sleeps[0].Delay? then sleeps[0].seconds else callDelay) - nap;
        CancelledInSleep(next, sleeps[1..]);
        var w := Wait(next, sleeps[1..]);
        if i: nat :| i < w.naps && i < |sleeps[1..]| && sleeps[1..][i].Cancel? {
          assert sleeps[i + 1].Cancel?;
        }
        assert forall i: nat :: 0 < i < |sleeps| ==> sleeps[i] == sleeps[1..][i - 1];
      }
    }
  }

  /** Undisturbed, it sleeps for exactly the delay, in as few naps of at most two seconds as that takes. */
  lemma {:induction false} SleepsTheDelay(callDelay: real, sleeps: seq<Disturbance>)
    requires forall i :: 0 <= i < |sleeps| ==> sleeps[i].Nothing?
    ensures Wait(callDelay, sleeps).slept == if callDelay > 0.0 then callDelay else 0.0
    ensures var n := Wait(callDelay, sleeps).naps;
            if callDelay > 0.0 then 2.0 * (n as real - 1.0) < callDelay <= 2.0 * n as real else n == 0
    decreases |sleeps|, if callDelay > 0.0 then callDelay.Floor + 1 else 0
  {
    if callDelay > 0.0 {
      SleepsTheDelay(callDelay - (if callDelay < 2.0 then callDelay else 2.0), if sleeps == [] then [] else sleeps[1..]);
    }
  }

  class Future<!A, !V(!new), !E(!new)> {
    const callable: A -> Outcome<V, E>
    const cancelError: E
    var chain: Option<seq<Call<V, E>>>
    var exceptionhandler: Handler<E>
    var callDelay: real
    var cancelled: bool
    var completed: bool
    ghost var made: seq<Call<V, E>>   // the calls of its chain that were made

    constructor (callable: A -> Outcome<V, E>, cancelError: E)
      ensures this.callable == callable && this.cancelError == cancelError
      ensures chain == Some([]) && exceptionhandler == None && callDelay == 0.0 && !cancelled && !completed && made == []
    {
      this.callable, this.cancelError := callable, cancelError;
      chain, exceptionhandler, callDelay, cancelled, completed, made := Some([]), None, 0.0, false, false, [];
    }

    method Then(call: Call<V, E>)
      requires chain.Some?
      modifies this`chain
      ensures chain == Some(old(chain).value + [call])
    {
      chain := Some(chain.value + [call]);
    }

    method SetDelay(seconds: real) returns (accepted: bool)
      modifies this`callDelay
      ensures accepted == !completed && callDelay == if accepted then seconds else old(callDelay)
    {
      accepted := !completed;
      if accepted { callDelay := seconds; }
    }

    method CancelCall() returns (accepted: bool)
      modifies this`cancelled
      ensures accepted == !completed && cancelled == (old(cancelled) || accepted)
    {
      accepted := !completed;
      if accepted { cancelled := true; }
    }

    /** `__call__`, up to starting the thread. The chain is taken away, so that it runs once. */
    method Start() returns (r: Result<seq<Call<V, E>>, StartError>)
      modifies this`chain
      ensures r == if completed || old(chain).None? then Err(AlreadyEvaluated)
                   else if cancelled then Err(AlreadyCancelled) else Ok(old(chain).value)
      ensures chain == if r.Ok? then None else old(chain)
    {
      if completed || chain.None? { return Err(AlreadyEvaluated); }
      if cancelled { return Err(AlreadyCancelled); }
      r := Ok(chain.value);
      chain := None;
    }

    /** The body of the thread, when others act only during its sleeps. */
    method AsyncCall(result: FutureResult<V, E>, chain: seq<Call<V, E>>, args: A, sleeps: seq<Disturbance>)
      returns (ran: bool, slept: real, raised: Option<E>)
      requires result.Valid() && !completed
      modifies this`callDelay, this`cancelled, this`completed, this`made, result
      ensures completed && result.Valid()
      ensures ran <==> !old(cancelled) && !Wait(old(callDelay), sleeps).cancelled
      ensures slept == if old(cancelled) then 0.0 else Wait(old(callDelay), sleeps).slept
      ensures !ran ==> made == old(made) && (result.Now(), raised) == AfterSet(old(result.Now()), Wrapped(cancelError))
      ensures ran ==>
                && made == old(made) + (match callable(args) case Raises(_) => [] case Returns(v) => chain[..FoldCalls(chain, v)])
                && var outcome := match callable(args) case Raises(e) => Raises(e) case Returns(v) => Fold(chain, v);
                   (result.Now(), raised) == Finished(old(result.Now()), outcome, exceptionhandler)
      // on a fresh result: the value of the callable and its chain, or the exception, unless its handler fails
      ensures old(result.Now()) == Fresh(None) && !ran ==>
                result.ready && result.value == Some(Wrapped(cancelError)) && raised == None
      ensures old(result.Now()) == Fresh(None) && ran ==>
                match (match callable(args) case Raises(e) => Raises(e) case Returns(v) => Fold(chain, v))
                case Returns(w) => result.ready && result.value == Some(w) && raised == None
                case Raises(e) =>
                  if exceptionhandler.Some? && exceptionhandler.value(e).Some?
                  then raised == exceptionhandler.value(e) && !result.ready && result.value == None
                  else result.ready && result.value == Some(Wrapped(e)) && raised == None
    {
      slept := 0.0;
      var n := 0;
      while callDelay > 0.0 && !cancelled
        invariant n <= |sleeps| && !completed && unchanged(result) && made == old(made)
        invariant old(cancelled) ==> cancelled && slept == 0.0
        invariant !old(cancelled) ==>
                    var w := Wait(old(callDelay), sleeps);
                    if cancelled then w.cancelled && w.slept == slept
                    else w.cancelled == Wait(callDelay, sleeps[n..]).cancelled && w.slept == slept + Wait(callDelay, sleeps[n..]).slept
        decreases |sleeps| - n, if callDelay > 0.0 then callDelay.Floor + 1 else 0
      {
        var delay := if callDelay < 2.0 then callDelay else 2.0;
        slept := slept + delay;
        if n < |sleeps| {
          assert sleeps[n..][1..] == sleeps[n + 1..];
          match sleeps[n] {
            case Nothing =>
            case Cancel => var _ := CancelCall();
            case Delay(seconds) => var _ := SetDelay(seconds);
          }
          n := n + 1;
        }
        callDelay := callDelay - delay;
      }
      ran := !cancelled;
      if cancelled {
        completed := true;
        raised := result.SetValue(Wrapped(cancelError));
        return;
      }
      completed := true;
      cancelled := false;
      var outcome := RunChain(chain, args);
      raised := Deliver(result, outcome);
    }

    /** The callable, and its chain. */
    method RunChain(chain: seq<Call<V, E>>, args: A) returns (outcome: Outcome<V, E>)
      modifies this`made
      ensures match callable(args)
              case Raises(e) => outcome == Raises(e) && made == old(made)
              case Returns(v) => outcome == Fold(chain, v) && made == old(made) + chain[..FoldCalls(chain, v)]
    {
      outcome := callable(args);
      if outcome.Raises? { return; }
      ghost var v := outcome.value;
      var i := 0;
      assert chain[..0] == [] && chain[0..] == chain;
      while i < |chain| && outcome.Returns?
        invariant i <= |chain| && made == old(made) + chain[..i]
        invariant if outcome.Returns? then
                    Fold(chain, v) == Fold(chain[i..], outcome.value) && FoldCalls(chain, v) == i + FoldCalls(chain[i..], outcome.value)
                  else
                    Fold(chain, v) == outcome && FoldCalls(chain, v) == i
      {
        assert chain[..i] + [chain[i]] == chain[..i + 1] && chain[i..][1..] == chain[i + 1..];
        made := made + [chain[i]];
        outcome := chain[i](outcome.value);
        i := i + 1;
      }
    }

    /** Sets the result; an exception, be it of a call or of setting it, goes to the handler first. */
    method Deliver(result: FutureResult<V, E>, outcome: Outcome<V, E>) returns (raised: Option<E>)
      requires result.Valid()
      modifies result
      ensures result.Valid() && (result.Now(), raised) == Finished(old(result.Now()), outcome, exceptionhandler)
      ensures old(result.Now()) == Fresh(None) ==>
                match outcome
                case Returns(w) => result.ready && result.value == Some(w) && raised == None
                case Raises(e) =>
                  if exceptionhandler.Some? && exceptionhandler.value(e).Some?
                  then raised == exceptionhandler.value(e) && !result.ready && result.value == None
                  else result.ready && result.value == Some(Wrapped(e)) && raised == None
    {
      raised := if outcome.Raises? then Some(outcome.error) else None;
      if outcome.Returns? { raised := result.SetValue(outcome.value); }
      if raised.Some? {
        var error := raised.value;
        raised := Handle(exceptionhandler, error);
        if raised.None? { raised := result.SetValue(Wrapped(error)); }
      }
    }
  }

  /** No call is given a wrapped exception. */
  predicate Unwrapped<V, E>(calls: seq<Call<V, E>>, v: Val<V, E>) {
    calls == [] || (v.Plain? && match calls[0](v) case Raises(_) => true case Returns(w) => Unwrapped(calls[1..], w))
  }

  lemma {:induction false} WalkAndFold<V, E>(calls: seq<Call<V, E>>, v: Val<V, E>)
    requires calls != [] ==> v.Plain?
    ensures Unwrapped(calls, v) <==> Walk(calls, v).calls == FoldCalls(calls, v)
    ensures Unwrapped(calls, v) ==> match Fold(calls, v)
                                    case Raises(e) => Walk(calls, v).raised == Some(e)
                                    case Returns(w) => Walk(calls, v).raised == None && Walk(calls, v).value == w
  {
    if calls != [] && calls[0](v).Returns? {
      var w := calls[0](v).value;
      if w.Plain? || calls[1..] == [] { WalkAndFold(calls[1..], w); }
    }
  }

  /** Main result: calls chained to the result of a future before it is evaluated have the same effect as calls in
      the future's own chain, errors included, if and only if none of them is given a wrapped exception. */
  lemma ChainOnFutureOrResult<V, E>(calls: seq<Call<V, E>>, v: Val<V, E>)
    ensures var own := Finished(Fresh(None), Fold(calls, v), None).0;
            var later := Finished(Registered(Fresh(None), calls), Returns(v), None).0;
            (own.value == later.value && own.ready && later.ready && |later.ran| == FoldCalls(calls, v))
            <==> Unwrapped(calls, v)
  {
    var fresh_: State<V, E> := Fresh(None);
    RegisteredWaiting(fresh_, calls);
    assert [] + calls == calls;
    WalkBound(calls, v);
    if calls == [] || v.Plain? { WalkAndFold(calls, v); }
  }

  /** A future without a chain, on whose result the calls are registered before it is evaluated. */
  method ChainOnResult<A(!new), V(!new), E(!new)>(future: Future<A, V, E>, calls: seq<Call<V, E>>, args: A)
    returns (result: FutureResult<V, E>)
    requires !future.completed && !future.cancelled && future.callDelay <= 0.0 && future.exceptionhandler == None
    modifies future
    ensures fresh(result)
    ensures result.Now() == Finished(Registered(Fresh(None), calls), future.callable(args), None).0
  {
    result := new FutureResult<V, E>();
    for i := 0 to |calls|
      invariant result.Valid() && result.Now() == Fresh(None).(callchain := calls[..i])
      modifies result
    {
      assert calls[..i + 1] == calls[..i] + [calls[i]];
      var _ := result.Then(calls[i]);
    }
    assert calls[..|calls|] == calls;
    RegisteredWaiting(Fresh(None), calls);
    assert [] + calls == calls;
    hide Finished, Registered;
    var _, _, _ := future.AsyncCall(result, [], args, []);
  }

  /** The same of the code: a future with a chain of its own, and one on whose result the calls are registered. */
  method RunBothWays<A(!new), V(!new), E(!new)>(own: Future<A, V, E>, other: Future<A, V, E>, calls: seq<Call<V, E>>, args: A)
    returns (r1: FutureResult<V, E>, r2: FutureResult<V, E>)
    requires own != other && own.callable == other.callable
    requires !own.completed && !own.cancelled && own.callDelay <= 0.0 && own.exceptionhandler == None && own.made == []
    requires !other.completed && !other.cancelled && other.callDelay <= 0.0 && other.exceptionhandler == None
    modifies own, other
    ensures fresh(r1) && fresh(r2)
    ensures own.callable(args).Returns? ==>
              ((r1.value == r2.value && r1.ready && r2.ready && own.made == r2.ran) <==> Unwrapped(calls, own.callable(args).value))
  {
    r1 := new FutureResult<V, E>();
    var _, _, _ := own.AsyncCall(r1, calls, args, []);
    r2 := ChainOnResult(other, calls, args);
    hide Finished, Registered, Unwrapped;
    if own.callable(args).Returns? {
      ChainOnFutureOrResult(calls, own.callable(args).value);
      SameCallsMade(calls, own.callable(args).value);
    }
  }

  lemma SameCallsMade<V, E>(calls: seq<Call<V, E>>, v: Val<V, E>)
    ensures var later := Finished(Registered(Fresh(None), calls), Returns(v), None).0;
            FoldCalls(calls, v) <= |calls| && (later.ran == calls[..FoldCalls(calls, v)] <==> |later.ran| == FoldCalls(calls, v))
  {
    var fresh_: State<V, E> := Fresh(None);
    RegisteredWaiting(fresh_, calls);
    assert [] + calls == calls;
    WalkBound(calls, v);
    FoldStops(calls, v);
  }
}
