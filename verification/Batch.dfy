/**
 Batched calls (`_BatchProxyAdapter` and the batch branch of `Daemon.handleRequest` in src/Pyro4/core.py) against
 the same calls made one at a time and given up at the first exception.
 */
module Batch {
  import opened Common

  /** A result; a method could also return a wrapped exception as its value. */
  datatype Val<R, E> = Plain(v: R) | Wrapped(error: E)

  datatype Answer<R, E> = Value(v: Val<R, E>) | Error(e: E)

  datatype Call<A> = Call(name: string, args: A)

  /** A method changes the object and answers; it may change the object and then raise an exception. */
  type Method<!S, !A, !R, !E> = (S, A) -> (S, Answer<R, E>)

  /** What the caller sees: results, and the exception that ends them. */
  datatype Observed<R, E> = Observed(results: seq<Val<R, E>>, raised: Option<E>)

  /** The exposed methods and the error for any other name; and the serializer: which results and exceptions it
      can write, the error it raises for others, and the generic exception that stands for one it cannot write. */
  datatype Interface<!S, !A, !R, !E> = Interface(
    methods: map<string, Method<S, A, R, E>>, missing: string -> E,
    writable: Val<R, E> -> bool, refusal: Val<R, E> -> E, generic: E -> E)

  // ------------------------------------------------------------ specification

  function One<S, A, R, E>(i: Interface<S, A, R, E>, s: S, call: Call<A>): (S, Answer<R, E>) {
    if call.name in i.methods then i.methods[call.name](s, call.args) else (s, Error(i.missing(call.name)))
  }

  /** The exception that reaches the client. */
  function Reported<S, A, R, E>(i: Interface<S, A, R, E>, e: E): E {
    if i.writable(Wrapped(e)) then e else i.generic(e)
  }

  /** The reply to a single call. */
  function Reply<S, A, R, E>(i: Interface<S, A, R, E>, answer: Answer<R, E>): Answer<R, E> {
    match answer
    case Value(v) => if i.writable(v) then answer else Error(Reported(i, i.refusal(v)))
    case Error(e) => Error(Reported(i, e))
  }

  /** The object afterwards, how many methods were called, and what came of it. */
  datatype Run<S, X> = Run(object_: S, made: nat, outcome: X)

  /** Single calls, up to the first exception. */
  function OneByOne<S, A, R, E>(i: Interface<S, A, R, E>, s: S, calls: seq<Call<A>>): Run<S, Observed<R, E>> {
    if calls == [] then Run(s, 0, Observed([], None))
    else
      var (t, answer) := One(i, s, calls[0]);
      var made := if calls[0].name in i.methods then 1 else 0;
      match Reply(i, answer)
      case Error(e) => Run(t, made, Observed([], Some(e)))
      case Value(v) =>
        var r := OneByOne(i, t, calls[1..]);
        Run(r.object_, made + r.made, r.outcome.(results := [v] + r.outcome.results))
  }

  /** The list a batch collects, which a raised exception ends, or the error of a missing name, which takes the
      whole list with it. */
  function Whole<S, A, R, E>(i: Interface<S, A, R, E>, s: S, calls: seq<Call<A>>): Run<S, Result<seq<Val<R, E>>, E>> {
    if calls == [] then Run(s, 0, Ok([]))
    else if calls[0].name !in i.methods then Run(s, 0, Err(i.missing(calls[0].name)))
    else
      var (t, answer) := One(i, s, calls[0]);
      match answer
      case Error(e) => Run(t, 1, Ok([Wrapped(e)]))
      case Value(v) =>
        var r := Whole(i, t, calls[1..]);
        Run(r.object_, r.made + 1, match r.outcome case Err(e) => Err(e) case Ok(vs) => Ok([v] + vs))
  }

  /** The first value that cannot be written, whose error the serializer raises for the list. */
  function Unwritable<S, A, R, E>(i: Interface<S, A, R, E>, vs: seq<Val<R, E>>): Option<Val<R, E>> {
    if vs == [] then None else if !i.writable(vs[0]) then Some(vs[0]) else Unwritable(i, vs[1..])
  }

  /** The reply to a batch: the list is written as a whole. */
  function Packed<S, A, R, E>(i: Interface<S, A, R, E>, r: Result<seq<Val<R, E>>, E>): Result<seq<Val<R, E>>, E> {
    match r
    case Err(e) => Err(Reported(i, e))
    case Ok(vs) => match Unwritable(i, vs) case None => r case Some(v) => Err(Reported(i, i.refusal(v)))
  }

  /** What the results generator gives the caller. */
  function Generated<R, E>(results: seq<Val<R, E>>): Observed<R, E> {
    if results == [] then Observed([], None)
    else if results[0].Wrapped? then Observed([], Some(results[0].error))
    else var o := Generated(results[1..]); o.(results := [results[0]] + o.results)
  }

  function Seen<R, E>(r: Result<seq<Val<R, E>>, E>): Observed<R, E> {
    match r case Err(e) => Observed([], Some(e)) case Ok(vs) => Generated(vs)
  }

  function SeenOfBatch<S, A, R, E>(i: Interface<S, A, R, E>, s: S, calls: seq<Call<A>>): Observed<R, E> {
    Seen(Packed(i, Whole(i, s, calls).outcome))
  }

  /** The object after these calls, all of whose names are there. */
  function Applied<S, A, R, E>(i: Interface<S, A, R, E>, s: S, calls: seq<Call<A>>): S
    requires forall k :: 0 <= k < |calls| ==> calls[k].name in i.methods
  {
    if calls == [] then s else Applied(i, i.methods[calls[0].name](s, calls[0].args).0, calls[1..])
  }

  /** What the k-th call answers after the ones before it. */
  function AnswerAt<S, A, R, E>(i: Interface<S, A, R, E>, s: S, calls: seq<Call<A>>, k: nat): Answer<R, E>
    requires k < |calls| && forall j :: 0 <= j <= k ==> calls[j].name in i.methods
  {
    i.methods[calls[k].name](Applied(i, s, calls[..k]), calls[k].args).1
  }

  /** A batch calls the methods in order, on the object as the ones before left it, up to a missing name or the first
      that raises an exception, and collects what each of them returned. */
  ghost predicate Collects<S, A, R, E>(i: Interface<S, A, R, E>, s: S, calls: seq<Call<A>>, r: Run<S, Result<seq<Val<R, E>>, E>>) {
    && r.made <= |calls|
    && (forall k :: 0 <= k < r.made ==> calls[k].name in i.methods)
    && r.object_ == Applied(i, s, calls[..r.made])
    && (forall k :: 0 <= k < r.made - 1 ==> AnswerAt(i, s, calls, k).Value?)
    && match r.outcome
       case Err(e) => r.made < |calls| && calls[r.made].name !in i.methods && e == i.missing(calls[r.made].name)
                      && (r.made > 0 ==> AnswerAt(i, s, calls, r.made - 1).Value?)
       case Ok(vs) =>
         && |vs| == r.made && (r.made < |calls| ==> r.made > 0 && AnswerAt(i, s, calls, r.made - 1).Error?)
         && forall k :: 0 <= k < r.made ==>
              vs[k] == match AnswerAt(i, s, calls, k) case Value(v) => v case Error(e) => Wrapped(e)
  }

  lemma ShiftedAnswer<S, A, R, E>(i: Interface<S, A, R, E>, s: S, calls: seq<Call<A>>, k: nat)
    requires 0 < k < |calls| && forall j :: 0 <= j <= k ==> calls[j].name in i.methods
    ensures AnswerAt(i, s, calls, k) == AnswerAt(i, One(i, s, calls[0]).0, calls[1..], k - 1)
  {
    assert calls[..k][1..] == calls[1..][..k - 1];
  }

  lemma {:induction false} WholeCollects<S, A, R, E>(i: Interface<S, A, R, E>, s: S, calls: seq<Call<A>>)
    ensures Collects(i, s, calls, Whole(i, s, calls))
  {
    if calls != [] && calls[0].name in i.methods {
      var (t, answer) := One(i, s, calls[0]);
      assert AnswerAt(i, s, calls, 0) == answer by { assert calls[..0] == []; }
      var r, rest := Whole(i, s, calls), Whole(i, t, calls[1..]);
      if answer.Error? {
        assert calls[..1] == [calls[0]];
      } else {
        WholeCollects(i, t, calls[1..]);
        assert calls[..r.made][1..] == calls[1..][..rest.made];
        forall k | 0 < k < r.made ensures calls[k].name in i.methods { assert calls[k] == calls[1..][k - 1]; }
        forall k | 0 < k < r.made ensures AnswerAt(i, s, calls, k) == AnswerAt(i, t, calls[1..], k - 1) {
          ShiftedAnswer(i, s, calls, k);
        }
        if rest.outcome.Ok? {
          assert forall k :: 0 < k < r.made ==> r.outcome.value[k] == rest.outcome.value[k - 1];
        }
      }
    }
  }

  // ---------------------------------------------------------------- the code

  class Daemon<!S(!new), !A(!new), !R(!new), !E(!new)> {
    const interface_: Interface<S, A, R, E>
    var object_: S

    constructor (interface_: Interface<S, A, R, E>, object_: S)
      ensures this.interface_ == interface_ && this.object_ == object_
    {
      this.interface_, this.object_ := interface_, object_;
    }

    /** The call of the method itself, in either branch. */
    method CallMethod(call: Call<A>) returns (answer: Answer<R, E>)
      requires call.name in interface_.methods
      modifies this
      ensures (object_, answer) == One(interface_, old(object_), call)
      ensures (object_, answer) == interface_.methods[call.name](old(object_), call.args)
    {
      var (s, a) := interface_.methods[call.name](object_, call.args);
      object_ := s;
      answer := a;
    }

    /** A single call: whatever goes wrong, writing the result included, becomes an exception response. */
    method HandleCall(call: Call<A>) returns (reply: Answer<R, E>)
      modifies this
      ensures object_ == One(interface_, old(object_), call).0
      ensures reply == Reply(interface_, One(interface_, old(object_), call).1)
      ensures if call.name !in interface_.methods then
                var e := interface_.missing(call.name);
                object_ == old(object_) && reply == Error(if interface_.writable(Wrapped(e)) then e else interface_.generic(e))
              else
                var (s, answer) := interface_.methods[call.name](old(object_), call.args);
                && object_ == s
                && match answer
                   case Value(v) =>
                     var e := interface_.refusal(v);
                     reply == if interface_.writable(v) then Value(v)
                              else Error(if interface_.writable(Wrapped(e)) then e else interface_.generic(e))
                   case Error(e) => reply == Error(if interface_.writable(Wrapped(e)) then e else interface_.generic(e))
    {
      var error;
      if call.name !in interface_.methods {
        error := interface_.missing(call.name);
      } else {
        var answer := CallMethod(call);
        match answer {
          case Value(v) =>
            if interface_.writable(v) { return answer; }
            error := interface_.refusal(v);
          case Error(e) => error := e;
        }
      }
      reply := Error(Reported(interface_, error));
    }

    method HandleBatch(calls: seq<Call<A>>) returns (r: Result<seq<Val<R, E>>, E>)
      modifies this
      ensures object_ == Whole(interface_, old(object_), calls).object_
      ensures r == Packed(interface_, Whole(interface_, old(object_), calls).outcome)
      ensures Collects(interface_, old(object_), calls, Whole(interface_, old(object_), calls))
      ensures match Whole(interface_, old(object_), calls).outcome
              case Err(e) => r == Err(if interface_.writable(Wrapped(e)) then e else interface_.generic(e))
              case Ok(vs) => if forall k :: 0 <= k < |vs| ==> interface_.writable(vs[k]) then r == Ok(vs) else r.Err?
    {
      WholeCollects(interface_, object_, calls);
      PackedMeans(interface_, Whole(interface_, object_, calls).outcome);
      hide Collects;
      var data := [];
      var i := 0;
      PrependNothing(Whole(interface_, object_, calls).outcome);
      assert calls[0..] == calls;
      while i < |calls|
        invariant i <= |calls|
        invariant Whole(interface_, old(object_), calls).object_ == Whole(interface_, object_, calls[i..]).object_
        invariant Whole(interface_, old(object_), calls).outcome == Prepend(data, Whole(interface_, object_, calls[i..]).outcome)
      {
        if calls[i].name !in interface_.methods {
          return Err(Reported(interface_, interface_.missing(calls[i].name)));
        }
        var answer := CallMethod(calls[i]);
        match answer {
          case Error(e) =>
            data := data + [Wrapped(e)];
            return Packed(interface_, Ok(data));
          case Value(v) =>
            assert calls[i..][1..] == calls[i + 1..];
            PrependTwice(data, v, Whole(interface_, object_, calls[i + 1..]).outcome);
            data := data + [v];
        }
        i := i + 1;
      }
      assert data + [] == data;
      r := Packed(interface_, Ok(data));
    }
  }

  lemma {:induction false} UnwritableMeans<S, A, R, E>(i: Interface<S, A, R, E>, vs: seq<Val<R, E>>)
    ensures Unwritable(i, vs) == None <==> forall k :: 0 <= k < |vs| ==> i.writable(vs[k])
  {
    if vs != [] {
      UnwritableMeans(i, vs[1..]);
      assert forall k :: 0 < k < |vs| ==> vs[k] == vs[1..][k - 1];
    }
  }

  lemma PackedMeans<S, A, R, E>(i: Interface<S, A, R, E>, r: Result<seq<Val<R, E>>, E>)
    ensures match r
            case Err(e) => Packed(i, r) == Err(if i.writable(Wrapped(e)) then e else i.generic(e))
            case Ok(vs) => if forall k :: 0 <= k < |vs| ==> i.writable(vs[k]) then Packed(i, r) == Ok(vs) else Packed(i, r).Err?
  {
    if r.Ok? { UnwritableMeans(i, r.value); }
  }

  ghost function Prepend<R, E>(front: seq<Val<R, E>>, r: Result<seq<Val<R, E>>, E>): Result<seq<Val<R, E>>, E> {
    match r case Err(e) => Err(e) case Ok(vs) => Ok(front + vs)
  }

  lemma PrependNothing<R, E>(r: Result<seq<Val<R, E>>, E>)
    ensures Prepend([], r) == r
  {
    if r.Ok? { assert [] + r.value == r.value; }
  }

  lemma PrependTwice<R, E>(front: seq<Val<R, E>>, v: Val<R, E>, r: Result<seq<Val<R, E>>, E>)
    ensures Prepend(front, Prepend([v], r)) == Prepend(front + [v], r)
  {
    if r.Ok? { assert front + ([v] + r.value) == (front + [v]) + r.value; }
  }

  class BatchProxy<!S(!new), !A(!new), !R(!new), !E(!new)> {
    const daemon: Daemon<S, A, R, E>
    var calls: seq<Call<A>>

    constructor (daemon: Daemon<S, A, R, E>)
      ensures this.daemon == daemon && calls == []
    {
      this.daemon, calls := daemon, [];
    }

    /** A call on the batch proxy only records it. */
    method Add(call: Call<A>)
      modifies this
      ensures calls == old(calls) + [call]
    {
      calls := calls + [call];
    }

    /** Run the batch and take everything from its results generator. A oneway batch does the same to the object. */
    method Invoke(oneway: bool) returns (seen: Observed<R, E>)
      modifies this, daemon
      ensures daemon.object_ == Whole(daemon.interface_, old(daemon.object_), old(calls)).object_
      ensures seen == if oneway then Observed([], None) else SeenOfBatch(daemon.interface_, old(daemon.object_), old(calls))
      ensures calls == if oneway || Packed(daemon.interface_, Whole(daemon.interface_, old(daemon.object_), old(calls)).outcome).Ok?
                       then [] else old(calls)
    {
      var r := daemon.HandleBatch(calls);
      if oneway {
        calls := [];
        return Observed([], None);
      }
      if r.Err? { return Observed([], Some(r.error)); }
      calls := [];
      seen := Take(r.value);
    }

    method Take(results: seq<Val<R, E>>) returns (seen: Observed<R, E>)
      ensures seen == Generated(results)
      ensures seen.results <= results && forall k :: 0 <= k < |seen.results| ==> results[k].Plain?
      ensures seen.raised == if |seen.results| == |results| then None
                             else match results[|seen.results|] case Wrapped(e) => Some(e) case Plain(_) => None
      ensures |seen.results| < |results| ==> results[|seen.results|].Wrapped?
    {
      var yielded := [];
      for i := 0 to |results|
        invariant yielded == results[..i] && forall k :: 0 <= k < i ==> results[k].Plain?
        invariant Generated(results) ==
                  (var o := Generated(results[i..]); Observed(yielded + o.results, o.raised))
      {
        if results[i].Wrapped? { return Observed(yielded, Some(results[i].error)); }
        assert results[i..][1..] == results[i + 1..];
        yielded := yielded + [results[i]];
      }
      seen := Observed(yielded, None);
    }
  }

  // -------------------------------------------------------------- comparison

  /** No call that is reached returns what cannot be written, or nothing can be called after it. */
  predicate Stops<S, A, R, E>(i: Interface<S, A, R, E>, s: S, calls: seq<Call<A>>) {
    calls == [] || calls[0].name !in i.methods ||
    var (t, answer) := One(i, s, calls[0]);
    match answer
    case Error(_) => true
    case Value(v) =>
      if i.writable(v) then Stops(i, t, calls[1..]) else calls[1..] == [] || calls[1].name !in i.methods
  }

  /** Main result: a batch calls the methods that the single calls call, and leaves the object as they do, if and
      only if no call follows one whose result cannot be written: the single calls stop there, the batch does not. */
  lemma {:induction false} SameCalls<S, A, R, E>(i: Interface<S, A, R, E>, s: S, calls: seq<Call<A>>)
    ensures Whole(i, s, calls).made == OneByOne(i, s, calls).made <==> Stops(i, s, calls)
    ensures Whole(i, s, calls).made >= OneByOne(i, s, calls).made
    ensures Stops(i, s, calls) ==> Whole(i, s, calls).object_ == OneByOne(i, s, calls).object_
  {
    if calls != [] && calls[0].name in i.methods {
      var (t, answer) := One(i, s, calls[0]);
      if answer.Value? { SameCalls(i, t, calls[1..]); }
    }
  }

  /** After the first call: every name is there and everything can be written, and no result is a wrapped exception. */
  predicate Smooth<S, A, R, E>(i: Interface<S, A, R, E>, s: S, calls: seq<Call<A>>) {
    calls == [] ||
    (calls[0].name in i.methods &&
     var (t, answer) := One(i, s, calls[0]);
     match answer
     case Error(e) => i.writable(Wrapped(e))
     case Value(v) => i.writable(v) && v.Plain? && Smooth(i, t, calls[1..]))
  }

  /** The first call may also fail, as long as it is with the error that the batch fails with. */
  ghost predicate Transparent<S, A, R, E>(i: Interface<S, A, R, E>, s: S, calls: seq<Call<A>>) {
    calls == [] || calls[0].name !in i.methods ||
    var (t, answer) := One(i, s, calls[0]);
    match answer
    case Error(e) => i.writable(Wrapped(e)) || Reported(i, i.refusal(Wrapped(e))) == i.generic(e)
    case Value(v) =>
      if i.writable(v) then v.Plain? && Smooth(i, t, calls[1..])
      else match Whole(i, t, calls[1..]).outcome
           case Ok(_) => true
           case Err(e) => Reported(i, e) == Reported(i, i.refusal(v))
  }

  lemma {:induction false} SameTail<S, A, R, E>(i: Interface<S, A, R, E>, s: S, calls: seq<Call<A>>)
    ensures var w := Packed(i, Whole(i, s, calls).outcome);
            && (Smooth(i, s, calls) <==> w.Ok? && Seen(w) == OneByOne(i, s, calls).outcome)
            && (w.Ok? ==> |Seen(w).results| <= |OneByOne(i, s, calls).outcome.results|)
  {
    if calls != [] && calls[0].name in i.methods {
      var (t, answer) := One(i, s, calls[0]);
      if answer.Value? {
        SameTail(i, t, calls[1..]);
        var w := Whole(i, t, calls[1..]).outcome;
        if w.Ok? {
          var vs := [answer.v] + w.value;
          assert vs[1..] == w.value;
          assert Whole(i, s, calls).outcome == Ok(vs);
          assert Unwritable(i, vs) == if i.writable(answer.v) then Unwritable(i, w.value) else Some(answer.v);
          PrependEqual(answer.v, Generated(w.value).results, OneByOne(i, t, calls[1..]).outcome.results);
        }
      } else {
        LoneError(i, answer.e);
      }
    }
  }

  lemma LoneError<S, A, R, E>(i: Interface<S, A, R, E>, e: E)
    ensures Unwritable(i, [Wrapped(e)]) == if i.writable(Wrapped(e)) then None else Some(Wrapped(e))
  {
    var none: seq<Val<R, E>> := [];
    assert [Wrapped(e)][1..] == none;
  }

  lemma PrependEqual<T>(x: T, a: seq<T>, b: seq<T>)
    ensures [x] + a == [x] + b <==> a == b
  {
    assert ([x] + a)[1..] == a && ([x] + b)[1..] == b;
  }

  /** Main result: the caller sees the same results and the same exception if and only if the batch is transparent
      for the run that the calls make. */
  lemma SameResults<S, A, R, E>(i: Interface<S, A, R, E>, s: S, calls: seq<Call<A>>)
    ensures SeenOfBatch(i, s, calls) == OneByOne(i, s, calls).outcome <==> Transparent(i, s, calls)
  {
    if calls != [] && calls[0].name in i.methods {
      var (t, answer) := One(i, s, calls[0]);
      if answer.Value? {
        if i.writable(answer.v) {
          SameTail(i, s, calls);
          NothingIsLess(i, s, calls);
        } else if Whole(i, t, calls[1..]).outcome.Ok? {
          assert Whole(i, s, calls).outcome.value[0] == answer.v;
          assert Unwritable(i, Whole(i, s, calls).outcome.value) == Some(answer.v);
        }
      } else {
        LoneError(i, answer.e);
      }
    }
  }

  /** When the first single call gives a result, a batch that gives none shows something else. */
  lemma NothingIsLess<S, A, R, E>(i: Interface<S, A, R, E>, s: S, calls: seq<Call<A>>)
    requires calls != [] && calls[0].name in i.methods && One(i, s, calls[0]).1.Value? && i.writable(One(i, s, calls[0]).1.v)
    ensures OneByOne(i, s, calls).outcome.results != []
    ensures Packed(i, Whole(i, s, calls).outcome).Err? ==> SeenOfBatch(i, s, calls) != OneByOne(i, s, calls).outcome
  {}

  /** In particular, a caller who knows the interface can tell beforehand. */
  lemma {:induction false} ExposedNames<S, A, R, E>(i: Interface<S, A, R, E>, s: S, calls: seq<Call<A>>)
    requires forall k :: 0 <= k < |calls| ==> calls[k].name in i.methods
    requires forall n, t, a :: n in i.methods ==>
               match i.methods[n](t, a).1
               case Value(v) => v.Plain? && i.writable(v)
               case Error(e) => i.writable(Wrapped(e))
    ensures Smooth(i, s, calls) && Transparent(i, s, calls) && Stops(i, s, calls)
  {
    if calls != [] {
      var (t, answer) := One(i, s, calls[0]);
      if answer.Value? { ExposedNames(i, t, calls[1..]); }
    }
  }
}
