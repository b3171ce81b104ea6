/**
 Item streams: the daemon's table of iterators that remote clients draw from (`streaming_responses` in
 src/Pyro4/core.py), and the two connection lifecycles that keep it: the multiplexing server and the threaded one.

 Here the code is run by one thread; StreamThreads.dfy lets the threads of the threaded server interleave.
 */
module Streams {
  import opened Common

  datatype Conn = Conn(number: nat)

  /** An iterator: what its k-th call gives, which is nothing when it stops or fails there. */
  class Stream<!T> {
    const items: nat -> Option<T>
    var drawn: nat

    constructor (items: nat -> Option<T>)
      ensures this.items == items && drawn == 0
    {
      this.items, drawn := items, 0;
    }

    method Next() returns (item: Option<T>)
      modifies this
      ensures item == items(old(drawn))
      ensures drawn == old(drawn) + 1
    {
      item := items(drawn);
      drawn := drawn + 1;
    }
  }

  /** `linger` is the time at which the owner went away, and zero while there is one. */
  datatype Entry<!T> = Entry(client: Option<Conn>, timestamp: real, linger: real, stream: Stream<T>)

  ghost predicate OwnedOrLingering<T>(e: Entry<T>) {
    e.client.None? <==> e.linger != 0.0
  }

  /** The table after a pass: by age, and by how long the owner has been gone. */
  ghost function AfterPass<T(!new)>(m: map<nat, Entry<T>>, now: real, lifetime: real, linger: real): map<nat, Entry<T>> {
    map id | id in m && !(lifetime > 0.0 && now - m[id].timestamp > lifetime)
                     && !(linger > 0.0 && m[id].linger != 0.0 && now - m[id].linger > linger) :: m[id]
  }

  /** The table after `conn` went away: its streams linger, or are gone when lingering is off. */
  ghost function Orphaned<T(!new)>(m: map<nat, Entry<T>>, conn: Conn, now: real, linger: real): map<nat, Entry<T>> {
    map id | id in m && (linger > 0.0 || m[id].client != Some(conn)) ::
      if m[id].client == Some(conn) then Entry(None, m[id].timestamp, now, m[id].stream) else m[id]
  }

  datatype StreamError = Terminated | LazyIterator | Stopped

  datatype Returned<!T> = Plain | Lazy | Iterator(stream: Stream<T>)

  /** What a request makes the daemon do, as far as streams are concerned. `Lost`: no request could be read. */
  datatype Operation<!T> = Lost | Call(result: Returned<T>) | NextItem(id: nat) | CloseStream(id: nat)

  // ---------------------------------------------------------------- the code

  class Daemon<!T(!new)> {
    const streaming: bool
    const lifetime: real
    const linger: real
    var streams: map<nat, Entry<T>>
    var shuttingDown: bool
    var nextId: nat

    ghost predicate Valid()
      reads this
    {
      forall id :: id in streams ==> id < nextId && OwnedOrLingering(streams[id])
    }

    ghost function Iterators(): set<Stream<T>>
      reads this
    {
      set id | id in streams :: streams[id].stream
    }

    ghost predicate Owns(c: Conn)
      reads this
    {
      exists id :: id in streams && streams[id].client == Some(c)
    }

    constructor (streaming: bool, lifetime: real, linger: real)
      ensures Valid() && streams == map[] && !shuttingDown
      ensures this.streaming == streaming && this.lifetime == lifetime && this.linger == linger
    {
      this.streaming, this.lifetime, this.linger := streaming, lifetime, linger;
      streams, shuttingDown, nextId := map[], false, 0;
    }

    /** A new uuid is a number that was not used before. */
    method StreamResponse(data: Returned<T>, client: Conn, now: real) returns (r: Result<Option<nat>, StreamError>)
      requires Valid()
      modifies this`streams, this`nextId
      ensures Valid()
      ensures r == if data.Lazy? && streaming then Err(LazyIterator)
                   else if data.Iterator? && streaming then Ok(Some(old(nextId))) else Ok(None)
      ensures streams == if data.Iterator? && streaming
                         then old(streams)[old(nextId) := Entry(Some(client), now, 0.0, data.stream)]
                         else old(streams)
    {
      if data.Plain? || !streaming { return Ok(None); }
      if data.Lazy? { return Err(LazyIterator); }
      var id := nextId;
      nextId := nextId + 1;
      streams := streams[id := Entry(Some(client), now, 0.0, data.stream)];
      return Ok(Some(id));
    }

    method GetNextStreamItem(id: nat, current: Conn) returns (r: Result<T, StreamError>)
      requires Valid()
      modifies this`streams, if id in streams then {streams[id].stream} else {}
      ensures Valid()
      ensures id !in old(streams) ==> r == Err(Terminated) && streams == old(streams)
      ensures id in old(streams) ==>
                var e := old(streams)[id];
                && e.stream.drawn == old(e.stream.drawn) + 1
                && r == (match e.stream.items(old(e.stream.drawn)) case Some(v) => Ok(v) case None => Err(Stopped))
                && streams == if r.Err? then old(streams) - {id}
                              else if e.client.None? then old(streams)[id := Entry(Some(current), e.timestamp, 0.0, e.stream)]
                              else old(streams)
    {
      if id !in streams { return Err(Terminated); }
      var entry := streams[id];
      if entry.client == None {
        streams := streams[id := Entry(Some(current), entry.timestamp, 0.0, entry.stream)];
      }
      var item := entry.stream.Next();
      if item == None {
        streams := streams - {id};
        return Err(Stopped);
      }
      return Ok(item.value);
    }

    method CloseStream(id: nat)
      requires Valid()
      modifies this`streams
      ensures Valid() && streams == old(streams) - {id}
    {
      if id in streams {
        streams := streams - {id};
      }
    }

    method ClientDisconnect(conn: Conn, now: real)
      requires Valid() && now > 0.0
      modifies this`streams
      ensures Valid() && streams == Orphaned(old(streams), conn, now, linger)
      ensures forall id :: id in old(streams) && old(streams)[id].client == Some(conn) ==>
                if linger <= 0.0 then id !in streams
                else id in streams && streams[id].client == None && streams[id].linger == now
                     && streams[id].timestamp == old(streams)[id].timestamp && streams[id].stream == old(streams)[id].stream
      ensures forall id :: id in old(streams) && old(streams)[id].client != Some(conn) ==>
                id in streams && streams[id] == old(streams)[id]
      ensures !Owns(conn) && forall c :: Owns(c) ==> old(Owns(c))
    {
      var todo := streams.Keys;
      while todo != {}
        invariant Valid() && streams.Keys <= old(streams.Keys) && todo <= old(streams.Keys)
        invariant forall id :: id in todo ==> id in streams && streams[id] == old(streams)[id]
        invariant forall id :: id in old(streams) && id !in todo ==>
                    (id in streams <==> id in Orphaned(old(streams), conn, now, linger))
        invariant forall id :: id in streams && id !in todo ==> streams[id] == Orphaned(old(streams), conn, now, linger)[id]
      {
        var id: nat :| id in todo;
        todo := todo - {id};
        var info := streams[id];
        if info.client == Some(conn) {
          if linger > 0.0 {
            streams := streams[id := Entry(None, info.timestamp, now, info.stream)];
          } else {
            streams := streams - {id};
          }
        }
      }
    }

    /** One pass in which the clock stands still. */
    method Housekeeping(now: real)
      requires Valid()
      modifies this`streams
      ensures Valid()
      ensures shuttingDown ==> streams == old(streams)
      ensures !shuttingDown ==> streams == AfterPass(old(streams), now, lifetime, linger)
      ensures !shuttingDown ==> forall id :: id in old(streams) ==>
                var e := old(streams)[id];
                && (id in streams <==>
                      && (lifetime > 0.0 ==> now - e.timestamp <= lifetime)
                      && (linger > 0.0 && e.client == None ==> now - e.linger <= linger))
                && (id in streams ==> streams[id] == e)
    {
      if shuttingDown { return; }
      if lifetime > 0.0 { DropOld(now); }
      if linger > 0.0 { DropAbandoned(now); }
    }

    method DropOld(now: real)
      requires Valid()
      modifies this`streams
      ensures Valid()
      ensures streams == map id | id in old(streams) && now - old(streams)[id].timestamp <= lifetime :: old(streams)[id]
    {
      var todo := streams.Keys;
      while todo != {}
        invariant streams.Keys <= old(streams.Keys) && todo <= streams.Keys
        invariant forall id :: id in streams ==> streams[id] == old(streams)[id]
        invariant forall id :: id in old(streams) && id !in todo ==>
                    (id in streams <==> now - old(streams)[id].timestamp <= lifetime)
      {
        var id: nat :| id in todo;
        todo := todo - {id};
        if now - streams[id].timestamp > lifetime {
          streams := streams - {id};
        }
      }
    }

    method DropAbandoned(now: real)
      requires Valid()
      modifies this`streams
      ensures Valid()
      ensures streams == map id | id in old(streams) && (old(streams)[id].client == None ==> now - old(streams)[id].linger <= linger)
                                :: old(streams)[id]
    {
      var todo := streams.Keys;
      while todo != {}
        invariant streams.Keys <= old(streams.Keys) && todo <= streams.Keys
        invariant forall id :: id in streams ==> streams[id] == old(streams)[id]
        invariant forall id :: id in old(streams) && id !in todo ==>
                    (id in streams <==> (old(streams)[id].client == None ==> now - old(streams)[id].linger <= linger))
      {
        var id: nat :| id in todo;
        todo := todo - {id};
        if streams[id].linger != 0.0 && now - streams[id].linger > linger {
          streams := streams - {id};
        }
      }
    }

    /** `handleRequest` on a connection; `fails` is any error that it raises after the operation. */
    method HandleRequest(conn: Conn, op: Operation<T>, fails: bool, now: real) returns (raised: bool)
      requires Valid()
      modifies this`streams, this`nextId, if op.NextItem? && op.id in streams then {streams[op.id].stream} else {}
      ensures Valid()
      ensures raised <==> op.Lost? || fails
      ensures forall c :: Owns(c) ==> c == conn || old(Owns(c))
      ensures Iterators() <= old(Iterators()) + IteratorsIn(op)
      ensures match op
              case Lost => streams == old(streams)
              case Call(result) =>
                streams == if result.Iterator? && streaming then old(streams)[old(nextId) := Entry(Some(conn), now, 0.0, result.stream)]
                           else old(streams)
              case NextItem(id) =>
                && streams - {id} == old(streams) - {id}
                && (id in streams ==> id in old(streams) && var e := old(streams)[id];
                      streams[id] == if e.client.None? then Entry(Some(conn), e.timestamp, 0.0, e.stream) else e)
                && (id in old(streams) ==> var e := old(streams)[id];
                      id in streams <==> e.stream.items(old(e.stream.drawn)).Some?)
              case CloseStream(id) => streams == old(streams) - {id}
    {
      match op {
        case Lost => return true;
        case Call(result) => var _ := StreamResponse(result, conn, now);
        case NextItem(id) => var _ := GetNextStreamItem(id, conn);
        case CloseStream(id) => CloseStream(id);
      }
      raised := fails;
    }
  }

  ghost function AfterPasses<T(!new)>(m: map<nat, Entry<T>>, passes: seq<real>, lifetime: real, linger: real): map<nat, Entry<T>>
    decreases |passes|
  {
    if passes == [] then m else AfterPasses(AfterPass(m, passes[0], lifetime, linger), passes[1..], lifetime, linger)
  }

  /** A stream that nobody uses survives passes exactly as long as each of them finds it young enough, and its owner,
      if it is gone, not gone for too long. */
  lemma {:induction false} SurvivesPasses<T(!new)>(m: map<nat, Entry<T>>, passes: seq<real>, lifetime: real, linger: real, id: nat)
    requires id in m && OwnedOrLingering(m[id])
    ensures id in AfterPasses(m, passes, lifetime, linger) <==>
              forall i :: 0 <= i < |passes| ==>
                && (lifetime > 0.0 ==> passes[i] - m[id].timestamp <= lifetime)
                && (linger > 0.0 && m[id].client == None ==> passes[i] - m[id].linger <= linger)
    ensures id in AfterPasses(m, passes, lifetime, linger) ==> AfterPasses(m, passes, lifetime, linger)[id] == m[id]
    decreases |passes|
  {
    if passes != [] {
      var next := AfterPass(m, passes[0], lifetime, linger);
      if id in next {
        SurvivesPasses(next, passes[1..], lifetime, linger, id);
        assert forall i :: 0 < i < |passes| ==> passes[i] == passes[1..][i - 1];
      } else {
        NeverComesBack(next, passes[1..], lifetime, linger, id);
      }
    }
  }

  lemma {:induction false} NeverComesBack<T(!new)>(m: map<nat, Entry<T>>, passes: seq<real>, lifetime: real, linger: real, id: nat)
    requires id !in m
    ensures id !in AfterPasses(m, passes, lifetime, linger)
    decreases |passes|
  {
    if passes != [] { NeverComesBack(AfterPass(m, passes[0], lifetime, linger), passes[1..], lifetime, linger, id); }
  }

  /** Main result: a stream whose owner goes away at time t is still there after any passes if and only if streams
      linger, none of the passes came later than the linger time after t, and none found it too old. */
  lemma LingersFromDeparture<T(!new)>(m: map<nat, Entry<T>>, conn: Conn, t: real, passes: seq<real>,
                                      lifetime: real, linger: real, id: nat)
    requires id in m && m[id].client == Some(conn) && t > 0.0
    ensures id in AfterPasses(Orphaned(m, conn, t, linger), passes, lifetime, linger) <==>
              && linger > 0.0
              && forall i :: 0 <= i < |passes| ==>
                   passes[i] <= t + linger && (lifetime > 0.0 ==> passes[i] <= m[id].timestamp + lifetime)
  {
    var gone := Orphaned(m, conn, t, linger);
    if linger > 0.0 {
      SurvivesPasses(gone, passes, lifetime, linger, id);
    } else {
      NeverComesBack(gone, passes, lifetime, linger, id);
    }
  }

  ghost function IteratorsIn<T(!new)>(op: Operation<T>): set<Stream<T>> {
    if op.Call? && op.result.Iterator? then {op.result.stream} else {}
  }

  ghost function IteratorsOf<T(!new)>(requests: seq<Request<T>>): set<Stream<T>> {
    set i, x | 0 <= i < |requests| && x in IteratorsIn(requests[i].op) :: x
  }

  /** A request as its connection delivers it, with the clock at that moment. */
  datatype Request<!T> = Request(op: Operation<T>, fails: bool, now: real)

  /** Whether the connection is closed because of it. */
  predicate Ends<T(!new)>(r: Request<T>) { r.op.Lost? || r.fails }

  /** The threaded server: one job for each connection. */
  class ConnectionJob<!T(!new)> {
    const csock: Conn
    const daemon: Daemon<T>
    var open: bool

    constructor (csock: Conn, daemon: Daemon<T>)
      ensures this.csock == csock && this.daemon == daemon && open
    {
      this.csock, this.daemon, open := csock, daemon, true;
    }

    /** What the client sends ends with its going away. Afterwards the connection owns no stream. */
    method Run(accepted: bool, requests: seq<Request<T>>, now: real) returns (served: nat)
      requires daemon.Valid() && now > 0.0 && !daemon.Owns(csock)
      requires requests != [] && requests[|requests| - 1].op.Lost?
      modifies this, daemon`streams, daemon`nextId, daemon.Iterators(), IteratorsOf(requests)
      ensures daemon.Valid() && !open && !daemon.Owns(csock)
      ensures forall c :: daemon.Owns(c) ==> old(daemon.Owns(c))
      ensures !accepted ==> daemon.streams == old(daemon.streams) && served == 0
      ensures accepted ==>
                && 1 <= served <= |requests| && (requests[served - 1].op.Lost? || requests[served - 1].fails)
                && forall i :: 0 <= i < served - 1 ==> !requests[i].op.Lost? && !requests[i].fails
    {
      served := 0;
      if accepted {
        while true
          invariant served < |requests| && daemon.Valid()
          invariant forall i :: 0 <= i < served ==> !Ends(requests[i])
          invariant forall c :: daemon.Owns(c) ==> c == csock || old(daemon.Owns(c))
          invariant daemon.Iterators() <= old(daemon.Iterators()) + IteratorsOf(requests)
          decreases |requests| - served
        {
          var r := requests[served];
          served := served + 1;
          var raised := daemon.HandleRequest(csock, r.op, r.fails, r.now);
          if raised { break; }
        }
        daemon.ClientDisconnect(csock, now);
      }
      open := false;
    }
  }

  /** What `select` reports: a connection waiting to be accepted, or a request waiting on one. */
  datatype Event<!T> = Arrival(conn: Conn, accepted: bool) | Readable(conn: Conn, request: Request<T>)

  ghost function EventIterators<T(!new)>(events: seq<Event<T>>): set<Stream<T>> {
    set i, x | 0 <= i < |events| && events[i].Readable? && x in IteratorsIn(events[i].request.op) :: x
  }

  /** The connections registered after the events. */
  ghost function Registered<T(!new)>(registered: set<Conn>, events: seq<Event<T>>): set<Conn> {
    if events == [] then registered
    else
      var before, e := Registered(registered, events[..|events| - 1]), events[|events| - 1];
      match e
      case Arrival(conn, accepted) => if accepted then before + {conn} else before
      case Readable(conn, request) => if Ends(request) then before - {conn} else before
  }

  /** The multiplexing server: one thread for all connections. */
  class Multiplexer<!T(!new)> {
    const daemon: Daemon<T>
    var registered: set<Conn>

    ghost predicate Valid()
      reads this, daemon
    {
      && daemon.Valid()
      && forall c :: daemon.Owns(c) ==> c in registered
    }

    constructor (daemon: Daemon<T>)
      requires daemon.Valid() && daemon.streams == map[]
      ensures Valid() && this.daemon == daemon && registered == {}
    {
      this.daemon, registered := daemon, {};
    }

    method OneEvent(event: Event<T>, now: real)
      requires Valid() && now > 0.0 && (event.Readable? ==> event.conn in registered)
      modifies this`registered, daemon`streams, daemon`nextId, daemon.Iterators(), EventIterators([event])
      ensures Valid() && registered == Registered(old(registered), [event])
      ensures match event
              case Arrival(conn, accepted) => registered == (if accepted then old(registered) + {conn} else old(registered))
                                              && daemon.streams == old(daemon.streams)
              case Readable(conn, request) =>
                && registered == (if request.op.Lost? || request.fails then old(registered) - {conn} else old(registered))
                && (request.op.Lost? || request.fails ==> !daemon.Owns(conn))
      ensures daemon.Iterators() <= old(daemon.Iterators()) + EventIterators([event])
    {
      assert Registered(old(registered), [event][..0]) == old(registered);
      match event {
        case Arrival(conn, accepted) =>
          if accepted { registered := registered + {conn}; }
        case Readable(conn, request) =>
          assert [event][0] == event;
          assert IteratorsIn(request.op) <= EventIterators([event]);
          var raised := daemon.HandleRequest(conn, request.op, request.fails, request.now);
          if raised {
            daemon.ClientDisconnect(conn, now);
            registered := registered - {conn};
          }
      }
    }

    method Events(events: seq<Event<T>>, now: real)
      requires Valid() && now > 0.0
      requires forall i :: 0 <= i < |events| && events[i].Readable? ==>
                 events[i].conn in Registered(registered, events[..i])
      modifies this`registered, daemon`streams, daemon`nextId, daemon.Iterators(), EventIterators(events)
      ensures Valid()
      ensures registered == if daemon.shuttingDown then old(registered) else Registered(old(registered), events)
      ensures !daemon.shuttingDown ==> forall id :: id in daemon.streams ==>
                var e := daemon.streams[id];
                && (daemon.lifetime > 0.0 ==> now - e.timestamp <= daemon.lifetime)
                && (daemon.linger > 0.0 && e.client == None ==> now - e.linger <= daemon.linger)
    {
      for n := 0 to |events|
        invariant Valid() && (n > 0 ==> !daemon.shuttingDown)
        invariant registered == Registered(old(registered), events[..n])
        invariant daemon.Iterators() <= old(daemon.Iterators()) + EventIterators(events)
      {
        if daemon.shuttingDown { return; }
        OneMore(old(registered), events, n);
        OneEvent(events[n], now);
      }
      assert events[..|events|] == events;
      daemon.Housekeeping(now);
    }
  }

  lemma OneMore<T(!new)>(registered: set<Conn>, events: seq<Event<T>>, n: nat)
    requires n < |events|
    ensures Registered(registered, events[..n + 1]) == Registered(Registered(registered, events[..n]), [events[n]])
    ensures EventIterators([events[n]]) <= EventIterators(events)
  {
    assert events[..n + 1][..n] == events[..n];
    assert [events[n]][..0] == [];
  }

  /** The connection was accepted in the n-th event, or was registered before all of them if n is zero, and no later
      request ended it. */
  ghost predicate StaysSince<T(!new)>(registered: set<Conn>, events: seq<Event<T>>, c: Conn, n: nat) {
    && n <= |events|
    && (if n == 0 then c in registered else events[n - 1] == Arrival(c, true))
    && forall i :: n <= i < |events| && events[i].Readable? && events[i].conn == c ==>
         !events[i].request.op.Lost? && !events[i].request.fails
  }

  lemma {:induction false} RegisteredMeans<T(!new)>(registered: set<Conn>, events: seq<Event<T>>, c: Conn)
    ensures c in Registered(registered, events) <==> exists n: nat :: StaysSince(registered, events, c, n)
  {
    if events != [] {
      var k := |events| - 1;
      var before, e := events[..k], events[k];
      RegisteredMeans(registered, before, c);
      forall n: nat | n <= k
        ensures StaysSince(registered, events, c, n) <==>
                  StaysSince(registered, before, c, n) && !(e.Readable? && e.conn == c && Ends(e.request))
      {
        assert n > 0 ==> before[n - 1] == events[n - 1];
        assert forall i :: n <= i < k ==> before[i] == events[i];
      }
      assert StaysSince(registered, events, c, k + 1) <==> e == Arrival(c, true);
      assert forall n: nat :: StaysSince(registered, events, c, n) ==> n <= k || n == k + 1;
    } else {
      assert StaysSince(registered, events, c, 0) <==> c in registered;
    }
  }
}
