/**
 Sending and receiving byte strings over a socket that may do both piecemeal (src/Pyro4/socketutil.py).
 */
module Transport {
  import opened Common

  /** What the next call on a socket meets. `Ready(n)`: up to n+1 bytes go through. A failing send may have
      written some bytes first. Past the end of its schedule a socket is lost. */
  datatype Event = Ready(n: nat) | Retryable | TimedOut(written: nat) | Lost(written: nat) | Shut

  datatype CallError = WouldBlock | SocketTimeout | SocketError

  datatype Error = Timeout | ConnectionClosed | NotEnoughData(partial: Bytes) | NegativeSize

  function Min(a: nat, b: nat): nat {
    if a < b then a else b
  }

  /** Nothing but progress and retryable errors. */
  predicate Smooth(schedule: seq<Event>) {
    forall e :: e in schedule ==> e.Ready? || e.Retryable?
  }

  /** How many of the coming calls make progress. */
  function Supply(schedule: seq<Event>): nat {
    if schedule == [] then 0 else Supply(schedule[1..]) + if schedule[0].Ready? then 1 else 0
  }

  /** A failing send leaves some prefix of the data behind. */
  ghost predicate WrotePrefix(before: Bytes, data: Bytes, after: Bytes) {
    exists k :: 0 <= k <= |data| && after == before + data[..k]
  }

  lemma PrefixOfRest(before: Bytes, data: Bytes, done: nat, n: nat)
    requires done + n <= |data|
    ensures before + data[..done] + data[done..][..n] == before + data[..done + n]
  {
    assert data[..done] + data[done..][..n] == data[..done + n];
  }

  /** The events that were used up neither timed out nor broke the connection. */
  ghost predicate OnlyHarmless(before: seq<Event>, after: seq<Event>) {
    && |after| <= |before| && after == before[|before| - |after|..]
    && forall i :: 0 <= i < |before| - |after| ==> before[i].Ready? || before[i].Retryable? || before[i].Shut?
  }

  lemma NothingUsed(s: seq<Event>)
    ensures OnlyHarmless(s, s)
  {}

  lemma HarmlessStep(before: seq<Event>, after: seq<Event>)
    requires OnlyHarmless(before, after) && after != [] && !after[0].TimedOut? && !after[0].Lost?
    ensures OnlyHarmless(before, after[1..])
  {
    assert before[|before| - |after|] == after[0];
  }

  /** All was harmless up to the last event, a timeout or a lost connection. */
  ghost predicate EndedBy(before: seq<Event>, after: seq<Event>, timeout: bool, lost: bool) {
    exists last: Event :: OnlyHarmless(before, [last] + after) && last.TimedOut? == timeout && last.Lost? == lost
  }

  lemma Ended(before: seq<Event>, after: seq<Event>)
    requires OnlyHarmless(before, after) && after != []
    ensures EndedBy(before, after[1..], after[0].TimedOut?, after[0].Lost?)
    ensures !after[0].TimedOut? && !after[0].Lost? ==> OnlyHarmless(before, after[1..])
    ensures after[0].Shut? ==> EndedByShut(before, after[1..])
  {
    assert [after[0]] + after[1..] == after;
    if !after[0].TimedOut? && !after[0].Lost? {
      HarmlessStep(before, after);
    }
  }

  ghost predicate EndedByShut(before: seq<Event>, after: seq<Event>) {
    |after| < |before| && before[|before| - |after| - 1].Shut?
  }

  class Socket {
    var incoming: Bytes   // what the peer has sent and will send before it shuts its side
    var outgoing: Bytes
    var schedule: seq<Event>
    var open: bool

    constructor (incoming: Bytes, schedule: seq<Event>)
      ensures this.incoming == incoming && this.schedule == schedule && outgoing == [] && open
    {
      this.incoming, this.schedule, outgoing, open := incoming, schedule, [], true;
    }

    method Close()
      modifies this`open
      ensures !open
    {
      open := false;
    }

    /** `start` is the schedule at some earlier time. */
    method Recv(max: nat, ghost start: seq<Event>) returns (r: Result<Bytes, CallError>)
      modifies this`incoming, this`schedule
      ensures |schedule| < |old(schedule)| || (old(schedule) == [] && r == Err(SocketError))
      ensures OnlyHarmless(start, old(schedule)) ==>
                && (r.Ok? || r.error.WouldBlock? ==> OnlyHarmless(start, schedule))
                && (r == Err(SocketTimeout) ==> EndedBy(start, schedule, true, false))
                && (r == Err(SocketError) ==> EndedBy(start, schedule, false, true) || (schedule == [] && OnlyHarmless(start, [])))
      ensures r.Ok? ==> |r.value| <= max && old(incoming) == r.value + incoming
      ensures r.Err? ==> incoming == old(incoming)
      ensures Smooth(old(schedule)) && old(schedule) != [] ==>
                && Smooth(schedule)
                && (r.Err? ==> r.error.WouldBlock? && Supply(schedule) == Supply(old(schedule)))
                && (r.Ok? ==> Supply(schedule) == Supply(old(schedule)) - 1 && (r.value == [] ==> max == 0 || incoming == []))
    {
      if schedule == [] { return Err(SocketError); }
      if OnlyHarmless(start, schedule) { Ended(start, schedule); }
      hide OnlyHarmless, EndedBy, EndedByShut;
      var event := schedule[0];
      assert event in schedule;
      schedule := schedule[1..];
      match event {
        case Retryable => r := Err(WouldBlock);
        case TimedOut(_) => r := Err(SocketTimeout);
        case Lost(_) => r := Err(SocketError);
        case Shut => r := Ok([]);
        case Ready(n) =>
          var k := Min(Min(n + 1, max), |incoming|);
          r := Ok(incoming[..k]);
          incoming := incoming[k..];
      }
    }

    /** A non-blocking `send`, or a blocking `sendall` when `all`. */
    method Send(data: Bytes, all: bool, ghost start: seq<Event>) returns (r: Result<nat, CallError>)
      modifies this`outgoing, this`schedule
      ensures |schedule| < |old(schedule)| || (old(schedule) == [] && r == Err(SocketError))
      ensures OnlyHarmless(start, old(schedule)) ==>
                && (r.Ok? || r.error.WouldBlock? ==> OnlyHarmless(start, schedule))
                && (r == Err(SocketTimeout) ==> EndedBy(start, schedule, true, false))
                && (r == Err(SocketError) ==>
                      || EndedBy(start, schedule, false, true)
                      || (OnlyHarmless(start, schedule) && (schedule == [] || EndedByShut(start, schedule))))
      ensures r.Ok? ==> r.value <= |data| && outgoing == old(outgoing) + data[..r.value]
      ensures r.Ok? && all ==> r.value == |data|
      ensures r.Err? ==> WrotePrefix(old(outgoing), data, outgoing)
      ensures r.Err? && r.error.WouldBlock? ==> outgoing == old(outgoing)
      ensures Smooth(old(schedule)) && old(schedule) != [] ==>
                && Smooth(schedule)
                && (r.Err? ==> r.error.WouldBlock? && Supply(schedule) == Supply(old(schedule)))
                && (r.Ok? ==> Supply(schedule) == Supply(old(schedule)) - 1 && (data != [] ==> r.value > 0))
      ensures old(schedule) != [] && old(schedule)[0].Ready? ==> r.Ok?
    {
      assert outgoing == outgoing + data[..0];
      if schedule == [] { return Err(SocketError); }
      if OnlyHarmless(start, schedule) { Ended(start, schedule); }
      hide OnlyHarmless, EndedBy, EndedByShut;
      var event := schedule[0];
      assert event in schedule;
      schedule := schedule[1..];
      match event {
        case Retryable => r := Err(WouldBlock);
        case TimedOut(w) => r := Err(SocketTimeout); outgoing := outgoing + data[..Min(w, |data|)];
        case Lost(w) => r := Err(SocketError); outgoing := outgoing + data[..Min(w, |data|)];
        case Shut => r := Err(SocketError);
        case Ready(n) =>
          var k := if all then |data| else Min(n + 1, |data|);
          outgoing := outgoing + data[..k];
          r := Ok(k);
      }
    }
  }

  /** The loop around the read with MSG_WAITALL, which ends with the first read that gives anything but an error to
      retry. */
  method ReceiveAtOnce(sock: Socket, size: nat, ghost start: seq<Event>) returns (r: Result<Bytes, Error>)
    modifies sock`incoming, sock`schedule
    ensures r.Ok? ==> |r.value| <= size && old(sock.incoming) == r.value + sock.incoming
    ensures r.Err? ==> sock.incoming == old(sock.incoming) && (r.error.Timeout? || r.error.ConnectionClosed?)
    ensures OnlyHarmless(start, old(sock.schedule)) ==>
              && (r.Ok? ==> OnlyHarmless(start, sock.schedule))
              && (r == Err(Timeout) ==> EndedBy(start, sock.schedule, true, false))
              && (r == Err(ConnectionClosed) ==>
                    EndedBy(start, sock.schedule, false, true) || (sock.schedule == [] && OnlyHarmless(start, [])))
    ensures Smooth(old(sock.schedule)) && Supply(old(sock.schedule)) > 0 ==>
              && r.Ok? && Smooth(sock.schedule) && Supply(sock.schedule) == Supply(old(sock.schedule)) - 1
              && (r.value == [] ==> size == 0 || sock.incoming == [])
  {
    hide OnlyHarmless, EndedBy;
    while true
      invariant sock.incoming == old(sock.incoming)
      invariant OnlyHarmless(start, old(sock.schedule)) ==> OnlyHarmless(start, sock.schedule)
      invariant Smooth(old(sock.schedule)) ==> Smooth(sock.schedule) && Supply(sock.schedule) == Supply(old(sock.schedule))
      decreases |sock.schedule|
    {
      var data := sock.Recv(size, start);
      match data {
        case Err(WouldBlock) =>
        case Err(SocketTimeout) => return Err(Timeout);
        case Err(SocketError) => return Err(ConnectionClosed);
        case Ok(bytes) => return Ok(bytes);
      }
    }
  }

  /** `receiveData`: exactly `size` bytes or an error. `waitAll`: the platform's MSG_WAITALL is used first. */
  method ReceiveData(sock: Socket, size: int, waitAll: bool) returns (r: Result<Bytes, Error>, ghost got: Bytes)
    modifies sock`incoming, sock`schedule
    ensures old(sock.incoming) == got + sock.incoming
    ensures size >= 0 ==> |got| <= size
    // the error is that of the event that ended it; a schedule that is used up gives nothing more
    ensures r.Ok? || r.error.NotEnoughData? || r.error.NegativeSize? ==> OnlyHarmless(old(sock.schedule), sock.schedule)
    ensures r == Err(Timeout) ==> EndedBy(old(sock.schedule), sock.schedule, true, false)
    ensures r == Err(ConnectionClosed) ==>
              || EndedBy(old(sock.schedule), sock.schedule, false, true)
              || (sock.schedule == [] && OnlyHarmless(old(sock.schedule), []))
    ensures size < 0 ==> got == [] && r == Err(if waitAll then NegativeSize else NotEnoughData([]))
    ensures r.Ok? ==> r.value == got && |got| == size
    ensures r.Err? && r.error.NotEnoughData? ==> r.error.partial == got && |got| != size
    ensures Smooth(old(sock.schedule)) && size >= 0 && Supply(old(sock.schedule)) > Min(size, |old(sock.incoming)|) + 1 ==>
              && (if |old(sock.incoming)| >= size then r.Ok? else r == Err(NotEnoughData(old(sock.incoming))))
              && (r.Ok? ==> Smooth(sock.schedule) && Supply(sock.schedule) >= Supply(old(sock.schedule)) - |got| - 1)
  {
    var chunks: Bytes := [];
    got := [];
    ghost var start := sock.schedule;
    NothingUsed(start);
    hide OnlyHarmless, EndedBy;
    if waitAll {
      if size < 0 { return Err(NegativeSize), []; }
      var first := ReceiveAtOnce(sock, size, start);
      match first {
        case Err(e) => return Err(e), [];
        case Ok(bytes) =>
          got := bytes;
          if |bytes| == size { return Ok(bytes), bytes; }
          chunks := bytes;
      }
    }
    var rest, error := ReceiveLoop(sock, size - |chunks|, start);
    chunks := chunks + rest;
    got := chunks;
    if error.Some? { return Err(error.value), got; }
    if |chunks| != size {
      assert chunks + [] == chunks;
      return Err(NotEnoughData(chunks)), got;
    }
    return Ok(chunks), got;
  }

  /** The other loop, until `size` more bytes are there or none come any more. */
  method ReceiveLoop(sock: Socket, size: int, ghost start: seq<Event>) returns (chunks: Bytes, error: Option<Error>)
    modifies sock`incoming, sock`schedule
    ensures old(sock.incoming) == chunks + sock.incoming && |chunks| <= if size < 0 then 0 else size
    ensures error.Some? ==> error.value.Timeout? || error.value.ConnectionClosed?
    ensures OnlyHarmless(start, old(sock.schedule)) ==>
              && (error == None ==> OnlyHarmless(start, sock.schedule))
              && (error == Some(Timeout) ==> EndedBy(start, sock.schedule, true, false))
              && (error == Some(ConnectionClosed) ==>
                    EndedBy(start, sock.schedule, false, true) || (sock.schedule == [] && OnlyHarmless(start, [])))
    ensures size > 0 && Smooth(old(sock.schedule)) && Supply(old(sock.schedule)) > Min(size, |old(sock.incoming)|) ==>
              && error == None && |chunks| == Min(size, |old(sock.incoming)|)
              && Smooth(sock.schedule) && Supply(sock.schedule) >= Supply(old(sock.schedule)) - |chunks| - (if |chunks| < size then 1 else 0)
    ensures size <= 0 ==> chunks == [] && error == None && sock.schedule == old(sock.schedule)
  {
    chunks, error := [], None;
    ghost var smooth := Smooth(sock.schedule) && Supply(sock.schedule) > Min(if size < 0 then 0 else size, |sock.incoming|);
    hide OnlyHarmless, EndedBy;
    while |chunks| < size
      invariant old(sock.incoming) == chunks + sock.incoming
      invariant OnlyHarmless(start, old(sock.schedule)) ==> OnlyHarmless(start, sock.schedule)
      invariant |chunks| <= if size < 0 then 0 else size
      invariant smooth ==> Smooth(sock.schedule) && Supply(sock.schedule) + |chunks| >= Supply(old(sock.schedule))
      invariant chunks == [] && size <= 0 ==> sock.schedule == old(sock.schedule)
      decreases |sock.schedule|
    {
      var chunk := sock.Recv(Min(60000, size - |chunks|), start);
      match chunk {
        case Err(WouldBlock) =>
        case Err(SocketTimeout) => error := Some(Timeout); return;
        case Err(SocketError) => error := Some(ConnectionClosed); return;
        case Ok(bytes) =>
          if bytes == [] { return; }
          chunks := chunks + bytes;
      }
    }
  }

  /** `sendData`: all of `data`, or an error after a prefix of it. */
  method SendData(sock: Socket, data: Bytes, blocking: bool) returns (r: Result<(), Error>)
    modifies sock`outgoing, sock`schedule
    ensures r.Ok? ==> sock.outgoing == old(sock.outgoing) + data
    ensures r.Err? ==> WrotePrefix(old(sock.outgoing), data, sock.outgoing)
    ensures r.Ok? ==> OnlyHarmless(old(sock.schedule), sock.schedule)
    ensures r == Err(Timeout) ==> EndedBy(old(sock.schedule), sock.schedule, true, false)
    ensures r.Err? && r != Err(Timeout) ==>
              && r == Err(ConnectionClosed)
              && (|| EndedBy(old(sock.schedule), sock.schedule, false, true)
                  || (OnlyHarmless(old(sock.schedule), sock.schedule)
                      && (sock.schedule == [] || blocking || EndedByShut(old(sock.schedule), sock.schedule))))
    ensures blocking && old(sock.schedule) != [] && old(sock.schedule)[0].Ready? ==> r.Ok?
    ensures !blocking && Smooth(old(sock.schedule)) && Supply(old(sock.schedule)) >= |data| ==>
              r.Ok? && Smooth(sock.schedule) && Supply(sock.schedule) >= Supply(old(sock.schedule)) - |data|
  {
    assert data[..|data|] == data;
    ghost var start := sock.schedule;
    NothingUsed(start);
    hide OnlyHarmless, EndedBy, EndedByShut;
    if blocking {
      var sent := sock.Send(data, true, start);
      match sent {
        case Ok(_) => return Ok(());
        case Err(SocketTimeout) => return Err(Timeout);
        case Err(_) => return Err(ConnectionClosed);
      }
    }
    var rest := data;
    ghost var done := 0;
    ghost var smooth := Smooth(sock.schedule) && Supply(sock.schedule) >= |data|;
    while rest != []
      invariant 0 <= done <= |data| && rest == data[done..]
      invariant sock.outgoing == old(sock.outgoing) + data[..done]
      invariant OnlyHarmless(start, sock.schedule)
      invariant smooth ==> Smooth(sock.schedule) && Supply(sock.schedule) >= Supply(old(sock.schedule)) - done
      decreases |sock.schedule|
    {
      var sent := sock.Send(rest, false, start);
      match sent {
        case Ok(n) =>
          PrefixOfRest(old(sock.outgoing), data, done, n);
          rest := rest[n..];
          done := done + n;
        case Err(WouldBlock) =>
        case Err(e) =>
          ghost var k: nat :| k <= |rest| && sock.outgoing == old(sock.outgoing) + data[..done] + rest[..k];
          PrefixOfRest(old(sock.outgoing), data, done, k);
          return Err(if e.SocketTimeout? then Timeout else ConnectionClosed);
      }
    }
    return Ok(());
  }
}
