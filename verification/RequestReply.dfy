/**
 The request/reply protocol between a proxy and a daemon (src/Pyro4/core.py).

 The first half is the code: `Proxy` and `Daemon.HandleRequest` over a pair of message queues.
 The second half is the whole system as a state machine: one proxy, any number of successive
 connections, and the daemon working through the requests of every connection it still has open,
 interleaved in any order. `Accepts`, `Releases` and `DaemonMay` are the interface: the methods are
 proved to meet them and the machine uses nothing else of the code.
 */
module RequestReply {
  import opened Common

  const SEQUENCE_NUMBERS: int := 65536

  /** Invocations are told apart by the number of `_pyroInvoke` calls the proxy has made; the wire
      only carries that number modulo 65536. */
  datatype Request = Request(seqNo: int, oneway: bool, call: nat)

  /** What a reply says: what the method returned, the stream of its items, or an exception. */
  datatype Content = Result(data: Bytes) | Stream(id: Bytes) | Exception(text: Bytes)

  /** `call` says whose answer this is; the client only sees `seqNo` and `content`. */
  datatype Reply = Reply(seqNo: int, call: nat, content: Content)

  function NextSeq(n: int): (r: int) {
    (n + 1) % SEQUENCE_NUMBERS
  }

  // ---------------------------------------------------------------- the code

  /** One connection as two message queues. */
  class Connection {
    const keepOpen: bool
    var requests: seq<Request>
    var replies: seq<Reply>
    var closed: bool  // by the proxy

    constructor (keepOpen: bool)
      ensures this.keepOpen == keepOpen && requests == [] && replies == [] && !closed
    {
      this.keepOpen := keepOpen;
      requests, replies, closed := [], [], false;
    }
  }

  /** What became of writing the request. */
  datatype SendOutcome = Sent | SendFailed | NotBuilt

  /** What the proxy meets while it waits for a reply. */
  datatype Waiting = Message(usable: Usability) | CommunicationError | KeyboardInterrupt

  /** A message with the right sequence number can still be refused, or carry an exception that is itself a
      communication error. */
  datatype Usability = Usable | UsableCommError | Unusable(isCommError: bool)

  /** Whether `_pyroInvoke` hands the message it read to its caller; `inSync`: its sequence number fits. */
  predicate Accepts(event: Waiting, inSync: bool) {
    event.Message? && inSync && !event.usable.Unusable?
  }

  /** Whether `_pyroInvoke` calls `_pyroRelease`. */
  predicate Releases(event: Waiting, inSync: bool) {
    event.Message? ==> !inSync || event.usable.UsableCommError? || (event.usable.Unusable? && event.usable.isCommError)
  }

  class Proxy {
    var seqNo: int
    var connection: Connection?

    constructor ()
      ensures seqNo == 0 && connection == null
    {
      seqNo, connection := 0, null;
    }

    method Release()
      modifies this`connection, (if connection == null then {} else {connection})`closed
      ensures old(connection) != null && !old(connection).keepOpen ==> connection == null && old(connection).closed
      ensures old(connection) != null && old(connection).keepOpen ==>
                connection == old(connection) && connection.closed == old(connection.closed)
      ensures old(connection) == null ==> connection == null
    {
      if connection != null {
        if connection.keepOpen { return; }
        connection.closed := true;
        connection := null;
      }
    }

    /** The first half of `_pyroInvoke`: number the request and write it. */
    method SendInvoke(oneway: bool, call: nat, outcome: SendOutcome) returns (awaiting: bool)
      requires connection != null && !connection.closed
      requires 0 <= seqNo < SEQUENCE_NUMBERS
      modifies this, connection
      ensures seqNo == NextSeq(old(seqNo)) && 0 <= seqNo < SEQUENCE_NUMBERS
      ensures awaiting <==> outcome.Sent? && !oneway
      ensures old(connection).replies == old(connection.replies)
      ensures outcome.Sent? ==>
                && connection == old(connection) && !connection.closed
                && connection.requests == old(connection.requests) + [Request(seqNo, oneway, call)]
      ensures !outcome.Sent? ==> old(connection).requests == old(connection.requests)
      ensures outcome.SendFailed? ==> connection == if old(connection).keepOpen then old(connection) else null
      ensures outcome.NotBuilt? ==> connection == old(connection) && !connection.closed
    {
      seqNo := NextSeq(seqNo);
      awaiting := false;
      match outcome {
        case NotBuilt =>
        case SendFailed => Release();
        case Sent =>
          connection.requests := connection.requests + [Request(seqNo, oneway, call)];
          awaiting := !oneway;
      }
    }

    /** The second half of `_pyroInvoke`: read one message, check it, and drop the connection on any
        communication error. */
    method ReceiveReply(event: Waiting) returns (accepted: Option<Reply>)
      requires connection != null && !connection.closed
      requires event.Message? ==> connection.replies != []
      modifies this`connection, connection
      ensures seqNo == old(seqNo)
      ensures old(connection).requests == old(connection.requests)
      ensures old(connection).replies == if event.Message? then old(connection.replies)[1..] else old(connection.replies)
      ensures var inSync := event.Message? && old(connection.replies)[0].seqNo == seqNo;
              && accepted == (if Accepts(event, inSync) then Some(old(connection.replies)[0]) else None)
              && connection == (if Releases(event, inSync) && !old(connection).keepOpen then null else old(connection))
              && old(connection).closed == (Releases(event, inSync) && !old(connection).keepOpen)
      ensures var inSync := event.Message? && old(connection.replies)[0].seqNo == seqNo;
              && (inSync && event.usable in {Usable, UsableCommError} ==> accepted == Some(old(connection.replies)[0]))
              && (!inSync || event.usable.Unusable? ==> accepted == None)
              && (inSync && event.usable in {Usable, Unusable(false)} ==> connection == old(connection) && !connection.closed)
              && ((!inSync || event.usable in {UsableCommError, Unusable(true)}) && !old(connection).keepOpen ==>
                    connection == null && old(connection).closed)
    {
      accepted := None;
      match event {
        case CommunicationError => Release();
        case KeyboardInterrupt => Release();
        case Message(usable) =>
          var msg := connection.replies[0];
          connection.replies := connection.replies[1..];
          if msg.seqNo != seqNo {
            Release();  // ProtocolError: reply sequence out of sync
          } else {
            match usable {
              case Usable => accepted := Some(msg);
              case UsableCommError => accepted := Some(msg); Release();
              case Unusable(isCommError) => if isCommError { Release(); }
            }
          }
      }
    }
  }

  /** The classes of exception that `Daemon.handleRequest` tells apart. */
  datatype Fault = Ordinary | ConnectionClosed | OtherCommunication | Serialize | Security

  predicate IsCommunication(f: Fault) {
    f.ConnectionClosed? || f.OtherCommunication? || f.Serialize?
  }

  /** An exception, the sequence number of the `pyroMsg` it carries, if it carries one, and what a client is told. */
  datatype Failure = Failure(fault: Fault, pyroMsg: Option<int>, text: Bytes)

  /** What happens between reading a request and replying to it. */
  datatype Execution =
    | Refused(failure: Failure)                      // before the method is called
    | Threaded                                       // a oneway call handed to its own thread
    | Called(result: CallResult, isCallback: bool)

  datatype CallResult = Value(data: Bytes) | ItemStream(id: Bytes) | Raised(failure: Failure)

  /** The reply says what its call came to: what was returned, or the exception that was raised, be it by the call or
      by writing its result. */
  ghost predicate Tells(content: Content, run: Execution, replyFails: Option<Failure>) {
    match run
    case Threaded => false
    case Refused(f) => content == Exception(f.text)
    case Called(Raised(f), _) => content == Exception(f.text)
    case Called(Value(d), _) => content == if replyFails == None then Result(d) else Exception(replyFails.value.text)
    case Called(ItemStream(id), _) => content == if replyFails == None then Stream(id) else Exception(replyFails.value.text)
  }

  /** What one request may lead to: no reply for a oneway call, and for any other call exactly one reply, to
      that call and telling what it came to, or an exception that makes the transport server close the connection. */
  ghost predicate DaemonMay(q: Request, run: Execution, replyFails: Option<Failure>, sent: seq<Reply>, raised: bool, echo: bool) {
    && (q.oneway ==> sent == [])
    && (!q.oneway ==> |sent| == 1 || (sent == [] && raised))
    && (forall i :: 0 <= i < |sent| ==>
          sent[i].call == q.call && Tells(sent[i].content, run, replyFails) && (echo ==> sent[i].seqNo == q.seqNo))
  }

  ghost predicate CarriesNoMessage(run: Execution) {
    && (run.Refused? ==> run.failure.pyroMsg == None)
    && (run.Called? && run.result.Raised? ==> run.result.failure.pyroMsg == None)
  }

  class Daemon {
    /** `Connection.send` of one reply: all of it is written or the send fails. */
    method Send(conn: Connection, r: Reply, failure: Option<Failure>) returns (error: Option<Failure>)
      modifies conn`replies
      ensures error == failure
      ensures conn.replies == if failure == None then old(conn.replies) + [r] else old(conn.replies)
    {
      if failure == None {
        conn.replies := conn.replies + [r];
      }
      error := failure;
    }

    /** `run` is what the request leads to and `replyFails`/`errorFails` what the two places that write to the
        connection meet. Returns whether an exception leaves `handleRequest`. */
    method HandleRequest(conn: Connection, run: Execution, replyFails: Option<Failure>, errorFails: Option<Failure>)
      returns (raised: bool, ghost sent: seq<Reply>)
      requires conn.requests != []
      requires run.Threaded? ==> conn.requests[0].oneway
      modifies conn`requests, conn`replies
      ensures conn.requests == old(conn.requests)[1..]
      ensures conn.replies == old(conn.replies) + sent
      ensures DaemonMay(old(conn.requests)[0], run, replyFails, sent, raised,
                        CarriesNoMessage(run) && (replyFails.Some? ==> replyFails.value.pyroMsg == None))
      // what the method returned is replied
      ensures var q := old(conn.requests)[0];
              && (run.Threaded? ==> !raised && sent == [])
              && (run.Called? && run.result.Value? && (q.oneway || replyFails == None) ==>
                    !raised && sent == if q.oneway then [] else [Reply(q.seqNo, q.call, Result(run.result.data))])
              && (run.Called? && run.result.ItemStream? && (q.oneway || replyFails == None) ==>
                    !raised && sent == if q.oneway then [] else [Reply(q.seqNo, q.call, Stream(run.result.id))])
      // an exception, be it the call's or that of writing its reply, is replied unless it is about the connection
      ensures var q := old(conn.requests)[0];
              var x := if run.Refused? then Some(run.failure)
                       else if run.Called? && run.result.Raised? then Some(run.result.failure)
                       else if run.Called? && !q.oneway then replyFails else None;
              x.Some? ==>
                && (q.oneway || x.value.fault in {ConnectionClosed, OtherCommunication} ==> sent == [])
                && (!q.oneway && x.value.fault in {Ordinary, Serialize, Security} && errorFails == None ==>
                      sent == [Reply(if x.value.pyroMsg.Some? then x.value.pyroMsg.value else q.seqNo, q.call, Exception(x.value.text))])
                && (!q.oneway && x.value.fault in {Ordinary, Serialize, Security} && errorFails.Some? ==> raised && sent == [])
                && (sent != [] || q.oneway || x.value.fault in {ConnectionClosed, OtherCommunication} ==>
                      (raised <==> x.value.fault != Ordinary || (run.Called? && run.isCallback)))
    {
      var q := conn.requests[0];
      conn.requests := conn.requests[1..];
      var requestSeq := q.seqNo;
      var isCallback := false;
      var failure: Option<Failure> := None;
      sent := [];
      match run {
        case Refused(f) => failure := Some(f);
        case Threaded => return false, [];
        case Called(result, callback) =>
          isCallback := callback;
          match result {
            case Raised(f) => failure := Some(f);
            case ItemStream(id) =>
              if q.oneway { return false, []; }
              failure := Send(conn, Reply(requestSeq, q.call, Stream(id)), replyFails);
              if failure == None { return false, [Reply(requestSeq, q.call, Stream(id))]; }
            case Value(d) =>
              if q.oneway { return false, []; }
              failure := Send(conn, Reply(requestSeq, q.call, Result(d)), replyFails);
              if failure == None { return false, [Reply(requestSeq, q.call, Result(d))]; }
          }
      }
      var x := failure.value;
      if x.pyroMsg.Some? {
        requestSeq := x.pyroMsg.value;
      }
      if !x.fault.ConnectionClosed? && !q.oneway && (x.fault.Serialize? || !IsCommunication(x.fault)) {
        var error := Send(conn, Reply(requestSeq, q.call, Exception(x.text)), errorFails);
        if error.Some? { return true, []; }
        sent := [Reply(requestSeq, q.call, Exception(x.text))];
      }
      raised := isCallback || IsCommunication(x.fault) || x.fault.Security?;
    }
  }

  // ------------------------------------------------------- the whole system

  /** One connection between the proxy and the daemon; `served` until the transport server closes it. */
  datatype Link = Link(requests: seq<Request>, replies: seq<Reply>, served: bool)

  datatype State = State(
    seqNo: int,                    // _pyroSeq
    calls: nat,                    // how often _pyroInvoke numbered a request
    awaiting: bool,                // call `calls` holds the lock and waits for its reply
    current: Option<nat>,          // the proxy's connection
    links: seq<Link>,              // every connection ever made
    home: map<nat, nat>,           // call that expects a reply -> the connection its request was written to
    executions: map<nat, (Execution, Option<Failure>)>,  // call -> what it came to, and what writing its result met
    answered: map<nat, Content>,   // call -> what the daemon replied
    results: map<nat, Content>)    // call -> what _pyroInvoke took from the reply it accepted

  /** `keepOpen`: the proxy was made around an existing socket. `echo`: no exception carries a `pyroMsg`. */
  datatype Config = Config(keepOpen: bool, echo: bool)

  datatype Action =
    | Connect
    | Invoke(oneway: bool, outcome: SendOutcome)
    | Receive(event: Waiting)
    | ReleaseProxy
    | Serve(link: nat, run: Execution, replyFails: Option<Failure>, sent: seq<Reply>, raised: bool)
    | ServerCloses(link: nat)

  ghost predicate Init(c: Config, s: State) {
    && s.seqNo == 0 && s.calls == 0 && !s.awaiting
    && s.home == map[] && s.executions == map[] && s.answered == map[] && s.results == map[]
    && if c.keepOpen then s.current == Some(0) && s.links == [Link([], [], true)]
       else s.current == None && s.links == []
  }

  function Released(c: Config, current: Option<nat>): (r: Option<nat>) {
    if c.keepOpen then current else None
  }

  ghost predicate Enabled(c: Config, s: State, a: Action) {
    match a
    case Connect => !s.awaiting && s.current == None
    case Invoke(_, _) => !s.awaiting && s.current.Some? && s.current.value < |s.links|
    case Receive(event) =>
      && s.awaiting && s.current.Some? && s.current.value < |s.links|
      && (event.Message? ==> s.links[s.current.value].replies != [])
    case ReleaseProxy => !s.awaiting
    case Serve(i, run, fails, sent, raised) =>
      && i < |s.links| && s.links[i].served && s.links[i].requests != []
      && DaemonMay(s.links[i].requests[0], run, fails, sent, raised, c.echo)
    case ServerCloses(i) => i < |s.links|
  }

  ghost predicate InSync(s: State, event: Waiting)
    requires s.current.Some? && s.current.value < |s.links|
    requires event.Message? ==> s.links[s.current.value].replies != []
  {
    event.Message? && s.links[s.current.value].replies[0].seqNo == s.seqNo
  }

  ghost function Apply(c: Config, s: State, a: Action): State
    requires Enabled(c, s, a)
  {
    match a
    case Connect => s.(current := Some(|s.links|), links := s.links + [Link([], [], true)])
    case Invoke(oneway, outcome) =>
      var i := s.current.value;
      var seqNo := NextSeq(s.seqNo);
      var t := s.(seqNo := seqNo, calls := s.calls + 1);
      (match outcome
       case NotBuilt => t
       case SendFailed => t.(current := Released(c, s.current))
       case Sent =>
         t.(awaiting := !oneway,
            links := s.links[i := s.links[i].(requests := s.links[i].requests + [Request(seqNo, oneway, s.calls + 1)])],
            home := if oneway then s.home else s.home[s.calls + 1 := i]))
    case Receive(event) =>
      var i := s.current.value;
      var replies := s.links[i].replies;
      var inSync := InSync(s, event);
      s.(awaiting := false,
         current := if Releases(event, inSync) then Released(c, s.current) else s.current,
         links := if event.Message? then s.links[i := s.links[i].(replies := replies[1..])] else s.links,
         results := if Accepts(event, inSync) then s.results[s.calls := replies[0].content] else s.results)
    case ReleaseProxy => s.(current := Released(c, s.current))
    case Serve(i, run, fails, sent, raised) =>
      var q := s.links[i].requests[0];
      s.(executions := s.executions[q.call := (run, fails)],
         links := s.links[i := Link(s.links[i].requests[1..], s.links[i].replies + sent, !raised)],
         answered := if sent == [] then s.answered else s.answered[q.call := sent[0].content])
    case ServerCloses(i) => s.(links := s.links[i := s.links[i].(served := false)])
  }

  ghost predicate Next(c: Config, s: State, t: State) {
    exists a :: Enabled(c, s, a) && t == Apply(c, s, a)
  }

  ghost predicate IsRun(c: Config, run: seq<State>) {
    && run != []
    && Init(c, run[0])
    && forall i :: 0 < i < |run| ==> Next(c, run[i - 1], run[i])
  }

  // ------------------------------------------------------------ invariants

  /** A queued request was numbered by the proxy, belongs to its connection and is not answered yet. */
  ghost predicate RequestOk(s: State, i: nat, q: Request) {
    && 0 < q.call <= s.calls
    && q.seqNo == q.call % SEQUENCE_NUMBERS
    && q.call !in s.answered
    && (if q.oneway then q.call !in s.home else q.call in s.home && s.home[q.call] == i)
  }

  /** A queued reply carries the daemon's answer to its call. */
  ghost predicate ReplyOk(c: Config, s: State, r: Reply) {
    && 0 < r.call <= s.calls
    && r.call in s.answered && s.answered[r.call] == r.content
    && (c.echo ==> r.seqNo == r.call % SEQUENCE_NUMBERS)
  }

  /** Replies come back in the order of their calls, and before the requests still queued. */
  ghost predicate InOrder(l: Link) {
    && (forall i, j :: 0 <= i < j < |l.requests| ==> l.requests[i].call < l.requests[j].call)
    && (forall i, j :: 0 <= i < j < |l.replies| ==> l.replies[i].call < l.replies[j].call)
    && (forall i, j :: 0 <= i < |l.replies| && 0 <= j < |l.requests| ==> l.replies[i].call < l.requests[j].call)
  }

  ghost predicate LinkOk(c: Config, s: State, i: nat, l: Link) {
    && InOrder(l)
    && (forall q :: q in l.requests ==> RequestOk(s, i, q))
    && (forall r :: r in l.replies ==> ReplyOk(c, s, r))
  }

  ghost predicate Sound(c: Config, s: State) {
    && s.seqNo == s.calls % SEQUENCE_NUMBERS
    && (s.current.Some? ==> s.current.value == |s.links| - 1)
    && (s.awaiting ==> s.current.Some?)
    && (c.keepOpen ==> s.current.Some?)
    && (forall i :: 0 <= i < |s.links| ==> LinkOk(c, s, i, s.links[i]))
    && (forall x :: x in s.home ==> 0 < x <= s.calls && s.home[x] < |s.links|)
    && (forall x :: x in s.answered ==> x <= s.calls && x in s.executions && Tells(s.answered[x], s.executions[x].0, s.executions[x].1))
    && (forall x :: x in s.results ==> x <= s.calls && (s.awaiting ==> x < s.calls))
  }

  ghost predicate Queued(l: Link, x: nat) {
    exists q :: q in l.requests && q.call == x
  }

  /** Whoever expects a reply got one, can still get one, or is on a connection the server closed. */
  ghost predicate NotDropped(s: State, x: nat)
    requires x in s.home
  {
    s.home[x] < |s.links| && (x in s.answered || !s.links[s.home[x]].served || Queued(s.links[s.home[x]], x))
  }

  ghost predicate NothingDropped(s: State) {
    forall x :: x in s.home ==> NotDropped(s, x)
  }

  /** On an ordinary connection only the call that holds the lock can have a reply outstanding. */
  ghost predicate Clean(s: State) {
    s.current.Some? ==> s.current.value < |s.links| && CleanLink(s.links[s.current.value], s.awaiting, s.calls)
  }

  ghost predicate CleanLink(l: Link, awaiting: bool, calls: nat) {
    && (forall q :: q in l.requests && !q.oneway ==> awaiting && q.call == calls)
    && (l.replies != [] ==> awaiting && |l.replies| == 1 && l.replies[0].call == calls)
  }

  ghost predicate ResultsRight(s: State) {
    forall x :: x in s.results ==> x in s.answered && s.results[x] == s.answered[x]
  }

  // ----------------------------------------------------- the proof, per step

  /** `t` knows everything `s` knows, and has answered at most call `x` in addition. */
  ghost predicate Grows(s: State, t: State, x: nat) {
    && s.calls <= t.calls
    && (forall y :: y in s.home ==> y in t.home && t.home[y] == s.home[y])
    && (forall y :: y in t.home && y !in s.home ==> s.calls < y)
    && (forall y :: y in s.answered ==> y in t.answered && (y != x ==> t.answered[y] == s.answered[y]))
    && (forall y :: y in t.answered && y !in s.answered ==> y == x)
    && (x in s.answered ==> t.answered[x] == s.answered[x])
  }

  lemma LinkGrows(c: Config, s: State, t: State, i: nat, l: Link, x: nat)
    requires LinkOk(c, s, i, l) && Grows(s, t, x)
    requires forall q :: q in l.requests && q.call == x ==> x !in t.answered
    ensures LinkOk(c, t, i, l)
  {
  }

  /** Answering the oldest request keeps the order. */
  lemma ServedOrder(l: Link, run: Execution, fails: Option<Failure>, sent: seq<Reply>, raised: bool, echo: bool)
    requires InOrder(l) && l.requests != [] && DaemonMay(l.requests[0], run, fails, sent, raised, echo)
    ensures InOrder(Link(l.requests[1..], l.replies + sent, !raised))
    ensures forall p :: p in l.requests[1..] ==> p in l.requests && p.call > l.requests[0].call
  {
    forall p | p in l.requests[1..] ensures p in l.requests && p.call > l.requests[0].call {
      var k :| 0 <= k < |l.requests[1..]| && l.requests[1..][k] == p;
      assert l.requests[k + 1] == p;
    }
  }

  lemma ServedLink(c: Config, s: State, i: nat, run: Execution, fails: Option<Failure>, sent: seq<Reply>, raised: bool)
    requires Sound(c, s) && Enabled(c, s, Serve(i, run, fails, sent, raised))
    ensures var t := Apply(c, s, Serve(i, run, fails, sent, raised)); LinkOk(c, t, i, t.links[i])
  {
    var t := Apply(c, s, Serve(i, run, fails, sent, raised));
    var l := s.links[i];
    var q := l.requests[0];
    assert LinkOk(c, s, i, l) && RequestOk(s, i, q);
    ServedOrder(l, run, fails, sent, raised, c.echo);
    hide InOrder;
    forall p | p in l.requests[1..] ensures RequestOk(t, i, p) {
      assert RequestOk(s, i, p);
    }
    forall r | r in t.links[i].replies ensures ReplyOk(c, t, r) {
      if r in l.replies {
        assert ReplyOk(c, s, r);
      } else {
        assert r == sent[0];
      }
    }
  }

  lemma SoundServe(c: Config, s: State, i: nat, run: Execution, fails: Option<Failure>, sent: seq<Reply>, raised: bool)
    requires Sound(c, s) && Enabled(c, s, Serve(i, run, fails, sent, raised))
    ensures Sound(c, Apply(c, s, Serve(i, run, fails, sent, raised)))
    ensures Grows(s, Apply(c, s, Serve(i, run, fails, sent, raised)), s.links[i].requests[0].call)
  {
    var t := Apply(c, s, Serve(i, run, fails, sent, raised));
    var q := s.links[i].requests[0];
    assert q in s.links[i].requests && RequestOk(s, i, q);
    ServedLink(c, s, i, run, fails, sent, raised);
    forall j | 0 <= j < |t.links| ensures LinkOk(c, t, j, t.links[j]) {
      if j != i {
        assert LinkOk(c, s, j, s.links[j]);
        forall p | p in s.links[j].requests && p.call == q.call ensures q.call !in t.answered {
          assert RequestOk(s, j, p);
          assert q.oneway && sent == [];
        }
        LinkGrows(c, s, t, j, s.links[j], q.call);
      }
    }
  }

  lemma NextSeqCounts(n: nat)
    ensures NextSeq(n % SEQUENCE_NUMBERS) == (n + 1) % SEQUENCE_NUMBERS
  {
  }

  lemma InvokedLink(c: Config, s: State, oneway: bool)
    requires Sound(c, s) && Enabled(c, s, Invoke(oneway, Sent))
    ensures var t := Apply(c, s, Invoke(oneway, Sent)); LinkOk(c, t, s.current.value, t.links[s.current.value])
  {
    var t := Apply(c, s, Invoke(oneway, Sent));
    var i := s.current.value;
    var l, q := s.links[i], Request(NextSeq(s.seqNo), oneway, s.calls + 1);
    NextSeqCounts(s.calls);
    assert LinkOk(c, s, i, l);
    LinkGrows(c, s, t, i, l, 0);
    assert RequestOk(t, i, q);
    assert t.links[i] == Link(l.requests + [q], l.replies, l.served);
    assert forall a :: 0 <= a < |l.requests| ==> RequestOk(s, i, l.requests[a]);
    assert forall a :: 0 <= a < |l.replies| ==> ReplyOk(c, s, l.replies[a]);
    assert InOrder(t.links[i]);
  }

  lemma SoundInvoke(c: Config, s: State, oneway: bool, outcome: SendOutcome)
    requires Sound(c, s) && Enabled(c, s, Invoke(oneway, outcome))
    ensures Sound(c, Apply(c, s, Invoke(oneway, outcome)))
  {
    var t := Apply(c, s, Invoke(oneway, outcome));
    NextSeqCounts(s.calls);
    if outcome.Sent? {
      InvokedLink(c, s, oneway);
    }
    forall j | 0 <= j < |t.links| && t.links[j] == s.links[j] ensures LinkOk(c, t, j, t.links[j]) {
      assert LinkOk(c, s, j, s.links[j]);
      LinkGrows(c, s, t, j, s.links[j], 0);
    }
  }

  lemma ReceivedLink(c: Config, s: State, i: nat, l: Link)
    requires LinkOk(c, s, i, l) && l.replies != []
    ensures LinkOk(c, s, i, l.(replies := l.replies[1..]))
  {
    var m := l.(replies := l.replies[1..]);
    assert forall r :: r in m.replies ==> r in l.replies;
    assert forall a :: 0 <= a < |m.replies| ==> m.replies[a] == l.replies[a + 1];
  }

  lemma SoundReceive(c: Config, s: State, event: Waiting)
    requires Sound(c, s) && Enabled(c, s, Receive(event))
    ensures Sound(c, Apply(c, s, Receive(event)))
  {
    var t := Apply(c, s, Receive(event));
    if event.Message? {
      ReceivedLink(c, s, s.current.value, s.links[s.current.value]);
    }
    forall j | 0 <= j < |t.links| ensures LinkOk(c, t, j, t.links[j]) {
      LinkGrows(c, s, t, j, t.links[j], 0);
    }
  }

  lemma SoundStep(c: Config, s: State, a: Action)
    requires Sound(c, s) && Enabled(c, s, a)
    ensures Sound(c, Apply(c, s, a))
  {
    match a
    case Invoke(oneway, outcome) => SoundInvoke(c, s, oneway, outcome);
    case Receive(event) => SoundReceive(c, s, event);
    case Serve(i, run, fails, sent, raised) => SoundServe(c, s, i, run, fails, sent, raised);
    case _ =>
      var t := Apply(c, s, a);
      forall j | 0 <= j < |t.links| ensures LinkOk(c, t, j, t.links[j]) {
        if j < |s.links| {
          assert LinkOk(c, s, j, s.links[j]);
          LinkGrows(c, s, t, j, s.links[j], 0);
        }
      }
  }

  /** A request that leaves its queue unanswered takes the connection with it. */
  lemma QueuedStep(c: Config, s: State, a: Action, x: nat)
    requires Sound(c, s) && Enabled(c, s, a) && x in s.home
    requires Queued(s.links[s.home[x]], x)
    ensures NotDropped(Apply(c, s, a), x)
  {
    var t := Apply(c, s, a);
    var i := s.home[x];
    var q :| q in s.links[i].requests && q.call == x;
    assert LinkOk(c, s, i, s.links[i]) && RequestOk(s, i, q);
    if !(a.Serve? && a.link == i && q == s.links[i].requests[0]) {
      assert q in t.links[i].requests;
    }
  }

  lemma NotDroppedStep(c: Config, s: State, a: Action, x: nat)
    requires Sound(c, s) && Enabled(c, s, a) && x in s.home && NotDropped(s, x)
    ensures x in Apply(c, s, a).home && NotDropped(Apply(c, s, a), x)
  {
    if Queued(s.links[s.home[x]], x) {
      QueuedStep(c, s, a, x);
    }
  }

  lemma DroppedStep(c: Config, s: State, a: Action)
    requires Sound(c, s) && NothingDropped(s) && Enabled(c, s, a)
    ensures NothingDropped(Apply(c, s, a))
  {
    var t := Apply(c, s, a);
    forall x | x in t.home ensures NotDropped(t, x) {
      if x in s.home {
        NotDroppedStep(c, s, a, x);
      } else {
        var qs := t.links[t.home[x]].requests;
        assert qs[|qs| - 1] in qs && qs[|qs| - 1].call == x;
      }
    }
  }

  lemma CleanServedLink(c: Config, s: State, i: nat, l: Link, run: Execution, fails: Option<Failure>, sent: seq<Reply>, raised: bool)
    requires LinkOk(c, s, i, l) && CleanLink(l, s.awaiting, s.calls)
    requires l.requests != [] && DaemonMay(l.requests[0], run, fails, sent, raised, c.echo)
    ensures CleanLink(Link(l.requests[1..], l.replies + sent, !raised), s.awaiting, s.calls)
  {
    var q := l.requests[0];
    assert q in l.requests && RequestOk(s, i, q);
    assert l.replies == [];  // a queued reply would be older than `q`, but it belongs to the newest call
    assert forall p :: p in l.requests[1..] ==> p in l.requests;
  }

  /** The reply that is taken was the only one, and the request it answers is gone. */
  lemma CleanReceive(c: Config, s: State, event: Waiting)
    requires !c.keepOpen && Sound(c, s) && Clean(s) && Enabled(c, s, Receive(event))
    ensures Clean(Apply(c, s, Receive(event)))
  {
    var t := Apply(c, s, Receive(event));
    var i := s.current.value;
    if t.current.Some? {
      assert t.links[i].replies == [];
      assert LinkOk(c, s, i, s.links[i]) && ReplyOk(c, s, s.links[i].replies[0]);
      forall q | q in t.links[i].requests ensures q.oneway {
        assert RequestOk(s, i, q);
      }
    }
  }

  lemma CleanInvoke(c: Config, s: State, oneway: bool, outcome: SendOutcome)
    requires !c.keepOpen && Sound(c, s) && Clean(s) && Enabled(c, s, Invoke(oneway, outcome))
    ensures Clean(Apply(c, s, Invoke(oneway, outcome)))
  {
    var t := Apply(c, s, Invoke(oneway, outcome));
    var i := s.current.value;
    if outcome.Sent? {
      forall q | q in t.links[i].requests && !q.oneway ensures q.call == t.calls {
        assert q in s.links[i].requests || q == Request(NextSeq(s.seqNo), oneway, s.calls + 1);
      }
    }
  }

  lemma CleanStep(c: Config, s: State, a: Action)
    requires !c.keepOpen && Sound(c, s) && Clean(s) && Enabled(c, s, a)
    ensures Clean(Apply(c, s, a))
  {
    match a
    case Serve(i, run, fails, sent, raised) =>
      if s.current == Some(i) {
        CleanServedLink(c, s, i, s.links[i], run, fails, sent, raised);
      }
    case Receive(event) => CleanReceive(c, s, event);
    case Invoke(oneway, outcome) => CleanInvoke(c, s, oneway, outcome);
    case _ =>
  }

  lemma ResultsStep(c: Config, s: State, a: Action)
    requires Sound(c, s) && ResultsRight(s) && Enabled(c, s, a)
    requires a.Receive? && InSync(s, a.event) ==> s.links[s.current.value].replies[0].call == s.calls
    ensures ResultsRight(Apply(c, s, a))
  {
    if a.Receive? {
      var i := s.current.value;
      assert LinkOk(c, s, i, s.links[i]);
      assert a.event.Message? ==> ReplyOk(c, s, s.links[i].replies[0]);
    } else if a.Serve? {
      assert LinkOk(c, s, a.link, s.links[a.link]) && RequestOk(s, a.link, s.links[a.link].requests[0]);
    }
  }

  // -------------------------------------------------- the proof, over runs

  ghost function Last(run: seq<State>): State
    requires run != []
  {
    run[|run| - 1]
  }

  lemma LastStep(c: Config, run: seq<State>) returns (s: State, a: Action)
    requires IsRun(c, run) && |run| > 1
    ensures IsRun(c, run[..|run| - 1]) && s == run[|run| - 2] == Last(run[..|run| - 1])
    ensures Enabled(c, s, a) && Last(run) == Apply(c, s, a)
  {
    s := run[|run| - 2];
    assert Next(c, run[|run| - 2], run[|run| - 1]);
    a :| Enabled(c, s, a) && Last(run) == Apply(c, s, a);
  }

  lemma {:induction false} RunSound(c: Config, run: seq<State>)
    requires IsRun(c, run)
    ensures Sound(c, Last(run)) && NothingDropped(Last(run))
    ensures !c.keepOpen ==> Clean(Last(run)) && ResultsRight(Last(run))
  {
    if |run| > 1 {
      var s, a := LastStep(c, run);
      RunSound(c, run[..|run| - 1]);
      SoundStep(c, s, a);
      DroppedStep(c, s, a);
      if !c.keepOpen {
        CleanStep(c, s, a);
        ResultsStep(c, s, a);
      }
    }
  }

  /** Ordinary connections: whatever the timeouts, oneway calls, remote exceptions and reconnects, what
      `_pyroInvoke` took from a reply is the daemon's answer to that very call; no reply is outstanding while the
      call lock is free; and a call that expects a reply is answered, still queued, or on a connection the server
      closed. Not even an exception with a `pyroMsg` of its own breaks this. */
  lemma RepliesMatchCalls(run: seq<State>, echo: bool)
    requires IsRun(Config(false, echo), run)
    ensures forall x :: x in Last(run).results ==>
              x in Last(run).answered && Last(run).results[x] == Last(run).answered[x]
    ensures !Last(run).awaiting && Last(run).current.Some? ==>
              Last(run).current.value < |Last(run).links| && Last(run).links[Last(run).current.value].replies == []
    ensures Last(run).awaiting && Last(run).current.Some? ==>
              Last(run).current.value < |Last(run).links|
              && forall r :: r in Last(run).links[Last(run).current.value].replies ==> r.call == Last(run).calls
    ensures NothingDropped(Last(run))
  {
    RunSound(Config(false, echo), run);
  }

  /** The sequence check alone: it accepts a reply to the current call exactly when the reply's call is less than
      65536 calls old. */
  lemma SequenceCheckWindow(c: Config, s: State)
    requires c.echo && Sound(c, s) && s.awaiting
    requires s.links[s.current.value].replies != []
    ensures var r := s.links[s.current.value].replies[0];
            && (forall r' :: r' in s.links[s.current.value].replies ==> r.call <= r'.call)
            && (r.call == s.calls ==> r.seqNo == s.seqNo)
            && (r.seqNo == s.seqNo ==> (r.call == s.calls <==> s.calls - r.call < SEQUENCE_NUMBERS))
  {
    var i := s.current.value;
    assert LinkOk(c, s, i, s.links[i]) && ReplyOk(c, s, s.links[i].replies[0]);
  }

  /** Fewer than 65536 calls were numbered since the request of the oldest unread reply. */
  ghost predicate InWindow(s: State) {
    s.current.Some? && s.current.value < |s.links| && s.links[s.current.value].replies != [] ==>
      s.calls - s.links[s.current.value].replies[0].call < SEQUENCE_NUMBERS
  }

  ghost predicate StaysInWindow(run: seq<State>) {
    forall i :: 0 <= i < |run| ==> InWindow(run[i])
  }

  /** A connection that is kept open, where a timeout leaves the reply unread: within the window every accepted
      reply still belongs to its call. */
  lemma {:induction false} KeptOpenRepliesMatchCalls(run: seq<State>)
    requires IsRun(Config(true, true), run)
    requires StaysInWindow(run)
    ensures ResultsRight(Last(run))
  {
    if |run| > 1 {
      var c := Config(true, true);
      var s, a := LastStep(c, run);
      KeptOpenRepliesMatchCalls(run[..|run| - 1]);
      RunSound(c, run[..|run| - 1]);
      KeptOpenStep(c, s, a);
    }
  }

  lemma KeptOpenStep(c: Config, s: State, a: Action)
    requires c.echo && Sound(c, s) && ResultsRight(s) && InWindow(s) && Enabled(c, s, a)
    ensures ResultsRight(Apply(c, s, a))
  {
    if a.Receive? && a.event.Message? {
      SequenceCheckWindow(c, s);
    }
    ResultsStep(c, s, a);
  }

  /** Main result: what the caller is given is what its own call came to: the value or the stream that the method
      returned in this very call, or the exception that the call or writing its result raised. So it is in every run
      on ordinary connections, and on a kept-open one in the runs in which every accepted reply is right. */
  lemma ResultsAreReturned(c: Config, run: seq<State>, x: nat)
    requires IsRun(c, run) && x in Last(run).results && (c.keepOpen ==> c.echo && StaysInWindow(run))
    ensures x in Last(run).executions
    ensures var (execution, writing) := Last(run).executions[x];
            var result := Last(run).results[x];
            match execution
            case Called(Value(d), _) => result == if writing == None then Result(d) else Exception(writing.value.text)
            case Called(ItemStream(id), _) => result == if writing == None then Stream(id) else Exception(writing.value.text)
            case Called(Raised(f), _) => result == Exception(f.text)
            case Refused(f) => result == Exception(f.text)
            case Threaded => false
  {
    RunSound(c, run);
    if c.keepOpen { KeptOpenRepliesMatchCalls(run); }
  }

  // ----------------------------------------- both conditions are necessary

  /** In some run, and in one that stays in the window if `inWindow` says so. */
  ghost predicate Reachable(c: Config, s: State, inWindow: bool) {
    exists run :: IsRun(c, run) && Last(run) == s && (inWindow ==> StaysInWindow(run))
  }

  lemma ReachStep(c: Config, s: State, a: Action, inWindow: bool) returns (t: State)
    requires Reachable(c, s, inWindow) && Enabled(c, s, a) && (inWindow ==> InWindow(Apply(c, s, a)))
    ensures t == Apply(c, s, a) && Reachable(c, t, inWindow)
  {
    t := Apply(c, s, a);
    var run :| IsRun(c, run) && Last(run) == s && (inWindow ==> StaysInWindow(run));
    var longer := run + [t];
    forall i | 0 < i < |longer| ensures Next(c, longer[i - 1], longer[i]) {
      if i < |run| {
        assert Next(c, run[i - 1], run[i]);
      }
    }
    assert IsRun(c, longer) && Last(longer) == t;
  }

  lemma ReachInit(c: Config, s: State)
    requires Init(c, s) && InWindow(s)
    ensures Reachable(c, s, true)
  {
    assert IsRun(c, [s]) && Last([s]) == s && StaysInWindow([s]);
  }

  lemma WindowOrNot(c: Config, s: State)
    requires Reachable(c, s, true)
    ensures Reachable(c, s, false)
  {}

  lemma {:induction false} ManyOneways(s: State, n: nat) returns (t: State)
    requires Reachable(Config(true, true), s, false) && !s.awaiting && s.current == Some(0) && |s.links| == 1
    ensures Reachable(Config(true, true), t, false) && !t.awaiting && t.current == Some(0) && |t.links| == 1
    ensures t.calls == s.calls + n && t.links[0].replies == s.links[0].replies
    ensures t.answered == s.answered && t.results == s.results
  {
    t := s;
    if n > 0 {
      t := ManyOneways(s, n - 1);
      t := ReachStep(Config(true, true), t, Invoke(true, Sent), false);
    }
  }

  lemma FirstCallTimesOut(echo: bool, seqNo: int) returns (t: State)
    requires echo ==> seqNo == 1
    ensures Reachable(Config(true, echo), t, true) && !t.awaiting && t.calls == 1 && t.seqNo == 1
    ensures t.current == Some(0) && |t.links| == 1 && t.links[0].replies == [Reply(seqNo, 1, Result([7]))]
    ensures t.answered.Keys == {1} && t.results == map[]
  {
    var c := Config(true, echo);
    t := State(0, 0, false, Some(0), [Link([], [], true)], map[], map[], map[], map[]);
    ReachInit(c, t);
    t := ReachStep(c, t, Invoke(false, Sent), true);
    t := ReachStep(c, t, Serve(0, Called(Value([7]), false), None, [Reply(seqNo, 1, Result([7]))], false), true);
    t := ReachStep(c, t, Receive(CommunicationError), true);
  }

  /** After 65536 further calls the stale reply has the sequence number of the current call and is accepted. */
  lemma StaleReplyAfterWrapAround()
    ensures exists s :: Reachable(Config(true, true), s, false) && !ResultsRight(s)
  {
    var c := Config(true, true);
    var s := FirstCallTimesOut(true, 1);
    WindowOrNot(c, s);
    s := ManyOneways(s, SEQUENCE_NUMBERS - 1);
    s := ReachStep(c, s, Invoke(false, Sent), false);
    ReachableSound(c, s);
    assert s.calls == 65537 && s.seqNo == 1;
    s := ReachStep(c, s, Receive(Message(Usable)), false);
    assert 65537 in s.results && 65537 !in s.answered;
  }

  /** An exception with a `pyroMsg` lets the very next call accept the reply of the one that timed out, in a run
      that never leaves the window. */
  lemma StaleReplyWithOverriddenSequence()
    ensures exists run :: IsRun(Config(true, false), run) && StaysInWindow(run) && !ResultsRight(Last(run))
  {
    var c := Config(true, false);
    var s := FirstCallTimesOut(false, 2);
    s := ReachStep(c, s, Invoke(false, Sent), true);
    s := ReachStep(c, s, Receive(Message(Usable)), true);
    assert 2 in s.results && 2 !in s.answered;
    var run :| IsRun(c, run) && Last(run) == s && StaysInWindow(run);
  }

  /** Main result: on a connection that is kept open the window is enough, if and only if no exception carries a
      `pyroMsg`. */
  lemma WindowIsEnough(echo: bool)
    ensures (forall run :: IsRun(Config(true, echo), run) && StaysInWindow(run) ==> ResultsRight(Last(run))) <==> echo
  {
    if echo {
      forall run | IsRun(Config(true, true), run) && StaysInWindow(run) ensures ResultsRight(Last(run)) {
        KeptOpenRepliesMatchCalls(run);
      }
    } else {
      StaleReplyWithOverriddenSequence();
    }
  }

  /** And the window cannot be left: without it the claim fails even when every number is echoed. */
  lemma WindowIsNeeded(echo: bool)
    ensures exists run :: IsRun(Config(true, echo), run) && !ResultsRight(Last(run))
  {
    if echo {
      StaleReplyAfterWrapAround();
      var s :| Reachable(Config(true, true), s, false) && !ResultsRight(s);
      var run :| IsRun(Config(true, true), run) && Last(run) == s;
    } else {
      StaleReplyWithOverriddenSequence();
    }
  }

  lemma ReachableSound(c: Config, s: State)
    requires Reachable(c, s, false)
    ensures Sound(c, s)
  {
    var run :| IsRun(c, run) && Last(run) == s;
    RunSound(c, run);
  }
}
