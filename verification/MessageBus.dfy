/**
 The publish/subscribe message bus (examples/messagebus/messagebus/messagebus.py) over its in-memory storage.

 `MemoryStorage` and `MessageBus` are the code. The state machine after them runs the sender thread against
 clients that send, subscribe, unsubscribe and remove topics at any time between its steps: the sender takes
 its snapshot under the lock, delivers without it, and takes it again to remove what it delivered.
 */
module MessageBus {
  import opened Common

  /** Every message object is made by one `send`, with a uuid of its own. */
  datatype Message = Message(msgid: nat, data: Bytes)

  /** Proxies are equal when their uris are. */
  datatype Subscriber = Subscriber(uri: string)

  datatype KeyError = KeyError

  /** `list.remove` for a value that may be absent. */
  function RemoveFirst(msgs: seq<Message>, m: Message): seq<Message> {
    if msgs == [] then []
    else if msgs[0] == m then msgs[1..]
    else [msgs[0]] + RemoveFirst(msgs[1..], m)
  }

  function RemoveAll(msgs: seq<Message>, gone: seq<Message>): seq<Message>
    decreases |gone|
  {
    if gone == [] then msgs else RemoveAll(RemoveFirst(msgs, gone[0]), gone[1..])
  }

  /** What the subscriber's side makes of one delivery: it takes the whole batch, or the batch is too large and
      it takes `n` messages one by one before raising (or all of them), or it raises at once. */
  datatype Delivery = Batch | OneByOne(n: nat) | Raises

  function Taken(d: Delivery, msgs: seq<Message>): seq<Message> {
    match d
    case Batch => msgs
    case OneByOne(n) => if n < |msgs| then msgs[..n] else msgs
    case Raises => []
  }

  predicate Fails(d: Delivery, msgs: seq<Message>) {
    d.Raises? || (d.OneByOne? && d.n < |msgs|)
  }

  // ---------------------------------------------------------------- the code

  class MemoryStorage {
    var messages: map<string, seq<Message>>
    var subscribers: map<string, set<Subscriber>>
    var totalMsgCount: nat

    ghost predicate Valid()
      reads this
    {
      messages.Keys == subscribers.Keys
    }

    constructor ()
      ensures Valid() && messages == map[] && subscribers == map[] && totalMsgCount == 0
    {
      messages, subscribers, totalMsgCount := map[], map[], 0;
    }

    method CreateTopic(topic: string)
      requires Valid()
      modifies this
      ensures Valid() && totalMsgCount == old(totalMsgCount)
      ensures messages == if topic in old(messages) then old(messages) else old(messages)[topic := []]
      ensures subscribers == if topic in old(messages) then old(subscribers) else old(subscribers)[topic := {}]
    {
      if topic in messages { return; }
      messages := messages[topic := []];
      subscribers := subscribers[topic := {}];
    }

    method RemoveTopic(topic: string)
      requires Valid()
      modifies this
      ensures Valid() && totalMsgCount == old(totalMsgCount)
      ensures messages == old(messages) - {topic} && subscribers == old(subscribers) - {topic}
    {
      if topic !in messages { return; }
      messages := messages - {topic};
      subscribers := subscribers - {topic};
    }

    method AddMessage(topic: string, message: Message) returns (r: Result<(), KeyError>)
      requires Valid()
      modifies this
      ensures Valid() && subscribers == old(subscribers)
      ensures r.Ok? <==> topic in old(messages)
      ensures r.Ok? ==> messages == old(messages)[topic := old(messages)[topic] + [message]] && totalMsgCount == old(totalMsgCount) + 1
      ensures r.Err? ==> unchanged(this)
    {
      if topic !in messages { return Err(KeyError); }
      messages := messages[topic := messages[topic] + [message]];
      totalMsgCount := totalMsgCount + 1;
      return Ok(());
    }

    method AddSubscriber(topic: string, s: Subscriber) returns (r: Result<(), KeyError>)
      requires Valid()
      modifies this`subscribers
      ensures Valid()
      ensures r.Ok? <==> topic in old(subscribers)
      ensures r.Ok? ==> subscribers == old(subscribers)[topic := old(subscribers)[topic] + {s}]
      ensures r.Err? ==> subscribers == old(subscribers)
    {
      if topic !in subscribers { return Err(KeyError); }
      subscribers := subscribers[topic := subscribers[topic] + {s}];
      return Ok(());
    }

    method RemoveSubscriber(topic: string, s: Subscriber) returns (r: Result<(), KeyError>)
      requires Valid()
      modifies this`subscribers
      ensures Valid()
      ensures r.Ok? <==> topic in old(subscribers)
      ensures r.Ok? ==> subscribers == old(subscribers)[topic := old(subscribers)[topic] - {s}]
      ensures r.Err? ==> subscribers == old(subscribers)
    {
      if topic !in subscribers { return Err(KeyError); }
      if s in subscribers[topic] {
        subscribers := subscribers[topic := subscribers[topic] - {s}];
      } else {
        assert subscribers[topic] - {s} == subscribers[topic];
      }
      return Ok(());
    }

    /** Removes the messages of a snapshot from whatever the topics hold by now. */
    method RemoveMessages(snapshot: map<string, seq<Message>>)
      requires Valid()
      modifies this`messages
      ensures Valid()
      ensures messages == map t | t in old(messages) ::
                            if t in snapshot then RemoveAll(old(messages)[t], snapshot[t]) else old(messages)[t]
    {
      var todo := snapshot.Keys;
      while todo != {}
        invariant Valid() && todo <= snapshot.Keys
        invariant messages.Keys == old(messages).Keys
        invariant forall t :: t in messages ==>
                    messages[t] == if t in snapshot && t !in todo then RemoveAll(old(messages)[t], snapshot[t]) else old(messages)[t]
        decreases |todo|
      {
        var topic :| topic in todo;
        if topic in messages {
          var msgList := messages[topic];
          var gone := snapshot[topic];
          for i := 0 to |gone|
            invariant RemoveAll(messages[topic], gone) == RemoveAll(msgList, gone[i..])
          {
            msgList := RemoveFirst(msgList, gone[i]);
          }
          messages := messages[topic := msgList];
        }
        todo := todo - {topic};
      }
    }
  }

  class MessageBus {
    const storage: MemoryStorage

    constructor ()
      ensures fresh(storage) && storage.Valid() && storage.messages == map[]
    {
      storage := new MemoryStorage();
    }

    /** `msgid` is the new uuid. */
    method Send(topic: string, msgid: nat, data: Bytes) returns (r: Result<(), KeyError>)
      requires storage.Valid()
      modifies storage
      ensures storage.Valid() && storage.subscribers == old(storage.subscribers)
      ensures r.Ok? <==> topic in old(storage.messages)
      ensures storage.messages ==
              if r.Ok? then old(storage.messages)[topic := old(storage.messages)[topic] + [Message(msgid, data)]]
              else old(storage.messages)
    {
      r := storage.AddMessage(topic, Message(msgid, data));
    }

    /** Makes the topic if there is none. */
    method Subscribe(topic: string, s: Subscriber)
      requires storage.Valid()
      modifies storage
      ensures storage.Valid() && topic in storage.messages
      ensures storage.messages - {topic} == old(storage.messages) - {topic}
      ensures storage.subscribers - {topic} == old(storage.subscribers) - {topic}
      ensures storage.messages[topic] == if topic in old(storage.messages) then old(storage.messages)[topic] else []
      ensures storage.subscribers[topic] ==
              {s} + if topic in old(storage.subscribers) then old(storage.subscribers)[topic] else {}
    {
      storage.CreateTopic(topic);
      var _ := storage.AddSubscriber(topic, s);
    }

    /** A topic is removed only when nothing is pending and nobody is subscribed. */
    method RemoveTopic(topic: string) returns (removed: bool)
      requires storage.Valid()
      modifies storage
      ensures storage.Valid()
      ensures removed <==> topic in old(storage.messages) ==>
                old(storage.messages)[topic] == [] && old(storage.subscribers)[topic] == {}
      ensures storage.messages == if removed then old(storage.messages) - {topic} else old(storage.messages)
      ensures storage.subscribers == if removed then old(storage.subscribers) - {topic} else old(storage.subscribers)
    {
      if topic in storage.messages && (storage.messages[topic] != [] || storage.subscribers[topic] != {}) {
        return false;
      }
      storage.RemoveTopic(topic);
      removed := true;
    }

    method UnsubscribeFrom(topic: string, gone: set<Subscriber>)
      requires storage.Valid() && topic in storage.subscribers
      modifies storage`subscribers
      ensures storage.Valid()
      ensures storage.subscribers == old(storage.subscribers)[topic := old(storage.subscribers)[topic] - gone]
    {
      var todo := gone;
      assert storage.subscribers[topic] - (gone - todo) == storage.subscribers[topic];
      while todo != {}
        invariant storage.Valid() && todo <= gone
        invariant storage.subscribers == old(storage.subscribers)[topic := old(storage.subscribers)[topic] - (gone - todo)]
        decreases |todo|
      {
        var s :| s in todo;
        var before := storage.subscribers[topic];
        var _ := storage.RemoveSubscriber(topic, s);
        assert before - {s} == old(storage.subscribers)[topic] - (gone - (todo - {s}));
        todo := todo - {s};
      }
      assert gone - todo == gone;
    }

    /** `_unsubscribe_many`: from every topic there is. */
    method UnsubscribeMany(gone: set<Subscriber>)
      requires storage.Valid()
      modifies storage`subscribers
      ensures storage.Valid()
      ensures storage.subscribers == map t | t in old(storage.subscribers) :: old(storage.subscribers)[t] - gone
    {
      var topics := storage.messages.Keys;
      while topics != {}
        invariant storage.Valid() && topics <= storage.messages.Keys
        invariant storage.messages.Keys == old(storage.subscribers).Keys
        invariant forall t :: t in storage.messages ==>
                    storage.subscribers[t] == if t in topics then old(storage.subscribers)[t] else old(storage.subscribers)[t] - gone
        decreases |topics|
      {
        var topic :| topic in topics;
        ghost var before := storage.subscribers;
        UnsubscribeFrom(topic, gone);
        assert forall t :: t in before && t != topic ==> storage.subscribers[t] == before[t];
        topics := topics - {topic};
      }
    }

    /** The delivery loops of `__sender` over its two snapshots; `world` says what each delivery meets. Returns
        what every attempted delivery handed over, and the subscribers to drop. */
    method Deliver(msgs: map<string, seq<Message>>, subs: map<string, set<Subscriber>>, world: (string, Subscriber) -> Delivery)
      returns (taken: map<(string, Subscriber), seq<Message>>, failed: set<Subscriber>)
      ensures forall s :: s in failed <==> exists t :: Due(msgs, subs, t, s) && Fails(world(t, s), msgs[t])
      ensures forall t, s :: Due(msgs, subs, t, s) && s !in failed ==> (t, s) in taken && taken[(t, s)] == msgs[t]
      ensures forall t, s :: (t, s) in taken ==> Due(msgs, subs, t, s) && taken[(t, s)] == Taken(world(t, s), msgs[t])
      // who is dropped did not take all that was handed over, and nobody else
      ensures forall t, s :: (t, s) in taken ==> t in msgs && taken[(t, s)] <= msgs[t]
      ensures forall s :: s in failed <==> exists t :: (t, s) in taken && t in msgs && taken[(t, s)] != msgs[t]
    {
      taken, failed := map[], {};
      var topics := msgs.Keys;
      while topics != {}
        invariant topics <= msgs.Keys
        invariant Progress(msgs, subs, world, taken, failed, topics, map[])
        decreases |topics|
      {
        var topic :| topic in topics;
        taken, failed := DeliverTopic(msgs, subs, world, taken, failed, topics, topic);
        topics := topics - {topic};
      }
      FailedMeans(msgs, subs, world, taken, failed);
    }

    method DeliverTopic(msgs: map<string, seq<Message>>, subs: map<string, set<Subscriber>>, world: (string, Subscriber) -> Delivery,
                        taken0: map<(string, Subscriber), seq<Message>>, failed0: set<Subscriber>,
                        ghost topics: set<string>, topic: string)
      returns (taken: map<(string, Subscriber), seq<Message>>, failed: set<Subscriber>)
      requires topic in msgs && Progress(msgs, subs, world, taken0, failed0, topics, map[])
      ensures Progress(msgs, subs, world, taken, failed, topics - {topic}, map[])
    {
      taken, failed := taken0, failed0;
      TopicBegins(msgs, subs, world, taken, failed, topics, topic);
      if topic in subs && msgs[topic] != [] {
        var todo := subs[topic];
        while todo != {}
          invariant todo <= subs[topic]
          invariant Progress(msgs, subs, world, taken, failed, topics - {topic}, map[topic := todo])
          decreases |todo|
        {
          hide Progress;
          var s :| s in todo;
          Attempted(msgs, subs, world, taken, failed, topics - {topic}, topic, todo, s);
          if s !in failed {
            taken := taken[(topic, s) := Taken(world(topic, s), msgs[topic])];
            failed := failed + if Fails(world(topic, s), msgs[topic]) then {s} else {};
          }
          todo := todo - {s};
        }
      }
      TopicEnds(msgs, subs, world, taken, failed, topics - {topic}, topic);
    }

    /** One turn of `__sender` in which no client interferes: what was pending is handed over and removed, and who
        failed is unsubscribed everywhere. */
    method SenderPass(world: (string, Subscriber) -> Delivery)
      returns (taken: map<(string, Subscriber), seq<Message>>, failed: set<Subscriber>)
      requires storage.Valid()
      modifies storage`messages, storage`subscribers
      ensures storage.Valid()
      ensures storage.messages == map t | t in old(storage.messages) :: []
      ensures storage.subscribers == map t | t in old(storage.subscribers) :: old(storage.subscribers)[t] - failed
      ensures forall s :: s in failed <==>
                exists t :: Due(old(storage.messages), old(storage.subscribers), t, s)
                            && Fails(world(t, s), old(storage.messages)[t])
      ensures forall t, s :: Due(old(storage.messages), old(storage.subscribers), t, s) && s !in failed ==>
                (t, s) in taken && taken[(t, s)] == old(storage.messages)[t]
      ensures forall t, s :: (t, s) in taken ==>
                Due(old(storage.messages), old(storage.subscribers), t, s) && taken[(t, s)] <= old(storage.messages)[t]
      ensures forall s :: s in failed <==> exists t :: (t, s) in taken && t in old(storage.messages) && taken[(t, s)] != old(storage.messages)[t]
    {
      var msgs, subs := storage.messages, storage.subscribers;
      taken, failed := Deliver(msgs, subs, world);
      storage.RemoveMessages(msgs);
      forall t | t in msgs ensures RemoveAll(msgs[t], msgs[t]) == [] { RemoveEverything(msgs[t]); }
      UnsubscribeMany(failed);
    }
  }

  lemma {:induction false} RemoveEverything(msgs: seq<Message>)
    ensures RemoveAll(msgs, msgs) == []
  {
    if msgs != [] { RemoveEverything(msgs[1..]); }
  }

  ghost predicate Due(msgs: map<string, seq<Message>>, subs: map<string, set<Subscriber>>, t: string, s: Subscriber) {
    t in msgs && msgs[t] != [] && t in subs && s in subs[t]
  }

  /** The delivery loops have handled every pair that is due except those of `topics` and of `rest`. */
  ghost predicate Progress(msgs: map<string, seq<Message>>, subs: map<string, set<Subscriber>>, world: (string, Subscriber) -> Delivery,
                           taken: map<(string, Subscriber), seq<Message>>, failed: set<Subscriber>,
                           topics: set<string>, rest: map<string, set<Subscriber>>)
  {
    && (forall s :: s in failed ==> exists t :: (t, s) in taken && Due(msgs, subs, t, s) && Fails(world(t, s), msgs[t]))
    && (forall t, s :: (t, s) in taken && Due(msgs, subs, t, s) && Fails(world(t, s), msgs[t]) ==> s in failed)
    && (forall t, s :: Due(msgs, subs, t, s) && t !in topics && (t in rest ==> s !in rest[t]) && s !in failed ==>
          (t, s) in taken && !Fails(world(t, s), msgs[t]))
    && (forall t, s :: (t, s) in taken ==> Due(msgs, subs, t, s) && taken[(t, s)] == Taken(world(t, s), msgs[t]))
  }

  lemma FailsMeans(d: Delivery, msgs: seq<Message>)
    requires msgs != []
    ensures Taken(d, msgs) <= msgs && (Fails(d, msgs) <==> Taken(d, msgs) != msgs)
  {}

  lemma FailedMeans(msgs: map<string, seq<Message>>, subs: map<string, set<Subscriber>>, world: (string, Subscriber) -> Delivery,
                    taken: map<(string, Subscriber), seq<Message>>, failed: set<Subscriber>)
    requires Progress(msgs, subs, world, taken, failed, {}, map[])
    ensures forall t, s :: (t, s) in taken ==> Due(msgs, subs, t, s) && taken[(t, s)] <= msgs[t]
    ensures forall s :: s in failed <==> exists t :: (t, s) in taken && t in msgs && taken[(t, s)] != msgs[t]
  {
    forall t, s | (t, s) in taken
      ensures Due(msgs, subs, t, s) && taken[(t, s)] <= msgs[t] && (taken[(t, s)] != msgs[t] <==> Fails(world(t, s), msgs[t]))
    {
      FailsMeans(world(t, s), msgs[t]);
    }
  }

  lemma TopicBegins(msgs: map<string, seq<Message>>, subs: map<string, set<Subscriber>>, world: (string, Subscriber) -> Delivery,
                    taken: map<(string, Subscriber), seq<Message>>, failed: set<Subscriber>, topics: set<string>, topic: string)
    requires Progress(msgs, subs, world, taken, failed, topics, map[])
    ensures if topic in subs && topic in msgs && msgs[topic] != []
            then Progress(msgs, subs, world, taken, failed, topics - {topic}, map[topic := subs[topic]])
            else Progress(msgs, subs, world, taken, failed, topics - {topic}, map[])
  {}

  lemma TopicEnds(msgs: map<string, seq<Message>>, subs: map<string, set<Subscriber>>, world: (string, Subscriber) -> Delivery,
                  taken: map<(string, Subscriber), seq<Message>>, failed: set<Subscriber>, topics: set<string>, topic: string)
    ensures Progress(msgs, subs, world, taken, failed, topics, map[topic := {}])
            <==> Progress(msgs, subs, world, taken, failed, topics, map[])
  {}

  /** One turn of the inner loop. */
  lemma Attempted(msgs: map<string, seq<Message>>, subs: map<string, set<Subscriber>>, world: (string, Subscriber) -> Delivery,
                  taken: map<(string, Subscriber), seq<Message>>, failed: set<Subscriber>,
                  topics: set<string>, topic: string, todo: set<Subscriber>, s: Subscriber)
    requires Progress(msgs, subs, world, taken, failed, topics, map[topic := todo]) && Due(msgs, subs, topic, s) && s in todo
    ensures var d := world(topic, s);
            if s in failed then Progress(msgs, subs, world, taken, failed, topics, map[topic := todo - {s}])
            else Progress(msgs, subs, world, taken[(topic, s) := Taken(d, msgs[topic])],
                          failed + (if Fails(d, msgs[topic]) then {s} else {}), topics, map[topic := todo - {s}])
  {}

  // ---------------------------------------------- the bus as a state machine

  /** A subscription: the history's first index it is to receive, and what it has received so far. If it was made
      while the sender still owed the same subscriber a delivery from before the topic was removed (`foreign`), the
      first `early` messages come from that delivery; they stand in the history from `earlyFrom` on. */
  datatype Track = Track(start: nat, received: seq<Message>, foreign: bool, earlyFrom: nat, early: nat)

  /** One topic: what the storage holds, and its history. `base`: the index in `sent` where `pending` begins. */
  datatype Topic = Topic(
    live: bool, pending: seq<Message>, subscribers: set<Subscriber>,
    sent: seq<Message>, base: nat, tracks: map<Subscriber, Track>)

  /** The sender's snapshot of one topic, starting at index `from` of the history; `todo` says who is still to
      be served, and how many of the messages it has been handed one by one. */
  datatype Snapshot = Snapshot(msgs: seq<Message>, from: nat, todo: map<Subscriber, nat>)

  datatype Pass = NoPass | Delivering(snaps: map<string, Snapshot>, failed: set<Subscriber>) | Dropping(failed: set<Subscriber>)

  datatype State = State(topics: map<string, Topic>, pass: Pass)

  /** Each action is one critical section of the code, or one delivery. */
  datatype Action =
    | AddTopic(t: string)
    | RemoveTopic(t: string)
    | Send(t: string, m: Message)
    | AddSubscriber(t: string, s: Subscriber)
    | Unsubscribe(t: string, s: Subscriber)
    | TakeSnapshot
    | DeliverBatch(t: string, s: Subscriber)
    | DeliverNext(t: string, s: Subscriber)
    | DeliveryFails(t: string, s: Subscriber)
    | Skip(t: string, s: Subscriber)
    | RemoveDelivered
    | DropFailed

  const NO_TOPIC := Topic(false, [], {}, [], 0, map[])

  function Of(s: State, t: string): Topic {
    if t in s.topics then s.topics[t] else NO_TOPIC
  }

  /** Who is still owed a delivery on `t` by the running pass. */
  ghost predicate Owed(s: State, t: string, sub: Subscriber) {
    s.pass.Delivering? && t in s.pass.snaps && sub in s.pass.snaps[t].todo
  }

  ghost predicate Enabled(s: State, a: Action) {
    match a
    case AddTopic(t) => true
    // the code tests for pending messages and subscribers without the lock, so it may remove a topic that has some
    case RemoveTopic(t) => Of(s, t).live
    case Send(t, m) => Of(s, t).live && m !in Of(s, t).sent
    case AddSubscriber(t, sub) => Of(s, t).live
    case Unsubscribe(t, sub) => Of(s, t).live
    case TakeSnapshot => s.pass.NoPass?
    case DeliverBatch(t, sub) => Owed(s, t, sub) && sub !in s.pass.failed && s.pass.snaps[t].todo[sub] == 0
    case DeliverNext(t, sub) => Owed(s, t, sub) && sub !in s.pass.failed && s.pass.snaps[t].todo[sub] < |s.pass.snaps[t].msgs|
    case DeliveryFails(t, sub) => Owed(s, t, sub) && sub !in s.pass.failed
    case Skip(t, sub) => Owed(s, t, sub) && sub in s.pass.failed
    case RemoveDelivered => s.pass.Delivering? && forall t :: t in s.pass.snaps ==> s.pass.snaps[t].todo == map[]
    case DropFailed => s.pass.Dropping?
  }

  ghost predicate InFlight(s: State, t: string) {
    s.pass.Delivering? && t in s.pass.snaps
  }

  ghost function Max(a: nat, b: nat): nat {
    if a < b then b else a
  }

  /** The delivery that the running pass owes `sub` is from before the topic was removed. */
  ghost predicate Foreign(s: State, t: string, sub: Subscriber) {
    Owed(s, t, sub) && s.pass.snaps[t].from != Of(s, t).base
  }

  /** The index in the history of the message `sub` gets next on `t`, such a delivery aside. */
  ghost function NextIndex(s: State, t: string, sub: Subscriber): nat {
    if Owed(s, t, sub) && !Foreign(s, t, sub) then s.pass.snaps[t].from + s.pass.snaps[t].todo[sub]
    else if InFlight(s, t) then Max(Of(s, t).base, s.pass.snaps[t].from + |s.pass.snaps[t].msgs|)
    else Of(s, t).base
  }

  function More(k: Track, msgs: seq<Message>, early: bool): Track {
    k.(received := k.received + msgs, early := if early then k.early + |msgs| else k.early)
  }

  ghost function Receive(s: State, t: string, sub: Subscriber, msgs: seq<Message>): map<string, Topic> {
    var x := Of(s, t);
    if sub in x.tracks
    then s.topics[t := x.(tracks := x.tracks[sub := More(x.tracks[sub], msgs, Foreign(s, t, sub))])]
    else s.topics
  }

  ghost function Served(s: State, t: string, todo: map<Subscriber, nat>): map<string, Snapshot>
    requires s.pass.Delivering? && t in s.pass.snaps
  {
    s.pass.snaps[t := s.pass.snaps[t].(todo := todo)]
  }

  function SnapshotOf(x: Topic): Snapshot {
    Snapshot(x.pending, x.base, if x.pending == [] then map[] else map sub | sub in x.subscribers :: 0)
  }

  ghost function Delivered(x: Topic, n: Snapshot): Topic {
    if x.live then x.(pending := RemoveAll(x.pending, n.msgs), base := Max(x.base, n.from + |n.msgs|)) else x
  }

  ghost function Dropped(x: Topic, failed: set<Subscriber>): Topic {
    x.(subscribers := x.subscribers - failed, tracks := x.tracks - failed)
  }

  ghost function Apply(s: State, a: Action): State
    requires Enabled(s, a)
  {
    match a
    case AddTopic(t) => if Of(s, t).live then s else s.(topics := s.topics[t := Of(s, t).(live := true)])
    case RemoveTopic(t) =>
      var x := Of(s, t);
      s.(topics := s.topics[t := Topic(false, [], {}, x.sent, |x.sent|, map[])])
    case Send(t, m) =>
      var x := Of(s, t);
      s.(topics := s.topics[t := x.(pending := x.pending + [m], sent := x.sent + [m])])
    case AddSubscriber(t, sub) =>
      var x := Of(s, t);
      if sub in x.subscribers then s
      else
        var foreign := Foreign(s, t, sub);
        var earlyFrom := if foreign then s.pass.snaps[t].from + s.pass.snaps[t].todo[sub] else 0;
        var track := Track(NextIndex(s, t, sub), [], foreign, earlyFrom, 0);
        s.(topics := s.topics[t := x.(subscribers := x.subscribers + {sub}, tracks := x.tracks[sub := track])])
    case Unsubscribe(t, sub) => s.(topics := s.topics[t := Dropped(Of(s, t), {sub})])
    case TakeSnapshot =>
      s.(pass := Delivering(map t | t in s.topics && s.topics[t].live :: SnapshotOf(s.topics[t]), {}))
    case DeliverBatch(t, sub) =>
      State(Receive(s, t, sub, s.pass.snaps[t].msgs),
            s.pass.(snaps := Served(s, t, s.pass.snaps[t].todo - {sub})))
    case DeliverNext(t, sub) =>
      var k := s.pass.snaps[t].todo[sub];
      var todo := if k + 1 == |s.pass.snaps[t].msgs| then s.pass.snaps[t].todo - {sub} else s.pass.snaps[t].todo[sub := k + 1];
      State(Receive(s, t, sub, [s.pass.snaps[t].msgs[k]]), s.pass.(snaps := Served(s, t, todo)))
    case DeliveryFails(t, sub) =>
      s.(pass := Delivering(Served(s, t, s.pass.snaps[t].todo - {sub}), s.pass.failed + {sub}))
    case Skip(t, sub) => s.(pass := s.pass.(snaps := Served(s, t, s.pass.snaps[t].todo - {sub})))
    case RemoveDelivered =>
      State(map t | t in s.topics :: if t in s.pass.snaps then Delivered(s.topics[t], s.pass.snaps[t]) else s.topics[t],
            Dropping(s.pass.failed))
    case DropFailed =>
      State(map t | t in s.topics :: if s.topics[t].live then Dropped(s.topics[t], s.pass.failed) else s.topics[t], NoPass)
  }

  // -------------------------------------------------------------- invariants

  ghost predicate TopicOk(x: Topic) {
    && Distinct(x.sent)
    && x.base <= |x.sent|
    && x.pending == (if x.live then x.sent[x.base..] else [])
    && (!x.live ==> x.base == |x.sent| && x.subscribers == {})
    && x.tracks.Keys == x.subscribers
  }

  ghost predicate SnapshotOk(x: Topic, n: Snapshot) {
    && n.from + |n.msgs| <= |x.sent|
    && n.msgs == x.sent[n.from..n.from + |n.msgs|]
    && (x.base == n.from || n.from + |n.msgs| <= x.base)
    && (forall sub :: sub in n.todo ==> n.todo[sub] < |n.msgs|)
  }

  ghost predicate HasFailed(s: State, sub: Subscriber) {
    !s.pass.NoPass? && sub in s.pass.failed
  }

  /** What a subscription has received of its own is the stretch of the history from its start to its next message. */
  ghost predicate OwnOk(x: Topic, next: nat, k: Track) {
    && k.start <= next <= |x.sent|
    && k.early <= |k.received| && k.received[k.early..] == x.sent[k.start..next]
  }

  /** And what it received of an older delivery comes before that. */
  ghost predicate EarlyOk(x: Topic, k: Track) {
    && k.earlyFrom + k.early <= |x.sent|
    && k.early <= |k.received| && k.received[..k.early] == x.sent[k.earlyFrom..k.earlyFrom + k.early]
    && if k.foreign then k.earlyFrom + k.early <= k.start else k.early == 0
  }

  ghost predicate TrackOk(s: State, t: string, sub: Subscriber, k: Track) {
    !HasFailed(s, sub) ==>
      && OwnOk(Of(s, t), NextIndex(s, t, sub), k)
      && EarlyOk(Of(s, t), k)
      && (Foreign(s, t, sub) ==>
            && k.foreign && k.start == Of(s, t).base
            && k.earlyFrom + k.early == s.pass.snaps[t].from + s.pass.snaps[t].todo[sub])
  }

  ghost predicate Ok(s: State) {
    && (forall t :: t in s.topics ==> TopicOk(s.topics[t]))
    && (s.pass.Delivering? ==> forall t :: t in s.pass.snaps ==> t in s.topics && SnapshotOk(s.topics[t], s.pass.snaps[t]))
    && (forall t, sub :: t in s.topics && sub in s.topics[t].tracks ==> TrackOk(s, t, sub, s.topics[t].tracks[sub]))
  }

  // ------------------------------------------------- removing a snapshot

  lemma RemoveFirstOfSuffix(sent: seq<Message>, i: nat)
    requires Distinct(sent) && i < |sent|
    ensures RemoveFirst(sent[i..], sent[i]) == sent[i + 1..]
  {
  }

  lemma {:induction false} RemoveAbsent(msgs: seq<Message>, m: Message)
    requires m !in msgs
    ensures RemoveFirst(msgs, m) == msgs
  {
    if msgs != [] {
      RemoveAbsent(msgs[1..], m);
      assert [msgs[0]] + msgs[1..] == msgs;
    }
  }

  /** Removing the messages of a snapshot leaves exactly those sent since, whatever was appended meanwhile. */
  lemma {:induction false} RemoveSnapshot(sent: seq<Message>, from: nat, n: nat)
    requires Distinct(sent) && from + n <= |sent|
    ensures RemoveAll(sent[from..], sent[from..from + n]) == sent[from + n..]
    decreases n
  {
    if n > 0 {
      RemoveFirstOfSuffix(sent, from);
      RemoveSnapshot(sent, from + 1, n - 1);
      assert sent[from..from + n][1..] == sent[from + 1..from + n];
    }
  }

  /** And it does not touch a topic that was removed and made again. */
  lemma {:induction false} RemoveForeign(sent: seq<Message>, base: nat, from: nat, n: nat)
    requires Distinct(sent) && from + n <= base <= |sent|
    ensures RemoveAll(sent[base..], sent[from..from + n]) == sent[base..]
    decreases n
  {
    if n > 0 {
      RemoveAbsent(sent[base..], sent[from]);
      RemoveForeign(sent, base, from + 1, n - 1);
      assert sent[from..from + n][1..] == sent[from + 1..from + n];
    }
  }

  lemma DeliveredOk(x: Topic, n: Snapshot)
    requires TopicOk(x) && SnapshotOk(x, n)
    ensures TopicOk(Delivered(x, n))
  {
    if x.live {
      DeliveredPending(x, n);
      hide RemoveAll, Distinct;
    }
  }

  lemma DeliveredPending(x: Topic, n: Snapshot)
    requires TopicOk(x) && SnapshotOk(x, n) && x.live
    ensures RemoveAll(x.pending, n.msgs) == x.sent[Max(x.base, n.from + |n.msgs|)..]
  {
    if x.base == n.from {
      RemoveSnapshot(x.sent, n.from, |n.msgs|);
    } else {
      RemoveForeign(x.sent, x.base, n.from, |n.msgs|);
    }
    hide RemoveAll, Distinct;
  }

  // ------------------------------------------------------------ every step

  lemma SentOk(x: Topic, m: Message)
    requires TopicOk(x) && x.live && m !in x.sent
    ensures TopicOk(x.(pending := x.pending + [m], sent := x.sent + [m]))
  {
  }

  lemma TopicStep(s: State, a: Action, t: string)
    requires Enabled(s, a) && t in Apply(s, a).topics && TopicOk(Of(s, t))
    requires InFlight(s, t) ==> SnapshotOk(Of(s, t), s.pass.snaps[t])
    ensures TopicOk(Apply(s, a).topics[t])
  {
    match a
    case Send(t', m) =>
      if t == t' { SentOk(Of(s, t), m); }
    case RemoveDelivered =>
      if t in s.pass.snaps { DeliveredOk(s.topics[t], s.pass.snaps[t]); }
    case _ => OtherTopicStep(s, a, t);
  }

  lemma OtherTopicStep(s: State, a: Action, t: string)
    requires Enabled(s, a) && t in Apply(s, a).topics && TopicOk(Of(s, t)) && !a.Send? && !a.RemoveDelivered?
    ensures TopicOk(Apply(s, a).topics[t])
  {
    assert Apply(s, a).topics[t].sent == Of(s, t).sent;
  }

  lemma TopicsStep(s: State, a: Action)
    requires Ok(s) && Enabled(s, a)
    ensures forall t :: t in Apply(s, a).topics ==> TopicOk(Apply(s, a).topics[t])
  {
    forall t | t in Apply(s, a).topics ensures TopicOk(Apply(s, a).topics[t]) {
      assert t in s.topics ==> TopicOk(s.topics[t]);
      TopicStep(s, a, t);
    }
  }

  lemma FreshSnapshot(x: Topic)
    requires TopicOk(x) && x.live
    ensures SnapshotOk(x, SnapshotOf(x))
  {
  }

  lemma SnapshotKept(x: Topic, x': Topic, n: Snapshot, n': Snapshot)
    requires TopicOk(x) && SnapshotOk(x, n)
    requires x.sent <= x'.sent && (x'.base == x.base || x'.base == |x'.sent|)
    requires n'.msgs == n.msgs && n'.from == n.from && forall sub :: sub in n'.todo ==> n'.todo[sub] < |n.msgs|
    ensures SnapshotOk(x', n')
  {
  }

  lemma SnapshotStep(s: State, a: Action, t: string)
    requires Enabled(s, a) && InFlight(Apply(s, a), t) && t in s.topics && TopicOk(s.topics[t])
    requires InFlight(s, t) ==> SnapshotOk(s.topics[t], s.pass.snaps[t])
    ensures t in Apply(s, a).topics && SnapshotOk(Apply(s, a).topics[t], Apply(s, a).pass.snaps[t])
  {
    if a.TakeSnapshot? {
      FreshSnapshot(s.topics[t]);
    } else {
      SnapshotKept(s.topics[t], Apply(s, a).topics[t], s.pass.snaps[t], Apply(s, a).pass.snaps[t]);
    }
  }

  lemma OwnKept(x: Topic, x': Topic, next: nat, k: Track)
    requires x.sent <= x'.sent && OwnOk(x, next, k) && EarlyOk(x, k)
    ensures OwnOk(x', next, k) && EarlyOk(x', k)
  {}

  /** Nothing that matters to this subscription happened. */
  lemma TrackKept(s: State, s': State, t: string, sub: Subscriber, k: Track)
    requires TrackOk(s, t, sub, k)
    requires Of(s, t).sent <= Of(s', t).sent
    requires NextIndex(s', t, sub) == NextIndex(s, t, sub)
    requires HasFailed(s, sub) ==> HasFailed(s', sub)
    requires Foreign(s', t, sub) ==>
               && Foreign(s, t, sub) && Of(s', t).base == Of(s, t).base
               && s'.pass.snaps[t].from == s.pass.snaps[t].from && s'.pass.snaps[t].todo[sub] == s.pass.snaps[t].todo[sub]
    ensures TrackOk(s', t, sub, k)
  {
    if !HasFailed(s, sub) {
      OwnKept(Of(s, t), Of(s', t), NextIndex(s, t, sub), k);
    }
    hide OwnOk, EarlyOk;
  }

  lemma NewTrack(s: State, t: string, sub: Subscriber)
    requires Enabled(s, AddSubscriber(t, sub)) && sub !in Of(s, t).subscribers && t in s.topics && TopicOk(s.topics[t])
    requires InFlight(s, t) ==> SnapshotOk(s.topics[t], s.pass.snaps[t])
    ensures TrackOk(Apply(s, AddSubscriber(t, sub)), t, sub, Apply(s, AddSubscriber(t, sub)).topics[t].tracks[sub])
  {
    var s', next := Apply(s, AddSubscriber(t, sub)), NextIndex(s, t, sub);
    var k := s'.topics[t].tracks[sub];
    assert Of(s', t).sent == Of(s, t).sent && NextIndex(s', t, sub) == next == k.start && k.received == [];
    assert k.foreign <==> Foreign(s', t, sub);
  }

  /** What the clients do leaves other subscriptions as they are. */
  lemma OtherClients(s: State, a: Action, t: string, sub: Subscriber)
    requires Enabled(s, a) && (a.AddTopic? || a.RemoveTopic? || a.Send? || a.AddSubscriber? || a.Unsubscribe?)
    requires t in s.topics && sub in s.topics[t].tracks && s.topics[t].tracks.Keys == s.topics[t].subscribers
    requires t in Apply(s, a).topics && sub in Apply(s, a).topics[t].tracks
    ensures var s' := Apply(s, a);
            && s'.topics[t].tracks[sub] == s.topics[t].tracks[sub]
            && s.topics[t].sent <= s'.topics[t].sent && s'.topics[t].base == s.topics[t].base && s'.pass == s.pass
  {}

  lemma TrackAfterClients(s: State, a: Action, t: string, sub: Subscriber)
    requires Ok(s) && Enabled(s, a)
    requires a.AddTopic? || a.RemoveTopic? || a.Send? || a.AddSubscriber? || a.Unsubscribe?
    requires t in Apply(s, a).topics && sub in Apply(s, a).topics[t].tracks
    ensures TrackOk(Apply(s, a), t, sub, Apply(s, a).topics[t].tracks[sub])
  {
    if t in s.topics && sub in s.topics[t].tracks {
      assert TrackOk(s, t, sub, s.topics[t].tracks[sub]) && TopicOk(s.topics[t]);
      OtherClients(s, a, t, sub);
      hide Ok, TrackOk, Apply, TopicOk;
      TrackKept(s, Apply(s, a), t, sub, s.topics[t].tracks[sub]);
    } else {
      assert a == AddSubscriber(t, sub) && t in s.topics;
      assert TopicOk(s.topics[t]) && (InFlight(s, t) ==> SnapshotOk(s.topics[t], s.pass.snaps[t]));
      hide Ok, TrackOk, SnapshotOk;
      NewTrack(s, t, sub);
    }
  }

  lemma TrackAfterSnapshot(s: State, t: string, sub: Subscriber)
    requires Ok(s) && Enabled(s, TakeSnapshot) && t in s.topics && sub in s.topics[t].tracks
    ensures TrackOk(Apply(s, TakeSnapshot), t, sub, s.topics[t].tracks[sub])
  {
    assert TopicOk(s.topics[t]);
    TrackKept(s, Apply(s, TakeSnapshot), t, sub, s.topics[t].tracks[sub]);
  }

  /** What a delivery adds: to the subscription's own messages, or to those of an older delivery. */
  lemma OwnGrows(x: Topic, next: nat, k: Track, more: seq<Message>)
    requires OwnOk(x, next, k) && EarlyOk(x, k) && next + |more| <= |x.sent| && more == x.sent[next..next + |more|]
    ensures OwnOk(x, next + |more|, More(k, more, false)) && EarlyOk(x, More(k, more, false))
  {
    assert (k.received + more)[k.early..] == k.received[k.early..] + more;
    assert (k.received + more)[..k.early] == k.received[..k.early];
  }

  lemma EarlyGrows(x: Topic, k: Track, more: seq<Message>)
    requires OwnOk(x, k.start, k) && EarlyOk(x, k) && k.foreign
    requires var n := k.earlyFrom + k.early; n + |more| <= k.start && more == x.sent[n..n + |more|]
    ensures OwnOk(x, k.start, More(k, more, true)) && EarlyOk(x, More(k, more, true))
  {
    assert k.received == k.received[..k.early];
    assert (k.received + more)[..k.early + |more|] == k.received + more;
  }

  lemma TrackGrows(s: State, s': State, t: string, sub: Subscriber, k: Track, more: seq<Message>)
    requires TrackOk(s, t, sub, k) && !HasFailed(s, sub) && Owed(s, t, sub)
    requires Of(s, t).base <= |Of(s, t).sent|
    requires Of(s', t).sent == Of(s, t).sent && Of(s', t).base == Of(s, t).base
    requires InFlight(s', t) && s'.pass.snaps[t].from == s.pass.snaps[t].from
    requires var n := s.pass.snaps[t].from + s.pass.snaps[t].todo[sub];
             && n + |more| <= |Of(s, t).sent| && more == Of(s, t).sent[n..n + |more|]
             && (Owed(s', t, sub) ==> s'.pass.snaps[t].from + s'.pass.snaps[t].todo[sub] == n + |more|)
             && if Foreign(s, t, sub) then n + |more| <= Of(s, t).base && NextIndex(s', t, sub) == NextIndex(s, t, sub) == Of(s, t).base
                else NextIndex(s', t, sub) == n + |more|
    ensures TrackOk(s', t, sub, More(k, more, Foreign(s, t, sub)))
  {
    if Foreign(s, t, sub) {
      EarlyGrows(Of(s, t), k, more);
    } else {
      OwnGrows(Of(s, t), NextIndex(s, t, sub), k, more);
    }
    TopicParts(Of(s, t), Of(s', t), NextIndex(s', t, sub), More(k, more, Foreign(s, t, sub)));
    hide OwnOk, EarlyOk;
  }

  /** Both depend on the history only. */
  lemma TopicParts(x: Topic, x': Topic, next: nat, k: Track)
    requires x.sent == x'.sent
    ensures (OwnOk(x, next, k) <==> OwnOk(x', next, k)) && (EarlyOk(x, k) <==> EarlyOk(x', k))
  {}

  lemma BatchEffect(s: State, t: string, sub: Subscriber)
    requires Enabled(s, DeliverBatch(t, sub)) && t in s.topics && sub in s.topics[t].tracks
    ensures var s', x := Apply(s, DeliverBatch(t, sub)), s.topics[t];
            && t in s'.topics && s'.topics[t].sent == x.sent && s'.topics[t].base == x.base && sub in s'.topics[t].tracks
            && s'.topics[t].tracks[sub] == More(x.tracks[sub], s.pass.snaps[t].msgs, Foreign(s, t, sub))
            && InFlight(s', t) && s'.pass.snaps[t].from == s.pass.snaps[t].from && s'.pass.snaps[t].msgs == s.pass.snaps[t].msgs
            && !Owed(s', t, sub)
  {}

  lemma TrackAfterBatch(s: State, t: string, sub: Subscriber)
    requires Enabled(s, DeliverBatch(t, sub)) && t in s.topics && sub in s.topics[t].tracks
    requires TopicOk(s.topics[t]) && SnapshotOk(s.topics[t], s.pass.snaps[t]) && TrackOk(s, t, sub, s.topics[t].tracks[sub])
    ensures TrackOk(Apply(s, DeliverBatch(t, sub)), t, sub, Apply(s, DeliverBatch(t, sub)).topics[t].tracks[sub])
  {
    BatchEffect(s, t, sub);
    hide TrackOk, Apply;
    TrackGrows(s, Apply(s, DeliverBatch(t, sub)), t, sub, s.topics[t].tracks[sub], s.pass.snaps[t].msgs);
  }

  lemma NextEffect(s: State, t: string, sub: Subscriber)
    requires Enabled(s, DeliverNext(t, sub)) && t in s.topics && sub in s.topics[t].tracks
    ensures var s', x, n := Apply(s, DeliverNext(t, sub)), s.topics[t], s.pass.snaps[t];
            && t in s'.topics && s'.topics[t].sent == x.sent && s'.topics[t].base == x.base && sub in s'.topics[t].tracks
            && s'.topics[t].tracks[sub] == More(x.tracks[sub], [n.msgs[n.todo[sub]]], Foreign(s, t, sub))
            && InFlight(s', t) && s'.pass.snaps[t].from == n.from && s'.pass.snaps[t].msgs == n.msgs
            && (Owed(s', t, sub) <==> n.todo[sub] + 1 < |n.msgs|)
            && (Owed(s', t, sub) ==> s'.pass.snaps[t].todo[sub] == n.todo[sub] + 1)
  {}

  lemma OneOfStretch(sent: seq<Message>, from: nat, n: nat, k: nat)
    requires k < n && from + n <= |sent|
    ensures [sent[from..from + n][k]] == sent[from + k..from + k + 1]
  {}

  lemma TrackAfterNext(s: State, t: string, sub: Subscriber)
    requires Enabled(s, DeliverNext(t, sub)) && t in s.topics && sub in s.topics[t].tracks
    requires TopicOk(s.topics[t]) && SnapshotOk(s.topics[t], s.pass.snaps[t]) && TrackOk(s, t, sub, s.topics[t].tracks[sub])
    ensures TrackOk(Apply(s, DeliverNext(t, sub)), t, sub, Apply(s, DeliverNext(t, sub)).topics[t].tracks[sub])
  {
    var n := s.pass.snaps[t];
    var k := n.todo[sub];
    OneOfStretch(s.topics[t].sent, n.from, |n.msgs|, k);
    NextEffect(s, t, sub);
    hide TrackOk, Apply;
    TrackGrows(s, Apply(s, DeliverNext(t, sub)), t, sub, s.topics[t].tracks[sub], [n.msgs[k]]);
  }

  /** The step changes nothing about what `sub` is owed on `t`, nor about the topic's history. */
  ghost predicate SameFor(s: State, s': State, t: string, sub: Subscriber) {
    && t in s.topics && t in s'.topics && s'.topics[t].sent == s.topics[t].sent && s'.topics[t].base == s.topics[t].base
    && (InFlight(s', t) <==> InFlight(s, t)) && (Owed(s', t, sub) <==> Owed(s, t, sub))
    && (InFlight(s, t) ==> s'.pass.snaps[t].from == s.pass.snaps[t].from && s'.pass.snaps[t].msgs == s.pass.snaps[t].msgs)
    && (Owed(s, t, sub) ==> s'.pass.snaps[t].todo[sub] == s.pass.snaps[t].todo[sub])
    && (HasFailed(s, sub) ==> HasFailed(s', sub))
  }

  lemma SameTrack(s: State, s': State, t: string, sub: Subscriber, k: Track)
    requires SameFor(s, s', t, sub) && TrackOk(s, t, sub, k)
    ensures TrackOk(s', t, sub, k)
  {
    TrackKept(s, s', t, sub, k);
  }

  lemma OtherDelivery(s: State, a: Action, t: string, sub: Subscriber)
    requires Enabled(s, a) && (a.DeliverBatch? || a.DeliverNext?) && (t != a.t || sub != a.s)
    requires t in s.topics && sub in s.topics[t].tracks
    ensures SameFor(s, Apply(s, a), t, sub) && sub in Apply(s, a).topics[t].tracks
    ensures Apply(s, a).topics[t].tracks[sub] == s.topics[t].tracks[sub]
  {}

  lemma TrackAfterDelivery(s: State, a: Action, t: string, sub: Subscriber)
    requires Ok(s) && Enabled(s, a) && (a.DeliverBatch? || a.DeliverNext?)
    requires t in s.topics && sub in s.topics[t].tracks
    ensures TrackOk(Apply(s, a), t, sub, Apply(s, a).topics[t].tracks[sub])
  {
    assert TrackOk(s, t, sub, s.topics[t].tracks[sub]);
    if t != a.t || sub != a.s {
      hide Ok, TrackOk;
      OtherDelivery(s, a, t, sub);
      SameTrack(s, Apply(s, a), t, sub, s.topics[t].tracks[sub]);
    } else {
      assert TopicOk(s.topics[t]) && SnapshotOk(s.topics[t], s.pass.snaps[t]);
      hide Ok, TrackOk, TopicOk, SnapshotOk;
      if a.DeliverBatch? {
        TrackAfterBatch(s, t, sub);
      } else {
        TrackAfterNext(s, t, sub);
      }
    }
  }

  lemma OtherFailure(s: State, a: Action, t: string, sub: Subscriber)
    requires Enabled(s, a) && (a.DeliveryFails? || a.Skip?) && sub != a.s && t in s.topics
    ensures SameFor(s, Apply(s, a), t, sub)
  {}

  lemma TrackAfterFailure(s: State, a: Action, t: string, sub: Subscriber)
    requires Ok(s) && Enabled(s, a) && (a.DeliveryFails? || a.Skip?)
    requires t in s.topics && sub in s.topics[t].tracks
    ensures TrackOk(Apply(s, a), t, sub, s.topics[t].tracks[sub])
  {
    if sub != a.s {
      assert TrackOk(s, t, sub, s.topics[t].tracks[sub]);
      hide Ok, TrackOk;
      OtherFailure(s, a, t, sub);
      SameTrack(s, Apply(s, a), t, sub, s.topics[t].tracks[sub]);
    }
  }

  lemma TrackAfterRemoval(s: State, a: Action, t: string, sub: Subscriber)
    requires Ok(s) && Enabled(s, a) && (a.RemoveDelivered? || a.DropFailed?)
    requires t in Apply(s, a).topics && sub in Apply(s, a).topics[t].tracks
    ensures TrackOk(Apply(s, a), t, sub, Apply(s, a).topics[t].tracks[sub])
  {
    assert TopicOk(s.topics[t]);
    assert sub in s.topics[t].tracks && s.topics[t].live;
    TrackKept(s, Apply(s, a), t, sub, s.topics[t].tracks[sub]);
  }

  lemma TrackStep(s: State, a: Action, t: string, sub: Subscriber)
    requires Ok(s) && Enabled(s, a)
    requires t in Apply(s, a).topics && sub in Apply(s, a).topics[t].tracks
    ensures TrackOk(Apply(s, a), t, sub, Apply(s, a).topics[t].tracks[sub])
  {
    match a
    case TakeSnapshot => TrackAfterSnapshot(s, t, sub);
    case DeliverBatch(_, _) => TrackAfterDelivery(s, a, t, sub);
    case DeliverNext(_, _) => TrackAfterDelivery(s, a, t, sub);
    case DeliveryFails(_, _) => TrackAfterFailure(s, a, t, sub);
    case Skip(_, _) => TrackAfterFailure(s, a, t, sub);
    case RemoveDelivered => TrackAfterRemoval(s, a, t, sub);
    case DropFailed => TrackAfterRemoval(s, a, t, sub);
    case _ => TrackAfterClients(s, a, t, sub);
  }

  lemma OkStep(s: State, a: Action)
    requires Ok(s) && Enabled(s, a)
    ensures Ok(Apply(s, a))
  {
    var s' := Apply(s, a);
    TopicsStep(s, a);
    forall t | InFlight(s', t) ensures t in s'.topics && SnapshotOk(s'.topics[t], s'.pass.snaps[t]) {
      assert t in s.topics && TopicOk(s.topics[t]);
      assert InFlight(s, t) ==> SnapshotOk(s.topics[t], s.pass.snaps[t]);
      SnapshotStep(s, a, t);
    }
    forall t, sub | t in s'.topics && sub in s'.topics[t].tracks ensures TrackOk(s', t, sub, s'.topics[t].tracks[sub]) {
      TrackStep(s, a, t, sub);
    }
  }

  // -------------------------------------------------------------- over runs

  ghost predicate Next(s: State, s': State) {
    exists a :: Enabled(s, a) && s' == Apply(s, a)
  }

  ghost predicate IsRun(run: seq<State>) {
    && run != [] && run[0] == State(map[], NoPass)
    && forall i :: 0 < i < |run| ==> Next(run[i - 1], run[i])
  }

  ghost function Last(run: seq<State>): State
    requires run != []
  {
    run[|run| - 1]
  }

  lemma {:induction false} RunOk(run: seq<State>)
    requires IsRun(run)
    ensures Ok(Last(run))
  {
    if |run| > 1 {
      var s := run[|run| - 2];
      assert Next(s, Last(run));
      RunOk(run[..|run| - 1]);
      var a :| Enabled(s, a) && Last(run) == Apply(s, a);
      OkStep(s, a);
    }
  }

  /** While a subscription lasts and no delivery to its subscriber fails, what it has received is, once each and
      in the order of sending, the stretch of the topic's history from the subscription's start to the first
      message it is still to get. Between passes that next message is the first pending one, and what is pending
      is everything sent since the snapshot of the last pass. Only a subscription made while the sender still owed
      the same subscriber a delivery from before the topic was removed receives, before that, older messages: a
      stretch of that delivery. */
  lemma SubscribersMissNothing(run: seq<State>, t: string, sub: Subscriber)
    requires IsRun(run)
    requires t in Last(run).topics && sub in Last(run).topics[t].subscribers && !HasFailed(Last(run), sub)
    ensures var x := Last(run).topics[t];
            && sub in x.tracks && Distinct(x.sent)
            && x.base <= |x.sent| && x.pending == x.sent[x.base..]
            && var k, next := x.tracks[sub], NextIndex(Last(run), t, sub);
            && k.earlyFrom + k.early <= |x.sent| && k.start <= next <= |x.sent|
            && (if k.foreign then k.earlyFrom + k.early <= k.start else k.early == 0)
            && k.received == x.sent[k.earlyFrom..k.earlyFrom + k.early] + x.sent[k.start..next]
            && (!InFlight(Last(run), t) ==> next == x.base && x.sent[k.start..] == x.sent[k.start..next] + x.pending)
  {
    RunOk(run);
    var s := Last(run);
    var x := s.topics[t];
    assert TopicOk(x);
    assert TrackOk(s, t, sub, x.tracks[sub]);
    hide Ok;
    TrackSays(x, NextIndex(s, t, sub), x.tracks[sub]);
  }

  lemma TrackSays(x: Topic, next: nat, k: Track)
    requires TopicOk(x) && x.live && OwnOk(x, next, k) && EarlyOk(x, k)
    ensures k.received == x.sent[k.earlyFrom..k.earlyFrom + k.early] + x.sent[k.start..next]
    ensures next == x.base ==> x.sent[k.start..] == x.sent[k.start..next] + x.pending
  {
    assert k.received == k.received[..k.early] + k.received[k.early..];
  }

  /** Messages sent during a pass survive it: ending the pass removes exactly the snapshot. */
  lemma PassRemovesItsSnapshot(run: seq<State>, t: string)
    requires IsRun(run) && Enabled(Last(run), RemoveDelivered)
    requires InFlight(Last(run), t) && Of(Last(run), t).live && Of(Last(run), t).base == Last(run).pass.snaps[t].from
    ensures var before, after := Of(Last(run), t), Of(Apply(Last(run), RemoveDelivered), t);
            && before.pending == Last(run).pass.snaps[t].msgs + after.pending
            && after.sent == before.sent
  {
    RunOk(run);
    var s := Last(run);
    assert TopicOk(s.topics[t]) && SnapshotOk(s.topics[t], s.pass.snaps[t]);
    hide Ok, TopicOk, SnapshotOk;
    SnapshotEnds(s.topics[t], s.pass.snaps[t]);
    RemovalEffect(s, t);
    hide Apply, Delivered;
  }

  lemma RemovalEffect(s: State, t: string)
    requires Enabled(s, RemoveDelivered) && InFlight(s, t) && t in s.topics
    ensures Of(Apply(s, RemoveDelivered), t) == Delivered(s.topics[t], s.pass.snaps[t])
  {}

  lemma SnapshotEnds(x: Topic, n: Snapshot)
    requires TopicOk(x) && SnapshotOk(x, n) && x.live && x.base == n.from
    ensures x.pending == n.msgs + Delivered(x, n).pending && Delivered(x, n).sent == x.sent
  {
    RemoveSnapshot(x.sent, n.from, |n.msgs|);
    assert x.sent[n.from..] == n.msgs + x.sent[n.from + |n.msgs|..];
  }

  /** A new subscription starts at the first pending message exactly when no pass is under way whose snapshot
      holds messages that are still pending, or the sender owes the same subscriber that snapshot from the start
      anyway. */
  lemma SubscriptionStart(s: State, t: string, sub: Subscriber)
    requires Ok(s) && Enabled(s, AddSubscriber(t, sub)) && t in s.topics && sub !in s.topics[t].subscribers
    ensures var k := Apply(s, AddSubscriber(t, sub)).topics[t].tracks[sub];
            && k.received == [] && (k.foreign <==> Foreign(s, t, sub)) && s.topics[t].base <= k.start
            && (k.start == s.topics[t].base <==>
                  !InFlight(s, t)
                  || s.pass.snaps[t].msgs == []
                  || s.pass.snaps[t].from != s.topics[t].base
                  || (Owed(s, t, sub) && s.pass.snaps[t].todo[sub] == 0))
  {
    assert InFlight(s, t) ==> SnapshotOk(s.topics[t], s.pass.snaps[t]);
  }

  // ------------------------------ a subscriber that comes during a pass misses it

  lemma Extend(run: seq<State>, a: Action) returns (longer: seq<State>)
    requires IsRun(run) && Enabled(Last(run), a)
    ensures IsRun(longer) && longer == run + [Apply(Last(run), a)]
  {
    longer := run + [Apply(Last(run), a)];
    forall i | 0 < i < |longer| ensures Next(longer[i - 1], longer[i]) {
      if i < |run| {
        assert Next(run[i - 1], run[i]);
      }
    }
  }

  lemma SnapshotWithoutSubscribers(t: string, m: Message) returns (run: seq<State>)
    ensures IsRun(run)
    ensures var x := Topic(true, [m], {}, [m], 0, map[]);
            Last(run) == State(map[t := x], Delivering(map[t := Snapshot([m], 0, map[])], {}))
  {
    run := [State(map[], NoPass)];
    run := Extend(run, AddTopic(t));
    assert Last(run) == State(map[t := Topic(true, [], {}, [], 0, map[])], NoPass);
    run := Extend(run, Send(t, m));
    var x := Topic(true, [m], {}, [m], 0, map[]);
    assert [] + [m] == [m];
    assert Last(run) == State(map[t := x], NoPass);
    run := Extend(run, TakeSnapshot);
    var snaps := Last(run).pass.snaps;
    assert SnapshotOf(x).todo == map[];
    assert snaps.Keys == {t} && snaps[t] == Snapshot([m], 0, map[]);
  }

  /** A message that is pending when someone subscribes can be removed without reaching them. */
  lemma PendingMessageMissed(t: string, m: Message, sub: Subscriber) returns (run: seq<State>, n: nat)
    ensures IsRun(run) && 0 < n < |run|
    ensures t in run[n - 1].topics && run[n - 1].topics[t].pending == [m] && sub !in run[n - 1].topics[t].subscribers
    ensures forall i :: n <= i < |run| ==> t in run[i].topics && sub in run[i].topics[t].subscribers
    ensures Last(run).pass == NoPass && Last(run).topics[t].pending == []
    ensures sub in Last(run).topics[t].tracks && Last(run).topics[t].tracks[sub].received == []
  {
    run := SnapshotWithoutSubscribers(t, m);
    n := |run|;
    var snap := Snapshot([m], 0, map[]);
    run := Extend(run, AddSubscriber(t, sub));
    var y := Topic(true, [m], {sub}, [m], 0, map[sub := Track(1, [], false, 0, 0)]);
    assert {} + {sub} == {sub};
    assert Last(run) == State(map[t := y], Delivering(map[t := snap], {}));
    run := Extend(run, RemoveDelivered);
    assert RemoveAll([m], [m]) == RemoveAll(RemoveFirst([m], m), []) == [];
    var z := y.(pending := [], base := 1);
    assert Delivered(y, snap) == z;
    assert Last(run).topics[t] == z;
    run := Extend(run, DropFailed);
  }
}
