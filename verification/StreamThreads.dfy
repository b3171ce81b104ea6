/**
 The table of item streams under the threaded server: the threads of the connections and the housekeeper
 interleave statement by statement (`DaemonObject.get_next_stream_item`, `Daemon._clientDisconnect` and
 `Daemon._housekeeping` in src/Pyro4/core.py, `ClientConnectionJob` in src/Pyro4/socketserver/threadpoolserver.py).
 */
module StreamThreads {
  import opened Common

  datatype Config<!T> = Config(lifetime: real, linger: real, items: nat -> (nat -> Option<T>))

  /** An entry of the table; its iterator is the one with its number. */
  datatype Info = Info(client: Option<nat>, timestamp: real, linger: real)

  /** Where the thread of a connection is. */
  datatype Phase =
    | Connecting
    | Idle
    | Looking(id: nat)                                // the stream was in the table
    | Attaching(id: nat, timestamp: real)             // it had no client
    | Drawing(id: nat)                                // about to call next
    | Dropping(id: nat)                               // about to delete the entry
    | Leaving(todo: set<nat>)                         // in the loop of _clientDisconnect
    | Orphaning(id: nat, timestamp: real, todo: set<nat>)  // about to let an entry go
    | Gone

  /** The housekeeper: in the loop over ages, or in the loop over lingering streams; about to delete; or ended by
      an error. */
  datatype Keeper =
    | Resting
    | Sweeping(byAge: bool, todo: set<nat>)
    | Removing(byAge: bool, id: nat, todo: set<nat>)
    | Dead

  /** An item given to a connection. */
  datatype Answer<T> = Answer(id: nat, conn: nat, item: T)

  datatype State<T> = State(
    entries: map<nat, Info>, phases: map<nat, Phase>, keeper: Keeper, now: real,
    created: map<nat, real>, drawn: map<nat, nat>, answers: seq<Answer<T>>)

  datatype Action =
    | Tick(time: real)
    | Accept(c: nat)
    | Handshake(c: nat, ok: bool)
    | NewStream(c: nat, id: nat)
    | AskNext(c: nat, id: nat)
    | AskClose(c: nat, id: nat)
    | Leave(c: nat)
    | Go(c: nat, pick: nat, clash: bool)              // the next statement of connection c
    | Wake
    | Sweep(pick: nat)                                // the next statement of the housekeeper

  function Initial<T>(now: real): State<T> {
    State(map[], map[], Resting, now, map[], map[], [])
  }

  /** One statement. Actions that are not possible change nothing. */
  function Do<T>(cfg: Config<T>, s: State<T>, a: Action): State<T> {
    match a
    case Tick(time) => if time > 0.0 then s.(now := time) else s
    case Accept(c) => if c !in s.phases then s.(phases := s.phases[c := Connecting]) else s
    case Handshake(c, ok) =>
      if c in s.phases && s.phases[c] == Connecting then s.(phases := s.phases[c := if ok then Idle else Gone]) else s
    case NewStream(c, id) =>
      if c in s.phases && s.phases[c] == Idle && id !in s.created then
        s.(entries := s.entries[id := Info(Some(c), s.now, 0.0)], created := s.created[id := s.now],
           drawn := s.drawn[id := 0])
      else s
    case AskNext(c, id) =>
      if c in s.phases && s.phases[c] == Idle && id in s.entries then s.(phases := s.phases[c := Looking(id)]) else s
    case AskClose(c, id) =>
      if c in s.phases && s.phases[c] == Idle && id in s.entries then s.(phases := s.phases[c := Dropping(id)]) else s
    case Leave(c) =>
      if c in s.phases && s.phases[c] == Idle then s.(phases := s.phases[c := Leaving(s.entries.Keys)]) else s
    case Go(c, pick, clash) => if c in s.phases then Advance(cfg, s, c, pick, clash) else s
    case Wake =>
      if s.keeper == Resting then s.(keeper := if cfg.lifetime > 0.0 then Sweeping(true, s.entries.Keys)
                                               else AfterAges(cfg, s))
      else s
    case Sweep(pick) => SweepStep(cfg, s, pick)
  }

  /** The next statement of c's thread: `pick` is the next key of its loop, and `clash` says that another thread
      is inside the iterator. Deleting what is not there raises an error, which ends the request or the loop. */
  function Advance<T>(cfg: Config<T>, s: State<T>, c: nat, pick: nat, clash: bool): State<T>
    requires c in s.phases
  {
    match s.phases[c]
    case Looking(id) =>
      if id !in s.entries then At(s, c, Idle)
      else if s.entries[id].client == None then At(s, c, Attaching(id, s.entries[id].timestamp))
      else At(s, c, Drawing(id))
    case Attaching(id, timestamp) =>
      At(s, c, Drawing(id)).(entries := s.entries[id := Info(Some(c), timestamp, 0.0)])
    case Drawing(id) =>
      if clash || id !in s.drawn then At(s, c, Dropping(id))
      else
        var drawn := s.drawn[id := s.drawn[id] + 1];
        (match cfg.items(id)(s.drawn[id])
         case None => At(s, c, Dropping(id)).(drawn := drawn)
         case Some(item) => At(s, c, Idle).(drawn := drawn, answers := s.answers + [Answer(id, c, item)]))
    case Dropping(id) => At(s, c, Idle).(entries := s.entries - {id})
    case Leaving(todo) =>
      if todo == {} then At(s, c, Gone)
      else if pick !in todo then s
      else if pick in s.entries && s.entries[pick].client == Some(c) then
        At(s, c, Orphaning(pick, s.entries[pick].timestamp, todo - {pick}))
      else At(s, c, Leaving(todo - {pick}))
    case Orphaning(id, timestamp, todo) =>
      if cfg.linger > 0.0 then At(s, c, Leaving(todo)).(entries := s.entries[id := Info(None, timestamp, s.now)])
      else if id in s.entries then At(s, c, Leaving(todo)).(entries := s.entries - {id})
      else At(s, c, Gone)
    case _ => s
  }

  function At<T>(s: State<T>, c: nat, p: Phase): State<T> {
    s.(phases := s.phases[c := p])
  }

  function AfterAges<T>(cfg: Config<T>, s: State<T>): Keeper {
    if cfg.linger > 0.0 then Sweeping(false, s.entries.Keys) else Resting
  }

  function SweepStep<T>(cfg: Config<T>, s: State<T>, pick: nat): State<T> {
    match s.keeper
    case Sweeping(byAge, todo) =>
      if todo == {} then s.(keeper := if byAge then AfterAges(cfg, s) else Resting)
      else if pick !in todo then s
      else
        var due := pick in s.entries && (var e := s.entries[pick];
          if byAge then s.now - e.timestamp > cfg.lifetime
          else e.linger != 0.0 && s.now - e.linger > cfg.linger);
        s.(keeper := if due then Removing(byAge, pick, todo - {pick}) else Sweeping(byAge, todo - {pick}))
    case Removing(byAge, id, todo) =>
      if id in s.entries then s.(keeper := Sweeping(byAge, todo), entries := s.entries - {id})
      else s.(keeper := Dead)
    case _ => s
  }

  function Run<T>(cfg: Config<T>, s: State<T>, actions: seq<Action>): State<T> {
    if actions == [] then s
    else Do(cfg, Run(cfg, s, actions[..|actions| - 1]), actions[|actions| - 1])
  }

  // ------------------------------------------------------ what every run keeps

  ghost predicate OwnerOrLinger(e: Info) {
    e.client == None <==> e.linger != 0.0
  }

  /** No stream has lost both its owner and its linger time, and its age still counts from its creation. */
  ghost predicate SaneEntry(e: Info, id: nat, created: map<nat, real>) {
    OwnerOrLinger(e) && id in created && e.timestamp == created[id]
  }

  ghost predicate SaneEntries(entries: map<nat, Info>, created: map<nat, real>) {
    forall id :: id in entries ==> SaneEntry(entries[id], id, created)
  }

  /** What a thread has read of an entry is still true of it. */
  ghost predicate Remembers(p: Phase, created: map<nat, real>) {
    p.Attaching? || p.Orphaning? ==> p.id in created && p.timestamp == created[p.id]
  }

  ghost predicate SanePhases(phases: map<nat, Phase>, created: map<nat, real>) {
    forall c :: c in phases ==> Remembers(phases[c], created)
  }

  ghost predicate Sane<T>(s: State<T>) {
    s.now > 0.0 && SaneEntries(s.entries, s.created) && SanePhases(s.phases, s.created)
  }

  lemma SaneAdvance<T>(cfg: Config<T>, s: State<T>, c: nat, pick: nat, clash: bool)
    requires Sane(s) && c in s.phases
    ensures Sane(Advance(cfg, s, c, pick, clash))
  {
    var s' := Advance(cfg, s, c, pick, clash);
    assert Remembers(s.phases[c], s.created);
    match s.phases[c]
    case Looking(id) =>
    case Attaching(id, timestamp) =>
    case Drawing(id) =>
    case Dropping(id) =>
    case Leaving(todo) =>
    case Orphaning(id, timestamp, todo) =>
    case _ =>
  }

  lemma SaneStep<T>(cfg: Config<T>, s: State<T>, a: Action)
    requires Sane(s)
    ensures Sane(Do(cfg, s, a))
  {
    if a.Go? && a.c in s.phases {
      SaneAdvance(cfg, s, a.c, a.pick, a.clash);
    } else {
      hide Advance;
    }
  }

  /** Whether a connection in this phase can own the stream: one that is leaving still has to come to it. */
  ghost predicate MayOwn(p: Phase, id: nat) {
    match p
    case Connecting => false
    case Gone => false
    case Leaving(todo) => id in todo
    case Orphaning(next, _, todo) => id == next || id in todo
    case _ => true
  }

  ghost predicate OwnerIn(e: Info, id: nat, phases: map<nat, Phase>) {
    e.client.Some? ==> e.client.value in phases && MayOwn(phases[e.client.value], id)
  }

  ghost predicate Owned<T>(s: State<T>) {
    forall id :: id in s.entries ==> OwnerIn(s.entries[id], id, s.phases)
  }

  lemma OwnedAdvance<T>(cfg: Config<T>, s: State<T>, c: nat, pick: nat, clash: bool)
    requires cfg.linger > 0.0 && Owned(s) && c in s.phases
    ensures Owned(Advance(cfg, s, c, pick, clash))
  {
    var t := Advance(cfg, s, c, pick, clash);
    forall id | id in t.entries ensures OwnerIn(t.entries[id], id, t.phases) {
      assert id in s.entries ==> OwnerIn(s.entries[id], id, s.phases);
      OwnerKept(cfg, s, c, pick, clash, id);
    }
  }

  lemma OwnerKept<T>(cfg: Config<T>, s: State<T>, c: nat, pick: nat, clash: bool, id: nat)
    requires cfg.linger > 0.0 && c in s.phases && (id in s.entries ==> OwnerIn(s.entries[id], id, s.phases))
    ensures var t := Advance(cfg, s, c, pick, clash); id in t.entries ==> OwnerIn(t.entries[id], id, t.phases)
  {
    match s.phases[c]
    case Leaving(todo) =>
    case _ =>
  }

  lemma OwnedStep<T>(cfg: Config<T>, s: State<T>, a: Action)
    requires cfg.linger > 0.0 && Owned(s)
    ensures Owned(Do(cfg, s, a))
  {
    if a.Go? && a.c in s.phases {
      OwnedAdvance(cfg, s, a.c, a.pick, a.clash);
    } else {
      hide Advance;
    }
  }

  lemma {:induction false} SaneRun<T>(cfg: Config<T>, now: real, actions: seq<Action>)
    requires now > 0.0
    ensures Sane(Run(cfg, Initial(now), actions))
  {
    if actions != [] {
      SaneRun(cfg, now, actions[..|actions| - 1]);
      SaneStep(cfg, Run(cfg, Initial(now), actions[..|actions| - 1]), actions[|actions| - 1]);
    }
  }

  lemma {:induction false} OwnedRun<T>(cfg: Config<T>, now: real, actions: seq<Action>)
    requires cfg.linger > 0.0
    ensures Owned(Run(cfg, Initial(now), actions))
  {
    if actions != [] {
      OwnedRun(cfg, now, actions[..|actions| - 1]);
      OwnedStep(cfg, Run(cfg, Initial(now), actions[..|actions| - 1]), actions[|actions| - 1]);
    }
  }

  /** Main result: however the threads interleave, a stream has no owner exactly while it lingers, and its age
      is counted from the call that returned it. */
  lemma UnownedMeansLingering<T>(cfg: Config<T>, now: real, actions: seq<Action>)
    requires now > 0.0
    ensures var s := Run(cfg, Initial(now), actions);
            forall id :: id in s.entries ==>
              && (s.entries[id].client == None <==> s.entries[id].linger != 0.0)
              && id in s.created && s.entries[id].timestamp == s.created[id]
  {
    SaneRun(cfg, now, actions);
  }

  /** A connection that passed its handshake and was not disconnected. */
  ghost predicate Connected<T>(s: State<T>, c: nat) {
    c in s.phases && s.phases[c] != Connecting && s.phases[c] != Gone
  }

  ghost predicate OwnersConnected<T>(s: State<T>) {
    forall id, c :: id in s.entries && s.entries[id].client == Some(c) ==> Connected(s, c)
  }

  lemma {:induction false} Then<T>(cfg: Config<T>, s: State<T>, actions: seq<Action>, a: Action)
    ensures Run(cfg, s, actions + [a]) == Do(cfg, Run(cfg, s, actions), a)
  {
    assert (actions + [a])[..|actions|] == actions;
  }

  ghost predicate Looks<T>(s: State<T>, entries: map<nat, Info>, phases: map<nat, Phase>) {
    s.entries == entries && s.phases == phases
  }

  /** Connection 0 has stream 1 and then stream 2. */
  lemma TwoStreams<T>(cfg: Config<T>, now: real) returns (actions: seq<Action>)
    ensures Looks(Run(cfg, Initial(now), actions),
                  map[1 := Info(Some(0), now, 0.0), 2 := Info(Some(0), now, 0.0)], map[0 := Idle])
  {
    var start: State<T> := Initial(now);
    assert Run(cfg, start, []) == start;
    hide Run;
    Then(cfg, start, [], Accept(0));
    actions := [] + [Accept(0)];
    Then(cfg, start, actions, Handshake(0, true));
    actions := actions + [Handshake(0, true)];
    Then(cfg, start, actions, NewStream(0, 1));
    actions := actions + [NewStream(0, 1)];
    Then(cfg, start, actions, NewStream(0, 2));
    actions := actions + [NewStream(0, 2)];
  }

  /** Connection 1 is about to close stream 1, and connection 0 starts to leave. */
  lemma ClosingAndLeaving<T>(cfg: Config<T>, now: real) returns (actions: seq<Action>)
    ensures Looks(Run(cfg, Initial(now), actions),
                  map[1 := Info(Some(0), now, 0.0), 2 := Info(Some(0), now, 0.0)],
                  map[0 := Leaving({1, 2}), 1 := Dropping(1)])
  {
    var start: State<T> := Initial(now);
    actions := TwoStreams(cfg, now);
    hide Run;
    Then(cfg, start, actions, Accept(1));
    actions := actions + [Accept(1)];
    Then(cfg, start, actions, Handshake(1, true));
    actions := actions + [Handshake(1, true)];
    Then(cfg, start, actions, AskClose(1, 1));
    actions := actions + [AskClose(1, 1)];
    assert Run(cfg, start, actions).entries.Keys == {1, 2};
    Then(cfg, start, actions, Leave(0));
    actions := actions + [Leave(0)];
  }

  /** Without lingering, an entry that is deleted by another thread just before its owner lets it go makes the
      owner's loop fail, and its other streams keep an owner that is gone. */
  lemma AbandonedStream<T>(cfg: Config<T>, now: real) returns (actions: seq<Action>)
    requires cfg.linger <= 0.0
    ensures Looks(Run(cfg, Initial(now), actions), map[2 := Info(Some(0), now, 0.0)], map[0 := Gone, 1 := Idle])
  {
    var start: State<T> := Initial(now);
    actions := ClosingAndLeaving(cfg, now);
    hide Run;
    Then(cfg, start, actions, Go(0, 1, false));
    actions := actions + [Go(0, 1, false)];
    assert Run(cfg, start, actions).phases[0] == Orphaning(1, now, {2});
    Then(cfg, start, actions, Go(1, 1, false));
    actions := actions + [Go(1, 1, false)];
    Then(cfg, start, actions, Go(0, 1, false));
    actions := actions + [Go(0, 1, false)];
  }

  /** Main result: in every run each owner is connected, if and only if streams linger. */
  lemma OwnersStayConnected<T>(cfg: Config<T>, now: real)
    ensures (forall actions :: OwnersConnected(Run(cfg, Initial(now), actions))) <==> cfg.linger > 0.0
  {
    if cfg.linger > 0.0 {
      forall actions ensures OwnersConnected(Run(cfg, Initial(now), actions)) {
        OwnedRun(cfg, now, actions);
      }
    } else {
      var actions := AbandonedStream(cfg, now);
      var s := Run(cfg, Initial(now), actions);
      assert s.entries[2].client == Some(0) && s.phases[0] == Gone;
    }
  }

  // ---------------------------------------------------------- what is given out

  function ItemsOf<T>(answers: seq<Answer<T>>, id: nat): seq<T> {
    if answers == [] then []
    else
      var before, last := ItemsOf(answers[..|answers| - 1], id), answers[|answers| - 1];
      if last.id == id then before + [last.item] else before
  }

  /** What an iterator gives in its first k calls; it may give nothing and go on all the same. */
  function Given<T>(items: nat -> Option<T>, k: nat): seq<T> {
    if k == 0 then [] else Given(items, k - 1) + match items(k - 1) case Some(v) => [v] case None => []
  }

  /** An iterator that has ended stays so. */
  ghost predicate StaysEnded<T>(items: nat -> Option<T>) {
    forall i: nat :: items(i) == None ==> items(i + 1) == None
  }

  lemma {:induction false} GivenAreFirst<T>(items: nat -> Option<T>, k: nat)
    requires StaysEnded(items)
    ensures |Given(items, k)| <= k && (|Given(items, k)| < k ==> items(k - 1) == None)
    ensures forall i :: 0 <= i < |Given(items, k)| ==> items(i) == Some(Given(items, k)[i])
  {
    if k > 0 {
      GivenAreFirst(items, k - 1);
      if |Given(items, k - 1)| < k - 1 {
        assert items(k - 2) == None && items(k - 2 + 1) == None;
      }
    }
  }

  ghost predicate InOrder<T>(cfg: Config<T>, drawn: map<nat, nat>, answers: seq<Answer<T>>) {
    && (forall i :: 0 <= i < |answers| ==> answers[i].id in drawn)
    && (forall id :: id in drawn ==> ItemsOf(answers, id) == Given(cfg.items(id), drawn[id]))
  }

  lemma {:induction false} NothingGiven<T>(answers: seq<Answer<T>>, id: nat)
    requires forall i :: 0 <= i < |answers| ==> answers[i].id != id
    ensures ItemsOf(answers, id) == []
  {
    if answers != [] { NothingGiven(answers[..|answers| - 1], id); }
  }

  function Told<T>(id: nat, c: nat, item: Option<T>): seq<Answer<T>> {
    match item case Some(v) => [Answer(id, c, v)] case None => []
  }

  lemma AnswerStep<T>(cfg: Config<T>, drawn: map<nat, nat>, answers: seq<Answer<T>>, id: nat, c: nat)
    requires InOrder(cfg, drawn, answers) && id in drawn
    ensures InOrder(cfg, drawn[id := drawn[id] + 1], answers + Told(id, c, cfg.items(id)(drawn[id])))
  {
    var more := Told(id, c, cfg.items(id)(drawn[id]));
    assert more == [] ==> answers + more == answers;
    assert (answers + more)[..|answers|] == answers;
  }

  lemma NewStreamStep<T>(cfg: Config<T>, drawn: map<nat, nat>, answers: seq<Answer<T>>, id: nat)
    requires InOrder(cfg, drawn, answers) && id !in drawn
    ensures InOrder(cfg, drawn[id := 0], answers)
  {
    NothingGiven(answers, id);
  }

  lemma InOrderAdvance<T>(cfg: Config<T>, s: State<T>, c: nat, pick: nat, clash: bool)
    requires InOrder(cfg, s.drawn, s.answers) && c in s.phases
    ensures var t := Advance(cfg, s, c, pick, clash);
            InOrder(cfg, t.drawn, t.answers) && t.created == s.created && t.drawn.Keys == s.drawn.Keys
  {
    AdvanceDraws(cfg, s, c, pick, clash);
    var p := s.phases[c];
    hide Advance, InOrder, Told, Given, ItemsOf;
    if p.Drawing? && !clash && p.id in s.drawn {
      AnswerStep(cfg, s.drawn, s.answers, p.id, c);
    }
  }

  /** Only the call of next draws on an iterator, and gives what it draws to its caller. */
  lemma AdvanceDraws<T>(cfg: Config<T>, s: State<T>, c: nat, pick: nat, clash: bool)
    requires c in s.phases
    ensures var t, p := Advance(cfg, s, c, pick, clash), s.phases[c];
            && t.created == s.created
            && if p.Drawing? && !clash && p.id in s.drawn then
                 && t.drawn == s.drawn[p.id := s.drawn[p.id] + 1]
                 && t.answers == s.answers + Told(p.id, c, cfg.items(p.id)(s.drawn[p.id]))
               else
                 t.drawn == s.drawn && t.answers == s.answers
  {
    match s.phases[c]
    case Drawing(id) => assert s.answers + [] == s.answers;
    case _ =>
  }

  lemma InOrderStep<T>(cfg: Config<T>, s: State<T>, a: Action)
    requires InOrder(cfg, s.drawn, s.answers) && s.drawn.Keys == s.created.Keys
    ensures var t := Do(cfg, s, a); InOrder(cfg, t.drawn, t.answers) && t.drawn.Keys == t.created.Keys
  {
    hide InOrder, Advance;
    if a.Go? && a.c in s.phases {
      InOrderAdvance(cfg, s, a.c, a.pick, a.clash);
    } else if a.NewStream? && a.id !in s.drawn {
      NewStreamStep(cfg, s.drawn, s.answers, a.id);
    }
  }

  /** Main result: whichever connections ask, and however they interleave, the items given out of a stream are
      those its iterator gave in its calls so far, in order and each once; they are its first items if it does not
      go on after its end. */
  lemma ItemsInOrder<T>(cfg: Config<T>, now: real, actions: seq<Action>)
    ensures var s := Run(cfg, Initial(now), actions);
            && (forall i :: 0 <= i < |s.answers| ==> s.answers[i].id in s.drawn)
            && forall id :: id in s.drawn ==>
                 var xs := ItemsOf(s.answers, id);
                 && xs == Given(cfg.items(id), s.drawn[id])
                 && (StaysEnded(cfg.items(id)) ==> forall i :: 0 <= i < |xs| ==> cfg.items(id)(i) == Some(xs[i]))
  {
    InOrderRun(cfg, now, actions);
    var s := Run(cfg, Initial(now), actions);
    forall id | id in s.drawn && StaysEnded(cfg.items(id))
      ensures forall i :: 0 <= i < |Given(cfg.items(id), s.drawn[id])| ==>
                cfg.items(id)(i) == Some(Given(cfg.items(id), s.drawn[id])[i])
    {
      GivenAreFirst(cfg.items(id), s.drawn[id]);
    }
  }

  lemma {:induction false} InOrderRun<T>(cfg: Config<T>, now: real, actions: seq<Action>)
    ensures var s := Run(cfg, Initial(now), actions); InOrder(cfg, s.drawn, s.answers) && s.drawn.Keys == s.created.Keys
  {
    if actions != [] {
      InOrderRun(cfg, now, actions[..|actions| - 1]);
      InOrderStep(cfg, Run(cfg, Initial(now), actions[..|actions| - 1]), actions[|actions| - 1]);
    }
  }

  // ------------------------------------------------------------- undisturbed

  /** What `_clientDisconnect` makes of an entry when nothing interferes. */
  function LetGo(entries: map<nat, Info>, todo: set<nat>, c: nat, now: real, linger: real): map<nat, Info> {
    map id | id in entries && !(id in todo && entries[id].client == Some(c) && linger <= 0.0) ::
      if id in todo && entries[id].client == Some(c) then Info(None, entries[id].timestamp, now) else entries[id]
  }

  lemma LetGoOne(entries: map<nat, Info>, todo: set<nat>, id: nat, c: nat, now: real, linger: real)
    requires id in todo
    ensures LetGo(LetGo(entries, {id}, c, now, linger), todo - {id}, c, now, linger) == LetGo(entries, todo, c, now, linger)
  {}

  /** The loop of a leaving connection, run without interruption, lets go of exactly its own streams. */
  lemma {:induction false} LeaveAlone<T>(cfg: Config<T>, s: State<T>, c: nat, todo: set<nat>) returns (actions: seq<Action>)
    requires c in s.phases && s.phases[c] == Leaving(todo)
    ensures forall i :: 0 <= i < |actions| ==> actions[i].Go? && actions[i].c == c
    ensures var t := Run(cfg, s, actions);
            t.entries == LetGo(s.entries, todo, c, s.now, cfg.linger) && t.phases == s.phases[c := Gone]
    decreases |todo|
  {
    if todo == {} {
      assert Run(cfg, s, []) == s;
      Then(cfg, s, [], Go(c, 0, false));
      actions := [] + [Go(c, 0, false)];
      assert Run(cfg, s, actions).entries == s.entries;
      assert LetGo(s.entries, {}, c, s.now, cfg.linger) == s.entries;
    } else {
      hide Run, LetGo;
      var id: nat :| id in todo;
      var first, t := LetGoSteps(cfg, s, c, id, todo);
      var rest := LeaveAlone(cfg, t, c, todo - {id});
      RunParts(cfg, s, first, rest);
      LetGoOne(s.entries, todo, id, c, s.now, cfg.linger);
      actions := first + rest;
    }
  }

  lemma LeavingStep<T>(cfg: Config<T>, s: State<T>, c: nat, id: nat, todo: set<nat>)
    requires c in s.phases && s.phases[c] == Leaving(todo) && id in todo
    ensures Do(cfg, s, Go(c, id, false)) ==
            At(s, c, if id in s.entries && s.entries[id].client == Some(c) then Orphaning(id, s.entries[id].timestamp, todo - {id})
                     else Leaving(todo - {id}))
  {}

  lemma OrphaningStep<T>(cfg: Config<T>, s: State<T>, c: nat, id: nat, timestamp: real, todo: set<nat>)
    requires c in s.phases && s.phases[c] == Orphaning(id, timestamp, todo) && id in s.entries
    ensures Do(cfg, s, Go(c, id, false)) ==
            At(s, c, Leaving(todo)).(entries := if cfg.linger > 0.0 then s.entries[id := Info(None, timestamp, s.now)]
                                                else s.entries - {id})
  {}

  lemma LetGoSteps<T>(cfg: Config<T>, s: State<T>, c: nat, id: nat, todo: set<nat>)
    returns (actions: seq<Action>, t: State<T>)
    requires c in s.phases && s.phases[c] == Leaving(todo) && id in todo
    ensures forall i :: 0 <= i < |actions| ==> actions[i].Go? && actions[i].c == c
    ensures t == Run(cfg, s, actions)
    ensures t.now == s.now && t.phases == s.phases[c := Leaving(todo - {id})]
    ensures t.entries == LetGo(s.entries, {id}, c, s.now, cfg.linger)
  {
    var go := Go(c, id, false);
    assert Run(cfg, s, []) == s;
    LetGoSelf(s.entries, id, c, s.now, cfg.linger);
    hide Run, Do, LetGo;
    Then(cfg, s, [], go);
    LeavingStep(cfg, s, c, id, todo);
    actions := [] + [go];
    t := Run(cfg, s, actions);
    if id in s.entries && s.entries[id].client == Some(c) {
      OrphaningStep(cfg, t, c, id, s.entries[id].timestamp, todo - {id});
      Then(cfg, s, actions, go);
      actions := actions + [go];
      t := Run(cfg, s, actions);
    }
  }

  lemma LetGoSelf(entries: map<nat, Info>, id: nat, c: nat, now: real, linger: real)
    ensures LetGo(entries, {id}, c, now, linger) ==
            if !(id in entries && entries[id].client == Some(c)) then entries
            else if linger > 0.0 then entries[id := Info(None, entries[id].timestamp, now)]
            else entries - {id}
  {}

  lemma {:induction false} RunParts<T>(cfg: Config<T>, s: State<T>, first: seq<Action>, rest: seq<Action>)
    ensures Run(cfg, s, first + rest) == Run(cfg, Run(cfg, s, first), rest)
  {
    if rest == [] {
      assert first + rest == first;
    } else {
      var n := |rest| - 1;
      assert first + rest == (first + rest[..n]) + [rest[n]];
      assert rest == rest[..n] + [rest[n]];
      RunParts(cfg, s, first, rest[..n]);
      Then(cfg, s, first + rest[..n], rest[n]);
      Then(cfg, Run(cfg, s, first), rest[..n], rest[n]);
    }
  }

  /** What a pass leaves when nothing interferes: the streams that are young enough and whose owners, if gone, are not
      gone for too long. */
  function AfterPass<T>(cfg: Config<T>, entries: map<nat, Info>, now: real): map<nat, Info> {
    map id | id in entries && (cfg.lifetime > 0.0 ==> now - entries[id].timestamp <= cfg.lifetime)
                           && (cfg.linger > 0.0 && entries[id].linger != 0.0 ==> now - entries[id].linger <= cfg.linger)
           :: entries[id]
  }

  /** Whether one of the two loops of the pass deletes the entry. */
  predicate Due<T>(cfg: Config<T>, byAge: bool, e: Info, now: real) {
    if byAge then now - e.timestamp > cfg.lifetime else e.linger != 0.0 && now - e.linger > cfg.linger
  }

  function Swept<T>(cfg: Config<T>, byAge: bool, entries: map<nat, Info>, todo: set<nat>, now: real): map<nat, Info> {
    map id | id in entries && !(id in todo && Due(cfg, byAge, entries[id], now)) :: entries[id]
  }

  ghost predicate OnlySweeps(actions: seq<Action>) {
    forall i :: 0 <= i < |actions| ==> actions[i].Sweep? || actions[i].Wake?
  }

  lemma SweepTest<T>(cfg: Config<T>, s: State<T>, byAge: bool, todo: set<nat>, id: nat)
    requires s.keeper == Sweeping(byAge, todo) && id in todo
    ensures Do(cfg, s, Sweep(id)) ==
            s.(keeper := if id in s.entries && Due(cfg, byAge, s.entries[id], s.now) then Removing(byAge, id, todo - {id})
                         else Sweeping(byAge, todo - {id}))
  {}

  lemma SweepDelete<T>(cfg: Config<T>, s: State<T>, byAge: bool, todo: set<nat>, id: nat)
    requires s.keeper == Removing(byAge, id, todo) && id in s.entries
    ensures Do(cfg, s, Sweep(id)) == s.(keeper := Sweeping(byAge, todo), entries := s.entries - {id})
  {}

  lemma SweptSelf<T>(cfg: Config<T>, byAge: bool, entries: map<nat, Info>, id: nat, now: real)
    ensures Swept(cfg, byAge, entries, {id}, now) ==
            if id in entries && Due(cfg, byAge, entries[id], now) then entries - {id} else entries
  {}

  /** One key of a loop, in one statement or two. */
  lemma SweepOne<T>(cfg: Config<T>, s: State<T>, byAge: bool, todo: set<nat>, id: nat) returns (actions: seq<Action>, t: State<T>)
    requires s.keeper == Sweeping(byAge, todo) && id in todo
    ensures OnlySweeps(actions) && t == Run(cfg, s, actions)
    ensures t == s.(keeper := Sweeping(byAge, todo - {id}), entries := Swept(cfg, byAge, s.entries, {id}, s.now))
  {
    SweptSelf(cfg, byAge, s.entries, id, s.now);
    SweepTest(cfg, s, byAge, todo, id);
    var u := Do(cfg, s, Sweep(id));
    hide Do, Swept, Due;
    if id in s.entries && Due(cfg, byAge, s.entries[id], s.now) {
      SweepDelete(cfg, u, byAge, todo - {id}, id);
      actions, t := [Sweep(id), Sweep(id)], Do(cfg, u, Sweep(id));
      TwoActions(cfg, s, Sweep(id), Sweep(id));
    } else {
      actions, t := [Sweep(id)], u;
      OneAction(cfg, s, Sweep(id));
    }
  }

  lemma OneAction<T>(cfg: Config<T>, s: State<T>, a: Action)
    ensures Run(cfg, s, [a]) == Do(cfg, s, a)
  {
    assert Run(cfg, s, []) == s;
    Then(cfg, s, [], a);
    assert [] + [a] == [a];
  }

  lemma TwoActions<T>(cfg: Config<T>, s: State<T>, a: Action, b: Action)
    ensures Run(cfg, s, [a, b]) == Do(cfg, Do(cfg, s, a), b)
  {
    OneAction(cfg, s, a);
    Then(cfg, s, [a], b);
    assert [a] + [b] == [a, b];
  }

  lemma {:induction false} SweepLoop<T>(cfg: Config<T>, s: State<T>, byAge: bool, todo: set<nat>)
    returns (actions: seq<Action>, t: State<T>)
    requires s.keeper == Sweeping(byAge, todo)
    ensures OnlySweeps(actions) && t == Run(cfg, s, actions)
    ensures t == s.(keeper := Sweeping(byAge, {}), entries := Swept(cfg, byAge, s.entries, todo, s.now))
    decreases |todo|
  {
    if todo == {} {
      actions, t := [], s;
      assert Swept(cfg, byAge, s.entries, {}, s.now) == s.entries;
    } else {
      var id: nat :| id in todo;
      var first, u := SweepOne(cfg, s, byAge, todo, id);
      hide Run;
      var rest, v := SweepLoop(cfg, u, byAge, todo - {id});
      RunParts(cfg, s, first, rest);
      SweptParts(cfg, byAge, s.entries, todo, id, s.now);
      actions, t := first + rest, v;
    }
  }

  lemma SweptParts<T>(cfg: Config<T>, byAge: bool, entries: map<nat, Info>, todo: set<nat>, id: nat, now: real)
    requires id in todo
    ensures Swept(cfg, byAge, Swept(cfg, byAge, entries, {id}, now), todo - {id}, now) == Swept(cfg, byAge, entries, todo, now)
  {}

  lemma SweepEnds<T>(cfg: Config<T>, s: State<T>, byAge: bool)
    requires s.keeper == Sweeping(byAge, {})
    ensures Do(cfg, s, Sweep(0)) == s.(keeper := if byAge then AfterAges(cfg, s) else Resting)
  {}

  /** The second loop, if there is one, and the end of the pass. */
  lemma SweepLast<T>(cfg: Config<T>, s: State<T>) returns (actions: seq<Action>)
    requires s.keeper == AfterAges(cfg, s)
    ensures OnlySweeps(actions)
    ensures Run(cfg, s, actions) ==
            s.(keeper := Resting,
               entries := if cfg.linger > 0.0 then Swept(cfg, false, s.entries, s.entries.Keys, s.now) else s.entries)
  {
    if cfg.linger > 0.0 {
      var loop, t := SweepLoop(cfg, s, false, s.entries.Keys);
      actions := loop + [Sweep(0)];
      Then(cfg, s, loop, Sweep(0));
      SweepEnds(cfg, t, false);
      hide Run, Do, Swept;
    } else {
      actions := [];
    }
  }

  /** The first loop. */
  lemma SweepFirst<T>(cfg: Config<T>, s: State<T>) returns (actions: seq<Action>, t: State<T>)
    requires s.keeper == Resting
    ensures OnlySweeps(actions) && t == Run(cfg, s, actions)
    ensures var kept := if cfg.lifetime > 0.0 then Swept(cfg, true, s.entries, s.entries.Keys, s.now) else s.entries;
            t == s.(entries := kept, keeper := AfterAges(cfg, s.(entries := kept)))
  {
    assert Run(cfg, s, []) == s;
    Then(cfg, s, [], Wake);
    actions := [] + [Wake];
    t := Run(cfg, s, actions);
    if cfg.lifetime > 0.0 {
      var more, u := SweepLoop(cfg, t, true, s.entries.Keys);
      RunParts(cfg, s, actions, more);
      actions := actions + more;
      SweepEnds(cfg, u, true);
      hide Run, Do, Swept;
      Then(cfg, s, actions, Sweep(0));
      actions := actions + [Sweep(0)];
      t := Run(cfg, s, actions);
    }
  }

  /** The housekeeper's statements, run without interruption, leave exactly what a pass in one piece leaves. */
  lemma SweepAlone<T>(cfg: Config<T>, s: State<T>) returns (actions: seq<Action>)
    requires s.keeper == Resting
    ensures OnlySweeps(actions)
    ensures Run(cfg, s, actions) == s.(entries := AfterPass(cfg, s.entries, s.now))
  {
    var first, t := SweepFirst(cfg, s);
    var rest := SweepLast(cfg, t);
    RunParts(cfg, s, first, rest);
    hide Run;
    actions := first + rest;
    assert Run(cfg, s, actions).entries == AfterPass(cfg, s.entries, s.now);
  }

  /** So do the statements of a call for the next item: it takes over a stream without owner, and gives the item or
      deletes the entry. */
  lemma NextAlone<T>(cfg: Config<T>, s: State<T>, c: nat, id: nat) returns (actions: seq<Action>)
    requires c in s.phases && s.phases[c] == Idle && id in s.entries && id in s.drawn
    ensures var t, e, item := Run(cfg, s, actions), s.entries[id], cfg.items(id)(s.drawn[id]);
            && t.phases == s.phases && t.drawn == s.drawn[id := s.drawn[id] + 1]
            && t.answers == s.answers + (match item case Some(v) => [Answer(id, c, v)] case None => [])
            && t.entries == if item == None then s.entries - {id}
                            else if e.client == None then s.entries[id := Info(Some(c), e.timestamp, 0.0)]
                            else s.entries
  {
    var t;
    actions, t := LooksUp(cfg, s, c, id);
    hide Run;
    var go := Go(c, 0, false);
    Then(cfg, s, actions, go);
    actions := actions + [go];
    var u := Run(cfg, s, actions);
    AfterDrawing(cfg, t, c, id);
    hide Do;
    if cfg.items(id)(s.drawn[id]) == None {
      DeletesEntry(cfg, u, c, id);
      Then(cfg, s, actions, go);
      actions := actions + [go];
      u := Run(cfg, s, actions);
    }
    assert s.phases[c := Idle] == s.phases;
    assert s.answers + [] == s.answers;
  }

  lemma AfterDrawing<T>(cfg: Config<T>, s: State<T>, c: nat, id: nat)
    requires c in s.phases && s.phases[c] == Drawing(id) && id in s.drawn
    ensures var t, item := Do(cfg, s, Go(c, 0, false)), cfg.items(id)(s.drawn[id]);
            t == s.(drawn := s.drawn[id := s.drawn[id] + 1], phases := s.phases[c := if item == None then Dropping(id) else Idle],
                    answers := if item == None then s.answers else s.answers + [Answer(id, c, item.value)])
  {}

  lemma DeletesEntry<T>(cfg: Config<T>, s: State<T>, c: nat, id: nat)
    requires c in s.phases && s.phases[c] == Dropping(id)
    ensures Do(cfg, s, Go(c, 0, false)) == s.(phases := s.phases[c := Idle], entries := s.entries - {id})
  {}

  /** The statements before the iterator is called. */
  lemma LooksUp<T>(cfg: Config<T>, s: State<T>, c: nat, id: nat) returns (actions: seq<Action>, t: State<T>)
    requires c in s.phases && s.phases[c] == Idle && id in s.entries
    ensures t == Run(cfg, s, actions)
    ensures t == s.(phases := s.phases[c := Drawing(id)],
                    entries := if s.entries[id].client == None then s.entries[id := Info(Some(c), s.entries[id].timestamp, 0.0)]
                               else s.entries)
  {
    assert Run(cfg, s, []) == s;
    hide Run;
    Then(cfg, s, [], AskNext(c, id));
    actions := [] + [AskNext(c, id)];
    var go := Go(c, 0, false);
    Then(cfg, s, actions, go);
    actions := actions + [go];
    t := Run(cfg, s, actions);
    if s.entries[id].client == None {
      assert t == s.(phases := s.phases[c := Attaching(id, s.entries[id].timestamp)]);
      Then(cfg, s, actions, go);
      actions := actions + [go];
      t := Run(cfg, s, actions);
    }
    assert t.phases == s.phases[c := Drawing(id)];
  }

  // -------------------------------------------------- the end of the housekeeper

  /** Once it has ended no stream expires any more. */
  lemma DeadForGood<T>(cfg: Config<T>, s: State<T>, a: Action)
    requires s.keeper == Dead
    ensures Do(cfg, s, a).keeper == Dead
  {}

  /** Connection 0 is about to close its only stream, which the housekeeper is about to delete. */
  lemma DueByAge<T>(cfg: Config<T>, now: real) returns (actions: seq<Action>)
    requires cfg.lifetime > 0.0 && now > 0.0
    ensures AboutToClash(Run(cfg, Initial(now), actions), 0)
  {
    var start: State<T> := Initial(now);
    actions := OneStream(cfg, now);
    var later := Tick(now + cfg.lifetime + 1.0);
    Then(cfg, start, actions, later);
    actions := actions + [later];
    assert Run(cfg, start, actions).entries.Keys == {1};
    hide Run;
    Then(cfg, start, actions, Wake);
    actions := actions + [Wake];
    Then(cfg, start, actions, AskClose(0, 1));
    actions := actions + [AskClose(0, 1)];
    Then(cfg, start, actions, Sweep(1));
    actions := actions + [Sweep(1)];
  }

  /** Connection c is about to delete stream 1, and so is the housekeeper. */
  ghost predicate AboutToClash<T>(s: State<T>, c: nat) {
    s.keeper.Removing? && s.keeper.id == 1 && c in s.phases && s.phases[c] == Dropping(1)
  }

  lemma OneStream<T>(cfg: Config<T>, now: real) returns (actions: seq<Action>)
    ensures var s := Run(cfg, Initial(now), actions);
            && Looks(s, map[1 := Info(Some(0), now, 0.0)], map[0 := Idle])
            && s.keeper == Resting && s.now == now
  {
    var start: State<T> := Initial(now);
    assert Run(cfg, start, []) == start;
    hide Run;
    Then(cfg, start, [], Accept(0));
    actions := [] + [Accept(0)];
    Then(cfg, start, actions, Handshake(0, true));
    actions := actions + [Handshake(0, true)];
    Then(cfg, start, actions, NewStream(0, 1));
    actions := actions + [NewStream(0, 1)];
  }

  /** Connection 0 left its stream behind. */
  lemma LingeringStream<T>(cfg: Config<T>, now: real) returns (actions: seq<Action>)
    requires cfg.linger > 0.0 && now > 0.0
    ensures var s := Run(cfg, Initial(now), actions);
            && s.entries == map[1 := Info(None, now, now)] && 1 !in s.phases && s.keeper == Resting && s.now == now
  {
    var start: State<T> := Initial(now);
    actions := OneStream(cfg, now);
    assert Run(cfg, start, actions).entries.Keys == {1};
    hide Run;
    Then(cfg, start, actions, Leave(0));
    actions := actions + [Leave(0)];
    var go := Go(0, 1, false);
    Then(cfg, start, actions, go);
    actions := actions + [go];
    assert Run(cfg, start, actions).phases[0] == Orphaning(1, now, {});
    Then(cfg, start, actions, go);
    actions := actions + [go];
  }

  /** Connection 1 is there too, and the stream has lingered too long. */
  lemma LingeredTooLong<T>(cfg: Config<T>, now: real) returns (actions: seq<Action>)
    requires cfg.linger > 0.0 && now > 0.0
    ensures var s := Run(cfg, Initial(now), actions);
            && s.entries == map[1 := Info(None, now, now)] && 1 in s.phases && s.phases[1] == Idle
            && s.keeper == Resting && s.now == now + cfg.linger + 1.0
  {
    var start: State<T> := Initial(now);
    actions := LingeringStream(cfg, now);
    hide Run;
    Then(cfg, start, actions, Accept(1));
    actions := actions + [Accept(1)];
    Then(cfg, start, actions, Handshake(1, true));
    actions := actions + [Handshake(1, true)];
    var later := Tick(now + cfg.linger + 1.0);
    Then(cfg, start, actions, later);
    actions := actions + [later];
  }

  lemma DueByLinger<T>(cfg: Config<T>, now: real) returns (actions: seq<Action>)
    requires cfg.lifetime <= 0.0 < cfg.linger && now > 0.0
    ensures AboutToClash(Run(cfg, Initial(now), actions), 1)
  {
    var start: State<T> := Initial(now);
    actions := LingeredTooLong(cfg, now);
    assert Run(cfg, start, actions).entries.Keys == {1};
    hide Run;
    Then(cfg, start, actions, Wake);
    actions := actions + [Wake];
    Then(cfg, start, actions, AskClose(1, 1));
    actions := actions + [AskClose(1, 1)];
    Then(cfg, start, actions, Sweep(1));
    actions := actions + [Sweep(1)];
  }

  lemma Clash<T>(cfg: Config<T>, now: real, actions: seq<Action>, c: nat) returns (longer: seq<Action>)
    requires AboutToClash(Run(cfg, Initial(now), actions), c)
    ensures Run(cfg, Initial(now), longer).keeper == Dead
  {
    var go := Go(c, 1, false);
    Then(cfg, Initial(now), actions, go);
    Then(cfg, Initial(now), actions + [go], Sweep(1));
    longer := actions + [go] + [Sweep(1)];
    hide Run;
  }

  lemma {:induction false} StaysResting<T>(cfg: Config<T>, now: real, actions: seq<Action>)
    requires cfg.lifetime <= 0.0 && cfg.linger <= 0.0
    ensures Run(cfg, Initial(now), actions).keeper == Resting
  {
    if actions != [] {
      StaysResting(cfg, now, actions[..|actions| - 1]);
      RestingStep(cfg, Run(cfg, Initial(now), actions[..|actions| - 1]), actions[|actions| - 1]);
    }
  }

  lemma RestingStep<T>(cfg: Config<T>, s: State<T>, a: Action)
    requires cfg.lifetime <= 0.0 && cfg.linger <= 0.0 && s.keeper == Resting
    ensures Do(cfg, s, a).keeper == Resting
  {
  }

  /** Main result: the same race ends the housekeeper in some run, if and only if it ever deletes anything. */
  lemma HousekeeperCanEnd<T>(cfg: Config<T>, now: real)
    requires now > 0.0
    ensures (exists actions :: Run(cfg, Initial(now), actions).keeper == Dead) <==> cfg.lifetime > 0.0 || cfg.linger > 0.0
  {
    if cfg.lifetime > 0.0 {
      var actions := DueByAge(cfg, now);
      var longer := Clash(cfg, now, actions, 0);
    } else if cfg.linger > 0.0 {
      var actions := DueByLinger(cfg, now);
      var longer := Clash(cfg, now, actions, 1);
    } else {
      forall actions ensures Run(cfg, Initial(now), actions).keeper == Resting {
        StaysResting(cfg, now, actions);
      }
    }
  }
}
