# Pyro4: a verified model of its hard parts

Pyro4 lets Python objects call each other over a network. This project models the parts of it that are protocols,
concurrent machines, data formats or algorithms, each in a module of its own, and proves what they are for.

Where the source changes state step by step, the model has a class (or a method with a loop) whose contract ties the
new state to a function of the old one. Where threads interleave, a state machine over the same states lets them do so
statement by statement, or critical section by critical section, and the lemmas are about every run of it. Where a
promise of the source turns out not to hold on every input, a lemma gives a run or an input that breaks it and
another says exactly when it holds.

| file | what it models |
|---|---|
| `RequestReply.dfy` | a proxy, a daemon and the connections between them: sequence numbers, timeouts, oneway calls, reconnects |
| `Streams.dfy`, `StreamThreads.dfy` | the daemon's table of item streams under both transport servers; the second file interleaves the threads |
| `ThreadPool.dfy`, `PoolClose.dfy`, `PoolSizes.dfy` | workers and dispatcher, statement by statement and with the pool's operations atomic; what closing does to jobs; the pool's size |
| `MessageBus.dfy` | publish/subscribe over the in-memory storage, with clients acting during a delivery pass |
| `Transport.dfy`, `Wire.dfy` | partial sends and receives; message framing, annotation chunks and the keyed digest |
| `NameStore.dfy` | the two SQL tables of the name server against a dictionary, and the name server over either |
| `Uri.dfy` | the URI parser and printer |
| `Futures.dfy`, `Cancellation.dfy` | asynchronous results and their call chains; the second file interleaves a future's thread with its cancellation |
| `Batch.dfy` | batched calls against single calls |
| `Factorize.dfy`, `DiffieHellman.dfy` | trial division; key agreement |
| `Common.dfy` | types shared by the others |

Results where the code does not do what its description suggests:

- A connection that is kept open accepts a stale reply once 65536 calls have been numbered since its request
  (`StaleReplyAfterWrapAround`). Within that window every accepted reply is right if and only if no exception
  overrides the echoed number (`WindowIsEnough`).
- Without lingering, an owner's entry that another thread deletes at the wrong moment makes `_clientDisconnect` fail,
  and the client's other streams keep an owner that is gone (`AbandonedStream`); the owner claim holds for every run
  if and only if streams linger (`OwnersStayConnected`). The same race ends the housekeeper in some run, if and only
  if a lifetime or a linger time is set (`HousekeeperCanEnd`).
- The pool's size has no bound when the statements of its threads interleave freely (`NoBoundOtherwise`); it is
  bounded in the runs in which certain statements do not overlap (`SizesWhenCalm`).
- `Pool.close` loses exactly the jobs that were accepted and not yet called (`CloseLosesExactlyPending`).
- A subscriber that subscribes while a pass is under way may miss messages that are still pending
  (`PendingMessageMissed`); `SubscriptionStart` says exactly when a subscription starts at the first pending message.
- The GROUP BY/COUNT search agrees with the name server's filter if and only if the query repeats no word and is not
  empty (`AllSearchAgreesExactly`); `SameAnswers` says what that means for a name server in use.
- `URI` prints and parses back if and only if the location and the tags are printable (`PrintThenParse`); tags with an
  at sign usually are not (`AtSignInTag`).
- `Future.cancel` can answer True although the callable then runs (`LateCancellation`): if and only if it sets its
  flag after the thread has looked at it for the last time (`AcceptedCancellation`).
- A batch that reaches a name that is not exposed, or a result that cannot be written, after its first call loses the
  results it already has (`SameResults`); after such a result it also goes on where single calls stop (`SameCalls`).

## Model

| member | source | states |
|---|---|---|
| RequestReply.Proxy.Release | src/Pyro4/core.py:392-400 | an ordinary connection is closed and forgotten; a kept-open one is left as it is |
| RequestReply.Proxy.SendInvoke | src/Pyro4/core.py:423-451 | each invocation takes the next number modulo 65536 before it is built; a failed send releases the connection; only a sent call that is not oneway waits |
| RequestReply.Proxy.ReceiveReply | src/Pyro4/core.py:453-493 | one message is consumed, and accepted only in sync and if usable; every communication error, an interrupt and a wrong sequence number release the connection |
| RequestReply.Daemon.HandleRequest | src/Pyro4/core.py:1336-1469 | no reply to a oneway call; to any other exactly one reply, to that call, or an exception that makes the server close the connection; what the method returned is replied, and an exception, of the call or of writing its result, unless it is about the connection; and exactly which exceptions leave the method |
| RequestReply.SoundStep | src/Pyro4/core.py:423-493 | every step of proxy, daemon and server keeps queues in call order and every queued request or reply tied to one numbered call |
| RequestReply.CleanServedLink | src/Pyro4/core.py:1336-1469 | on an ordinary connection the daemon leaves nothing but the answer to the newest call |
| RequestReply.CleanStep | src/Pyro4/core.py:392-493 | on ordinary connections no reply is outstanding while the call lock is free, after every step |
| RequestReply.DroppedStep | src/Pyro4/core.py:1336-1469 | a call that expects a reply is answered, still queued, or its connection was closed |
| RequestReply.RepliesMatchCalls | src/Pyro4/core.py:392-493 | in every run on ordinary connections, what an invocation takes from a reply is the daemon's answer to that very invocation |
| RequestReply.SequenceCheckWindow | src/Pyro4/core.py:489-493 | a reply that passes the sequence check belongs to the current call if and only if its call is less than 65536 calls old |
| RequestReply.KeptOpenRepliesMatchCalls | src/Pyro4/core.py:394-397 | on a kept-open connection every accepted reply belongs to its call, in every run that stays within that window |
| RequestReply.ResultsAreReturned | src/Pyro4/core.py:423-487 | what a caller is given is what its own call came to at the daemon: the value or stream that the method returned in that call, or the exception that the call or writing its result raised |
| RequestReply.StaleReplyAfterWrapAround | src/Pyro4/core.py:442 | outside the window a reachable state has accepted a stale reply |
| RequestReply.StaleReplyWithOverriddenSequence | src/Pyro4/core.py:1455-1458 | an exception with a pyroMsg makes the next call accept the reply of the one that timed out, in a run that never leaves the window |
| RequestReply.WindowIsEnough | src/Pyro4/core.py:489-493 | on a kept-open connection every accepted reply is right in every run that stays in the window, if and only if no exception carries a pyroMsg |
| RequestReply.WindowIsNeeded | src/Pyro4/core.py:394-397 | and outside the window the claim fails in either case |
| Streams.Daemon.StreamResponse | src/Pyro4/core.py:1766-1779 | an iterator result becomes a stream owned by its caller, which does not linger; a lazy dict iterator is an error; nothing is stored when streaming is off |
| Streams.Daemon.GetNextStreamItem | src/Pyro4/core.py:1085-1097 | the next item of the iterator; an unowned stream is taken over by the caller; a stream that ends or fails is removed; an unknown one is an error |
| Streams.Daemon.CloseStream | src/Pyro4/core.py:1099-1101 | exactly that stream is gone |
| Streams.Daemon.ClientDisconnect | src/Pyro4/core.py:1471-1485 | the client's streams, and no others, linger from now on, or are gone when lingering is off; afterwards it owns none |
| Streams.Daemon.Housekeeping | src/Pyro4/core.py:1487-1511 | a pass at a fixed time keeps exactly the streams that are within their lifetime and whose owner, if gone, left within the linger time, and changes none; nothing when shutting down |
| Streams.LingersFromDeparture | src/Pyro4/core.py:1471-1511 | a stream whose owner leaves at time t survives any passes if and only if streams linger, none came later than the linger time after t, and none found it too old |
| Streams.SurvivesPasses | src/Pyro4/core.py:1487-1511 | the same for any unused stream, owned or not |
| Streams.Daemon.DropOld | src/Pyro4/core.py:1495-1502 | the loop that removes exactly the streams past their lifetime |
| Streams.Daemon.DropAbandoned | src/Pyro4/core.py:1503-1510 | the loop that removes exactly the streams whose owner has been gone for longer than the linger time |
| Streams.Daemon.HandleRequest | src/Pyro4/core.py:1423-1434 | what each kind of request does to the table: at most one stream changes, and only the request's own connection can become an owner |
| Streams.ConnectionJob.Run | src/Pyro4/socketserver/threadpoolserver.py:39-82 | requests are served up to the first that ends the connection; then it is closed and owns no stream, and nobody else became an owner |
| Streams.Multiplexer.OneEvent | src/Pyro4/socketserver/multiplexserver.py:90-146 | a connection is registered once its handshake is accepted and unregistered when a request ends it |
| Streams.Multiplexer.Events | src/Pyro4/socketserver/multiplexserver.py:90-109 | every owner of a stream is a registered connection, after every batch of events, and no expired stream is left |
| Streams.RegisteredMeans | src/Pyro4/socketserver/multiplexserver.py:90-109 | a connection is registered if and only if it was accepted, or was registered before, and no later request ended it |
| StreamThreads.SaneAdvance | src/Pyro4/core.py:1085-1097 | each statement of a connection's thread keeps what other threads rely on, although it acts on what it read earlier |
| StreamThreads.OwnedAdvance | src/Pyro4/core.py:1471-1485 | with lingering, a leaving connection owns no more than what its loop still has to visit |
| StreamThreads.UnownedMeansLingering | src/Pyro4/core.py:1085-1101 | in every interleaving a stream has no owner exactly when its linger time is set, and its age counts from its creation |
| StreamThreads.OwnersStayConnected | src/Pyro4/core.py:1471-1485 | every owner passed its handshake and was not disconnected, in every interleaving, if and only if lingering is on |
| StreamThreads.AbandonedStream | src/Pyro4/core.py:1479-1484 | the run in which, without lingering, a stream keeps an owner that is gone |
| StreamThreads.HousekeeperCanEnd | src/Pyro4/core.py:1493-1502 | in some run a stream that is closed while the housekeeper is about to delete it ends the housekeeper's thread, if and only if a lifetime or a linger time is set |
| StreamThreads.DeadForGood | src/Pyro4/socketserver/threadpoolserver.py:100-104 | once it has ended nothing starts it again |
| StreamThreads.ItemsInOrder | src/Pyro4/core.py:1092-1097 | the items given out of a stream are exactly those its iterator gave in its calls so far, in order and each once, whoever asks and however the threads interleave; its first items, if it does not go on after its end |
| StreamThreads.LeaveAlone | src/Pyro4/core.py:1471-1485 | run without interruption, the statements of a leaving connection do what the disconnect does in one piece |
| StreamThreads.SweepAlone | src/Pyro4/core.py:1487-1511 | run without interruption, the statements of the housekeeper do what a pass does in one piece |
| StreamThreads.NextAlone | src/Pyro4/core.py:1085-1097 | and so do those of a call for the next item |
| ThreadPool.Worker.Process | src/Pyro4/socketserver/threadpool.py:33-35 | the job is in the slot and the event is set |
| ThreadPool.Pool.constructor | src/Pyro4/socketserver/threadpool.py:57-70 | the minimum number of idle workers, none busy |
| ThreadPool.Pool.Process | src/Pyro4/socketserver/threadpool.py:108-120 | refused when closed, or when exactly the maximum number are busy; otherwise one idle or new worker has the job and is busy, and no other worker changes |
| ThreadPool.Pool.NotifyDone | src/Pyro4/socketserver/threadpool.py:122-132 | the worker becomes idle, or is told to stop when the pool is closed or has enough idle workers; the size bounds are kept unless a worker that is not the pool's joins a full one |
| ThreadPool.Pool.Close | src/Pyro4/socketserver/threadpool.py:78-85 | every worker of the pool is told to stop |
| ThreadPool.OrderlyStep | src/Pyro4/socketserver/threadpool.py:37-49 | what each worker's place in its loop says about its slot, its event and the two sets, kept by every statement of every thread |
| ThreadPool.NoJobLostOrRunTwice | src/Pyro4/socketserver/threadpool.py:33-49 | until close, in every interleaving, each accepted job is finished once or with exactly one worker, a busy one, and was called exactly once if it is running |
| ThreadPool.JobsOnlyMoveForward | src/Pyro4/socketserver/threadpool.py:37-49 | no statement loses, overwrites or restarts a job |
| ThreadPool.PoolStaysInBounds | src/Pyro4/socketserver/threadpool.py:108-132 | with atomic operations idle and busy are disjoint and within the minimum and maximum, and a job is refused exactly when the maximum are busy |
| ThreadPool.WorkersExitAfterClose | src/Pyro4/socketserver/threadpool.py:78-85 | after close no worker is ever stuck, and each has exited after at most five of its own steps once its job has returned |
| PoolClose.CoarseRunIsFine | src/Pyro4/socketserver/threadpool.py:108-132 | every run with atomic operations is a run of the statements |
| PoolClose.CloseDropsPending | src/Pyro4/socketserver/threadpool.py:78-85 | close keeps every accepted job accounted for if and only if none is pending, in a slot and not yet called; jobs that run are kept |
| PoolClose.CloseLosesExactlyPending | src/Pyro4/socketserver/threadpool.py:37-49 | in every run on from close, exactly the jobs that were pending are never called; every other accepted job was called, and is finished or still running |
| PoolSizes.MembersStep | src/Pyro4/socketserver/threadpool.py:105-132 | statement by statement, only starting a worker adds to the pool, counting the workers on their way back, and only telling one to stop takes away |
| PoolSizes.SizesWhenCalm | src/Pyro4/socketserver/threadpool.py:105-132 | the sizes stay within minimum and maximum in every run in which no worker is in notify_done when the dispatcher starts to count and no two decide at once |
| PoolSizes.NoBoundOtherwise | src/Pyro4/socketserver/threadpool.py:122-132 | without that no bound holds: for every number, some run has more idle workers |
| MessageBus.MemoryStorage.CreateTopic | examples/messagebus/messagebus/messagebus.py:122-126 | a new topic is empty; an existing one is left alone |
| MessageBus.MemoryStorage.RemoveTopic | examples/messagebus/messagebus/messagebus.py:128-142 | the topic, its messages and its subscribers are gone |
| MessageBus.MemoryStorage.AddMessage | examples/messagebus/messagebus/messagebus.py:144-146 | the message is last on its topic and counted; an unknown topic is an error |
| MessageBus.MemoryStorage.AddSubscriber | examples/messagebus/messagebus/messagebus.py:148-153 | the subscriber is on the topic, once; an unknown topic is an error |
| MessageBus.MemoryStorage.RemoveSubscriber | examples/messagebus/messagebus/messagebus.py:155-166 | the subscriber is off the topic; an unknown topic is an error |
| MessageBus.MemoryStorage.RemoveMessages | examples/messagebus/messagebus/messagebus.py:183-191 | the snapshot's messages are removed from whatever the topics hold by now, and nothing else is |
| MessageBus.MessageBus.Send | examples/messagebus/messagebus/messagebus.py:435-441 | the message is appended to its topic, or the topic is unknown |
| MessageBus.MessageBus.Subscribe | examples/messagebus/messagebus/messagebus.py:446-454 | the topic exists afterwards with its old messages and subscribers and the new one |
| MessageBus.MessageBus.RemoveTopic | examples/messagebus/messagebus/messagebus.py:421-429 | a topic with pending messages or subscribers is refused |
| MessageBus.MessageBus.UnsubscribeMany | examples/messagebus/messagebus/messagebus.py:462-469 | the given subscribers are off every topic and no other is |
| MessageBus.MessageBus.Deliver | examples/messagebus/messagebus/messagebus.py:483-502 | everybody on the snapshot who does not fail anywhere gets all messages of each topic; exactly those who did not take all that was handed to them are reported, and what they took is a prefix of it |
| MessageBus.MessageBus.SenderPass | examples/messagebus/messagebus/messagebus.py:471-508 | an undisturbed pass empties every topic, serves everybody who does not fail and unsubscribes everybody who does |
| MessageBus.RemoveSnapshot | examples/messagebus/messagebus/messagebus.py:183-191 | removing a snapshot from a list that grew meanwhile leaves what came after it |
| MessageBus.RemoveForeign | examples/messagebus/messagebus/messagebus.py:183-191 | removing a snapshot of messages that are no longer there changes nothing |
| MessageBus.SubscribersMissNothing | examples/messagebus/messagebus/messagebus.py:471-508 | in every run, a subscriber that stays and never fails has received exactly the stretch of the topic's history from its start to its next message, each message once and in the order of sending; before that only, if the sender still owed it a delivery from before the topic was removed, a stretch of that delivery |
| MessageBus.PassRemovesItsSnapshot | examples/messagebus/messagebus/messagebus.py:503-506 | messages sent during a pass are exactly those still pending after it |
| MessageBus.SubscriptionStart | examples/messagebus/messagebus/messagebus.py:446-454 | exactly when a subscription starts at the first pending message, and when an older delivery comes before it |
| MessageBus.PendingMessageMissed | examples/messagebus/messagebus/messagebus.py:478-506 | the run in which a message pending at the time of subscribing is never received |
| Transport.ReceiveData | src/Pyro4/socketutil.py:130-193 | exactly the requested bytes, never one more, or an error that says what had arrived; chunking and retryable errors never fail it, and a timeout or a closed connection is reported exactly as the event that ended it |
| Transport.SendData | src/Pyro4/socketutil.py:196-226 | all of the data, or an error after a prefix of it; partial sends and retryable errors never lose or repeat a byte; the error is that of the event that ended it |
| Wire.ReadAnnotations | src/Pyro4/message.py:183-195 | the chunk loop computes the map that the parser function defines |
| Wire.ConnectionRecv | src/Pyro4/socketutil.py:462-463 | a read from a connection is a read from the stream unless the socket fails |
| Wire.RecvBody | src/Pyro4/message.py:183-210 | the part of recv after the header is the parser, whatever the chunking; with a key a message is only returned with the right digest of its contents, without one only without a digest |
| Wire.Recv | src/Pyro4/message.py:161-210 | a message is returned only if it is the first of the stream, of an accepted type and size, and with the right digest; exactly its bytes are consumed, and chunking and retryable errors do not show; the connection is closed exactly when the message is too large |
| Wire.HeaderRoundTrip | src/Pyro4/message.py:113-158 | every header that packs is parsed back, checksum included |
| Wire.HeaderLayout | src/Pyro4/message.py:113-119 | where each field stands in a header, byte by byte, and what the checksum is |
| Wire.ChunkLayout | src/Pyro4/message.py:121-132 | where key, length and value stand in a chunk |
| Wire.DamageIsNoticed | src/Pyro4/message.py:146-154 | damage confined to one 16-bit field of a header is always noticed |
| Wire.AcceptedHeaderPacks | src/Pyro4/message.py:146-158 | every header that is accepted with a size that is not negative packs to the same bytes but for the reserved field |
| Wire.ChunksRoundTrip | src/Pyro4/message.py:121-132 | annotation chunks with distinct keys are parsed back in order |
| Wire.WellFormedPacks | src/Pyro4/message.py:109-132 | a message can be packed if and only if its fields are 16-bit, its data and annotations within their limits, and its keys four ASCII characters |
| Wire.MessageRoundTrip | src/Pyro4/message.py:109-210 | a packed message at the head of any stream is parsed back, with the rest of the stream left, if its digest passes; otherwise the digest's error results |
| Wire.NotAdmittedIsRejected | src/Pyro4/message.py:170-182 | a message that is too large or of another type is refused as such, whatever else is in it |
| Wire.DigestKnowsNoOrder | src/Pyro4/message.py:212-218 | the digest depends on which chunks there are and on the data, not on the order of the chunks |
| Wire.DigestCoversContents | src/Pyro4/message.py:212-218 | for annotations with the same keys and lengths and data of one length, the digest input is the same if and only if the data and every chunk but the digest's own are |
| Wire.BuildRespectsLimit | src/Pyro4/message.py:89-103 | a message is refused by its sender exactly when it exceeds the limit; only the digest's chunk is added |
| Wire.BuiltPassesItsKey | src/Pyro4/message.py:96-100 | a message built with a key passes the check with that key, and carries a digest exactly when there is a key |
| Wire.SameKeyReceives | src/Pyro4/message.py:198-210 | a message sent and received with the same key arrives unchanged |
| Wire.WrongDigestIsRejected | src/Pyro4/message.py:198-202 | a message whose digest is not that of its contents under the receiver's key is refused |
| Wire.OtherKeyIsRejected | src/Pyro4/message.py:198-202 | so is one built with a key that gives another digest |
| Wire.OneSidedKeyIsRejected | src/Pyro4/message.py:198-210 | when only one side has a key every message is rejected |
| Wire.SendMessages | src/Pyro4/message.py:109-111 | what is written is the frames one after another, under partial sends and retryable errors |
| Wire.ReceiveMessages | src/Pyro4/message.py:161-210 | a sequence of messages is received as it was sent, in order, under any chunking and retryable errors, and nothing beyond it is consumed |
| Wire.StreamRoundTrip | src/Pyro4/message.py:109-210 | parsing the frames of any sequence of well-formed messages gives the sequence back |
| NameStore.SqlStorage.GetItem | src/Pyro4/naming_storage.py:84-95 | the dictionary's entry, metadata included |
| NameStore.SqlStorage.SetItem | src/Pyro4/naming_storage.py:97-116 | the dictionary with that one entry replaced, with whatever unused row id; no metadata is inherited and no row refers to an absent name |
| NameStore.SqlStorage.DelItem | src/Pyro4/naming_storage.py:132-143 | the dictionary without the name; an absent name changes nothing |
| NameStore.SqlStorage.RemoveItems | src/Pyro4/naming_storage.py:210-222 | the dictionary without the names |
| NameStore.SqlStorage.Everything | src/Pyro4/naming_storage.py:224-237 | the whole dictionary |
| NameStore.SqlStorage.MetadataSearch | src/Pyro4/naming_storage.py:184-208 | the entries that the dictionary's filters select; nothing for a query for all that repeats a word or is empty |
| NameStore.MemoryStorage.RemoveItems | src/Pyro4/naming.py:57-62 | the dictionary without the names |
| NameStore.NameServer.Filter | src/Pyro4/naming.py:198-225 | the fallback loops select the entries that contain, or meet, the query |
| NameStore.NameServer.List | src/Pyro4/naming.py:158-228 | one filter at a time; the same listing from either storage but for a query for all that repeats a word |
| NameStore.NameServer.Execute | src/Pyro4/naming.py:85-156 | each operation does to either storage what it promises: which names it changes and how, what it answers, when it fails without effect, and which names a listing has (`Lawful`) |
| NameStore.NameServer.Run | src/Pyro4/naming.py:85-228 | so does every sequence of operations, and what is stored under a name afterwards is the uri of its last register with the metadata set last |
| NameStore.LookupAnswers | src/Pyro4/naming.py:85-135 | a lookup at any time answers the uri of the last register of the name and the metadata of its last register or change since, and fails after a removal |
| NameStore.PerformIsLawful | src/Pyro4/naming.py:85-228 | the dictionary's operations keep the same promises |
| NameStore.SameAnswers | src/Pyro4/naming.py:85-228 | through every sequence of operations both storages hold the same, and they answer the same if and only if no query that repeats a word meets an entry that has all of its words |
| NameStore.NameServerStays | src/Pyro4/naming.py:137-156 | no sequence of operations removes the name server's own registration |
| NameStore.InsertedView | src/Pyro4/naming_storage.py:108-114 | a row inserted under any unused id adds exactly its own entry to what the tables mean |
| NameStore.DeletedView | src/Pyro4/naming_storage.py:137-141 | deleting a name's rows in both tables removes exactly its entry |
| NameStore.AnySearch | src/Pyro4/naming_storage.py:187-191 | the IN search is the intersection test, for every query |
| NameStore.GroupCountIsIntersection | src/Pyro4/naming_storage.py:196-197 | the count of a group is the number of the name's metadata that occur in the query |
| NameStore.AllSearch | src/Pyro4/naming_storage.py:192-197 | the GROUP BY/COUNT search is the subset test for queries without repetition |
| NameStore.AllSearchFinds | src/Pyro4/naming_storage.py:192-197 | and finds nothing for any other query |
| NameStore.AllSearchAgreesExactly | src/Pyro4/naming_storage.py:192-197 | and for no other query: each fails on some database |
| Uri.URI.SetLocation | src/Pyro4/core.py:78-100 | the fields that the location part sets, or the error it raises |
| Uri.URI.Read | src/Pyro4/core.py:52-76 | the fields that parsing a string sets, or the error it raises |
| Uri.URI.LocationText | src/Pyro4/core.py:107-118 | the location as printed, nothing for an empty host |
| Uri.URI.AsString | src/Pyro4/core.py:120-129 | the printed form, for the order in which the tags are iterated |
| Uri.ShortestObject | src/Pyro4/core.py:50 | the object is the shortest one for which the whole regular expression matches |
| Uri.NumberRoundTrip | src/Pyro4/core.py:97-98 | a printed port is read back |
| Uri.NumberForms | src/Pyro4/core.py:97-98 | a port may stand between spaces and have a sign |
| Uri.DigitsOnly | src/Pyro4/core.py:97-98 | and is otherwise read exactly if it consists of digits with single underscores between them |
| Uri.LocationRoundTrip | src/Pyro4/core.py:78-118 | a printed location is read back, default ports, IPv6 brackets and socket names included, if and only if its host is neither empty nor `./u` |
| Uri.SplitShape | src/Pyro4/core.py:50-76 | where the object of a parsed URI can have an at sign |
| Uri.CaseDoesNotMatter | src/Pyro4/core.py:50-65 | the protocol may be written in any case |
| Uri.DefaultPorts | src/Pyro4/core.py:66-75 | without a port that of the name server is meant, and an object's own URI is refused |
| Uri.NoLocation | src/Pyro4/core.py:66-75 | without a location only a name or tags are accepted |
| Uri.BadLocations | src/Pyro4/core.py:81-88 | sockets without a name or with a colon, and doubled brackets, are refused |
| Uri.UnknownProtocol | src/Pyro4/core.py:76-77 | any other protocol is refused |
| Uri.PrintThenParse | src/Pyro4/core.py:50-129 | for every string that parses, the printed form parses to an equal URI in every order of the tags, if and only if its parts are printable |
| Uri.AtSignInTag | src/Pyro4/core.py:74 | a family of URIs with an at sign in a tag that do not survive printing |
| Futures.FutureResult.SetValue | src/Pyro4/futures.py:156-170 | the calls are made in order up to the first that raises an error or returns a wrapped exception, each on what the ones before come to; an exception makes none; what is left of the chain, and when the handler's own error gets out |
| Futures.FutureResult.Then | src/Pyro4/futures.py:177-192 | the call is applied at once when the value is there, and appended otherwise; an error leaves the value as it was |
| Futures.Future.Start | src/Pyro4/futures.py:38-53 | a future starts once, and not after it was cancelled |
| Futures.Future.SetDelay | src/Pyro4/futures.py:78-86 | refused once the future is completed |
| Futures.Future.CancelCall | src/Pyro4/futures.py:88-97 | refused once the future is completed |
| Futures.Future.AsyncCall | src/Pyro4/futures.py:55-76 | the thread's sleeps and the test for a cancellation after them; then a fresh result gets the value that the callable and the future's chain come to, or the exception that they raise, unless its handler fails |
| Futures.Future.RunChain | src/Pyro4/futures.py:66-71 | the callable, and its chain from left to right up to the first error; which calls are made |
| Futures.Future.Deliver | src/Pyro4/futures.py:72-76 | the result is set, or its exception handled and set |
| Futures.CancelledInSleep | src/Pyro4/futures.py:56-63 | the callable is not run if and only if a cancellation came during one of the sleeps there were |
| Futures.SleepsTheDelay | src/Pyro4/futures.py:56-59 | undisturbed, the thread sleeps exactly for the delay, in as few naps of at most two seconds as that takes |
| Cancellation.AcceptedCancellation | src/Pyro4/futures.py:56-97 | in every interleaving, a cancellation answered with True tested before the future was completed, and the call follows it if and only if its second statement came after the thread's test had missed it; every earlier one prevents the call |
| Cancellation.CallIsCertain | src/Pyro4/futures.py:60-66 | past that test nothing prevents the call: it happens at the latest with the thread's third statement |
| Cancellation.LateCancellation | src/Pyro4/futures.py:94-97 | a run in which the answer is True and the callable runs |
| Futures.FoldedAtAnyMoment | src/Pyro4/futures.py:156-192 | whenever the value is set, all calls run once in the order of registration and the value is their fold, if and only if none raises an error or is given a wrapped exception |
| Futures.ExceptionSkips | src/Pyro4/futures.py:160-163 | an exception set as value skips every call registered before it and no call registered after it |
| Futures.ChainOnFutureOrResult | src/Pyro4/futures.py:64-76 | a chain on a future and the same chain on its result have the same effect, errors included, if and only if no call is given a wrapped exception |
| Futures.RunBothWays | src/Pyro4/futures.py:55-192 | the same of two futures as they run: their results and the calls made agree if and only if no call is given a wrapped exception |
| Batch.Daemon.HandleCall | src/Pyro4/core.py:1418-1424 | one call on the object; a name that is not exposed, an exception, and a result or exception that cannot be written all become an exception response |
| Batch.Daemon.HandleBatch | src/Pyro4/core.py:1391-1408 | results up to the first exception, which is the last of them; a missing name, or anything in the list that cannot be written, fails the whole batch |
| Batch.Daemon.CallMethod | src/Pyro4/core.py:1397 | the method's new object is kept and its answer returned |
| Batch.WholeCollects | src/Pyro4/core.py:1391-1408 | the methods are called in order, each on the object as the ones before left it, up to a missing name or the first exception, and the list holds what each returned |
| Batch.BatchProxy.Add | src/Pyro4/core.py:810-821 | a call on the batch is recorded and not made |
| Batch.BatchProxy.Invoke | src/Pyro4/core.py:856-865 | what the caller sees, and when the recorded calls are cleared |
| Batch.BatchProxy.Take | src/Pyro4/core.py:849-854 | results up to a wrapped exception, which is raised |
| Batch.SameCalls | src/Pyro4/core.py:1391-1441 | a batch calls the same methods and leaves the object as single calls do that stop at the first exception, if and only if no call follows one whose result cannot be written |
| Batch.SameResults | src/Pyro4/core.py:1391-1441 | the caller sees the same results and the same exception if and only if after the first call no missing name, no wrapped exception as result and nothing that cannot be written is reached, and the first call fails, if it does, with the error that the batch fails with |
| Batch.ExposedNames | src/Pyro4/core.py:1391-1441 | all of which holds whenever every name is exposed, everything can be written and no method returns a wrapped exception |
| Factorize.IsPrime | examples/distributed-computing/worker.py:23-24 | trial division up to the square root decides primality |
| Factorize.RootIsEnough | examples/distributed-computing/worker.py:24 | a number without a divisor up to its square root has none below itself |
| Factorize.Factorize | examples/distributed-computing/worker.py:20-33 | terminates with a nondecreasing list of primes whose product is the number, and with nothing below 2 |
| Factorize.LeastDivisorIsPrime | examples/distributed-computing/worker.py:30 | the first candidate that divides is prime |
| Factorize.OnlyFactorisation | examples/distributed-computing/worker.py:20-33 | there is only one such list, so the result is the prime factorisation |
| DiffieHellman.AcceptedKey | examples/diffie-hellman/diffiehellman.py:57-69 | what accepting a key gives: whatever the private key, the secret is not zero and passes the same power test |
| DiffieHellman.Party.CheckPublicKey | examples/diffie-hellman/diffiehellman.py:57-61 | an accepted key gives a secret other than zero with every private key |
| DiffieHellman.Party.MakeSharedSecretAndKey | examples/diffie-hellman/diffiehellman.py:63-69 | an invalid key is the only error and changes nothing; otherwise the secret, and the hash of bytes that read back as the secret, the fewest that leave their first bit free |
| DiffieHellman.Agree | examples/diffie-hellman/diffiehellman.py:63-69 | two parties that accept each other's keys have the same secret and the same key |
| DiffieHellman.SecretsAgree | examples/diffie-hellman/diffiehellman.py:53-69 | both sides compute the same power, for any modulus and any private keys |
| DiffieHellman.OwnKeysPass | examples/diffie-hellman/diffiehellman.py:57-61 | if the generator passes the power test every public key does, and only its range can be at fault |
| DiffieHellman.FitsExactly | examples/diffie-hellman/diffiehellman.py:69 | a number fits in so many bytes if and only if it is below that power of 256, and then reads back |
| DiffieHellman.SecretFits | examples/diffie-hellman/diffiehellman.py:69 | the chosen length always holds the secret |
| DiffieHellman.ShortestSigned | examples/diffie-hellman/diffiehellman.py:69 | it is the shortest that leaves the first bit free |

## Left out

Request/reply
- Serializers, compression, annotations and the handshake: opaque; every way in which they fail is one of the outcomes a request or reply may have.
- RequestReply.Proxy.ReceiveReply: a message is read whole or not at all, because a timeout in the middle of one on a kept-open connection leaves bytes behind that no later read can make sense of.
- RequestReply.Proxy.SendInvoke: a request is written whole or not at all, for the same reason.
- RequestReply.Daemon.HandleRequest: pings, which no invocation sends.
- Asynchronous exceptions other than KeyboardInterrupt while a reply is awaited, and retries with `_pyroMaxRetries`, which are further calls.
- `src/Pyro4/socketserver/existingconnectionserver.py`: its loop ignores whether the connection is still active, so the claim that an unanswered request closes the connection does not apply to it.

Streams
- Oneway calls in threads of their own, which can act for a connection that is gone; streams closed by the garbage collector; a clock that is zero; a linger setting that changes.
- What the client's iterator sees after a lost reply: the source promises nothing.

Thread pool
- PoolClose.CloseLosesExactlyPending: `close` up to setting `closed` is one step, as are `process` and `notify_done`; before `close` everything interleaves.
- `num_workers` in log messages.
- Exceptions from a job that are not instances of `Exception`, and the joins at the end of `close`.

Message bus
- `SqliteStorage` of the bus: its query of pending messages has no order.
- Proxies cached by uri, releasing them, printing of statistics, and subscribers that are not proxies.
- MessageBus.MessageBus.RemoveTopic: tests and removes in one step; the state machine also removes topics in use, as the source may, which tests without the lock.

Wire format
- Malformed chunks and negative data sizes are parsed as the source parses them, and nothing is claimed of them.
- SSL sockets, retry delays, logging; HMAC-SHA1 is a function that is not looked into.

Name server
- NameStore.NameServer.List: the LIKE prefix search over SQL, which also finds other names (case folding, `_` and `%`); a prefix listing over the in-memory storage is a filter like that of a regular expression.
- `DbmStorage`, schema migration, concurrent database connections, validity of the registered uris.
- Deleting an absent name raises an error in the dictionary and does nothing in the tables; the name server never does it alone.

URIs
- Digits and letter case outside ASCII, and `Py_UNICODE` details of Python 2.

Futures and batches
- `wait` and `get_value` only read; what a callable does besides returning a value or raising an error.
- Batch.SameResults: communication errors raised by a method, which a single call reports as a lost connection; objects made anew for each call; results that are iterators. The errors that a serializer raises for a value and for a list with that value are taken to be the same.

Algorithms
- Factorize.IsPrime: `math.sqrt` in floating point is an exact integer square root here.
- The primes of sections 2 to 7 of RFC 3526, their primality, the random generator, SHA-256 and anything about secrecy.

Not modelled at all: broadcast lookup, Flame, the HTTP gateway, the other examples, configuration, decorators and metadata.
