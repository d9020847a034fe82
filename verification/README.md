# tinyMQTT in Dafny

A model of the core of tinyMQTT, an MQTT Version 3.1.1 broker and client, with proofs of what it is meant
to do.  `dafny verify dfyconfig.toml` checks everything.

| files | part of the program |
|---|---|
| `MessageStore`, `Session`, `Delivery`, `IdReuse`, `ClientDelivery` | the in-flight window, the packet handlers, the protocol of QoS 0, 1 and 2 between two sessions, when a packet id may be used again, and the client as the sending end |
| `TieredStore`, `QueueLoss`, `LosingRuns` | the message store with a sending queue, a buffer and a database, and which acknowledgements and PUBRELs it survives |
| `TopicNames`, `TopicTree`, `Topics` | topic filters, the topic tree and its two walks |
| `ByteBuffer`, `Codec`, `WireFormat`, `Decoder` | the chunked byte buffer, the packet formats, what they look like byte by byte, the resumable decoder and the writers |
| `Executor` | the preemptive priority executor |
| `FilterParser`, `FilterGrammar` | the two-stack parser of rule filters, and the grammar it reads |
| `TimerHeap`, `TimerQueue`, `TimerRuns`, `EventTimers` | the timer heap, timeouts with callbacks, when a timer fires over a whole run, and the array that holds the heap |
| `Bits`, `HashMap`, `MessageQueue` | the chained hash map with its powers of two, and the two-list message queue |

Code that works by changing things is a class or a method with loops, and its `ensures` ties the new state
to a function of the old one.  The theorems are about these functions: invariants of every run of a state
machine, round trips, and agreement with a flat reference that knows nothing of trees, chunks, heaps or stacks.
A concurrent part is a state machine whose steps are the sections that other threads cannot interrupt;
a run is any sequence of steps.

Main results:

* **QoS 2 is exactly once and in order** for every run of two sessions over a connection that may break at any
  moment (`Delivery.ExactlyOnceInOrder`), and QoS 1 is at least once and in order (`AtLeastOnceInOrder`).  `Delivery`
  has the broker as the sending end, which resends what is in flight on every connection: while one stays up,
  everything arrives after exactly as many packets as are still due (`EventuallyDelivered`).  QoS 0 is at most once
  and in order (`AtMostOnceInOrder`), and loses nothing while the connection stays up (`NothingLostWhileUp`).
* **The client resends nothing** when it reconnects.  It keeps the order (`ClientDelivery.ClientInOrder`), but its new
  connection delivers what is published on it if and only if nothing was in flight when it was made
  (`ReconnectExact`); after a break with a packet in flight no run delivers any QoS 1 or QoS 2 message more
  (`BreakIsFinal`).
* **Packet ids** are taken without looking whether they are in use.  `IdReuse.SafeIdExact`: after a QoS 2 publish in any
  reachable state of the broker, every continuation delivers exactly once and in order if and only if the queue
  uses its id at most in PUBRELs that are at least a window ahead.  Otherwise a queued PUBLISH makes a run
  possible that loses the message (`ReuseLoses`), and a nearer PUBREL one that hands it over twice
  (`ReuseRepeats`).  `ClientDelivery.ClientSafeIdExact` is the client's condition, and `ReusedIdLosesMessage` a
  client's run in which the ids come round.
* **The three tiers are one queue** (`TieredStore.OneQueue`) **and never get stuck** (`NeverStuck`), the latter if
  and only if the trigger is at least 2 (`TriggerMatters`).  The buffer stays below the trigger, unless the store that
  will take it is already asked for (`BufferBounded`).  The answer to a fetch replaces the sending queue.
  `QueueLoss.AcksAllowed`: after an acknowledgement, every continuation keeps all unacknowledged packets if and only
  if it names a packet in flight or no fetch is outstanding.  `QueueLoss.RelsAllowed`: after a PUBREL was
  stored, every continuation keeps the PUBRELs until they are acknowledged if and only if no fetch was outstanding
  or asked for.  `LosingRuns` has an example of each, `RelIsReplaced` with a store that is stuck afterwards.
* **Publish matching is exact** (`TopicTree.MatchExact`, `MatchOnce`), **both walks of the tree agree**
  (`Topics.TraversalsAgree`), and the tree with its pruning is a pair of flat maps (class `Topics.Topics`).
* **Decoding does not depend on how bytes arrive** (`Codec.FragmentationIndependent`).  It does for packets with
  wrong reserved flags: a header byte decodes the same alone or with company if and only if its flags are not
  of the kind that is refused only when it arrives alone (`HeaderCutExact`), because the length parser overwrites
  the status (codec/mqtt_proto_codec.c:399-452).  `WireFormat` fixes the bytes of each packet by themselves, so that
  writer and parser cannot agree on a wrong format: a PUBLISH has a packet id field if and only if its QoS is above 0
  (`PublishWritten`, `PublishRead`).
* **The executor** runs every posted task once, in post order within its priority, and never while something
  more urgent is queued (`Executor.RunsInPostOrder`, `PrioritySafety`, `EverythingRuns`); it parks a batch only for
  something more urgent (`ParksForMoreUrgent`).
* **The filter parser is exact**: for every way to write an expression with parentheses and blanks, the parser
  rebuilds its tree if and only if parentheses stand where priority or left grouping needs them
  (`FilterParser.TextParsesExactly`).  It reads a left-recursive grammar that knows no priorities, and that grammar
  derives everything that can be written (`FilterGrammar.ParsesGrammarText`, `GrammarIsComplete`).
* **A timeout** handles exactly the timers that have expired, in the order of expiry, whatever the callbacks do to
  the heap meanwhile (`TimerQueue.TimeoutExact`, `TimeoutRuns`, `TimersSafe`).  Over any run, a timer that nobody
  cancels fires at the first timeout from its expiry on (`TimerRuns.FiresInTime`), and a canceled one does not fire
  until it is resumed (`CancelSilences`).
* **The hash map** refines a finite map through growth (class `HashMap.HashMap`) and keeps to its load factor while
  it can grow (`LoadIsBounded`); **the message queue** is FIFO for
  every interleaving and holds at most twice its maximum, a bound that is reached (`MessageQueue.FirstInFirstOut`,
  `AtMostTwice`, `TwiceIsReached`).

Conventions: a linked list is a sequence and a pointer into it an index; numbers are unbounded except packet
ids (16 bits, wrapping), lengths and capacities where the code looks at the width; strings and payloads are
values; the clock, the network and the database are parameters or events.

## Model

| member | source | states |
|---|---|---|
| MessageStore.FirstAnswered | store/mqtt_msg_store.c:43-62 | the packet an acknowledgement takes is the first in-flight one of that id and kind; there may be none |
| MessageStore.SendingQueue.constructor | store/mqtt_msg_store.c:317-324 | a new store is an empty window |
| MessageStore.SendingQueue.StoreMessage | store/mqtt_msg_store.c:13-37 | the packet joins the end of the queue, is sent at once exactly if the window has room, otherwise becomes or stays behind the pending one; tail and pending pointer stay right |
| MessageStore.SendingQueue.Unlink | store/mqtt_msg_store.c:63-69 | unlinking one node leaves all others in order and moves tail and pending pointer with their nodes |
| MessageStore.SendingQueue.AcknowledgeAndNext | store/mqtt_msg_store.c:39-84 | takes out the first in-flight packet answered, lets the first waiting packet into the window and returns it; a stray acknowledgement changes nothing; the in-flight packets stay the first ones of the queue |
| MessageStore.SendingQueue.ResendMessages | mqtt/mqtt_session.c:42-56 | walking up to the pending pointer sends exactly the in-flight packets in order |
| Session.Session.constructor | mqtt/mqtt_session.c:70-107 | a new session has an empty window, the given first id and remembers no QoS 2 ids |
| Session.Session.Publish | mqtt/mqtt_session.c:260-292 | QoS 0 is only sent; otherwise the packet gets the next id (wrapping at 16 bits), is stored, and is sent if it fits the window and the session is not stored to only |
| Session.Session.AcknowledgePacket | mqtt/mqtt_session.c:30-40 | acknowledging sends the packet that enters the window, if one does |
| Session.Session.HandlePubAck | mqtt/mqtt_session.c:205-209 | releases the QoS 1 publish |
| Session.Session.HandlePubRec | mqtt/mqtt_session.c:211-229 | releases the QoS 2 publish and always queues a PUBREL behind everything else |
| Session.Session.HandlePubRel | mqtt/mqtt_session.c:231-235 | the id is forgotten and answered with PUBCOMP |
| Session.Session.HandlePubComp | mqtt/mqtt_session.c:237-241 | releases the PUBREL |
| Session.Session.HandlePublish | mqtt/mqtt_session.c:176-199 | QoS 2: handed over only if its id is not remembered, then remembered; the codec's reply goes out in any case |
| Session.HandsOver | mqtt/mqtt_session.c:176-199 | every PUBLISH is handed over whatever its QoS, except a QoS 2 one whose id is remembered; QoS 1 and 2 get their own acknowledgement in any case, and only QoS 2 ids are remembered |
| Session.StrayAcks | mqtt/mqtt_session.c:205-241 | a PUBACK or PUBCOMP that answers nothing in flight changes nothing; a PUBREC that answers nothing still puts a PUBREL behind the queue, which is sent exactly if the window has room |
| Session.Session.Start | mqtt/mqtt_session.c:109-112 | a new connection first receives the in-flight packets |
| Delivery.AckHead | store/mqtt_msg_store.c:39-84 | the acknowledgement of the head takes the head, and what is written is exactly the part of the queue that has entered the window |
| Delivery.SubmittingKeeps | mqtt/mqtt_session.c:260-292 | a publish with a safe id keeps the protocol's invariant |
| Delivery.UndeliveredStep | mqtt/mqtt_session.c:176-199 | handing over what the next packet brings takes exactly that off the messages still to be handed over |
| Delivery.ReceivingKeeps | mqtt/mqtt_session.c:176-199 | a packet arriving at the receiver keeps the invariant |
| Delivery.AckingKeeps | mqtt/mqtt_session.c:205-241 | an acknowledgement arriving at the sender keeps the invariant |
| Delivery.ConnectionChangeKeeps | mqtt/mqtt_io_context.c:150-158 | losing the connection and the broker's resending on a new one keep the invariant |
| Delivery.RunKeeps | mqtt/mqtt_session.c:176-292 | so does every run |
| Delivery.ExactlyOnceInOrder | mqtt/mqtt_session.c:176-241 | QoS 2: what was handed over is a prefix of what was published, the rest is still in the sending queue, and the receiver remembers only ids that the sender uses |
| Delivery.AtLeastOnceInOrder | mqtt/mqtt_session.c:176-241 | QoS 1: messages leave the queue in publish order, each after it was handed over; they are handed over for the first time in publish order without a gap; nothing is handed over that was not published |
| Delivery.AtMostOnceInOrder | mqtt/mqtt_session.c:260-292 | QoS 0: in every run what was handed over, followed by what is under way, is a subsequence of what was published |
| Delivery.NothingLostWhileUp | mqtt/mqtt_session.c:176-199 | QoS 0: while a connection stays up, what is published on it is handed over or still under way, in order; with nothing under way all of it was handed over |
| Delivery.Quiescent | mqtt/mqtt_session.c:30-56 | at the broker, on a connection with nothing under way everything has been delivered and acknowledged |
| Delivery.DeliveryWorks | mqtt/mqtt_session.c:176-241 | every packet that arrives, in either direction, does exactly one unit of the work that is left |
| Delivery.EventuallyDelivered | mqtt/mqtt_session.c:176-241 | for the broker, which resends on connecting: while the connection stays up, deliveries in any order number exactly the work left, never run dry before, and end with everything delivered and acknowledged |
| IdReuse.OneTurn | mqtt/mqtt_session.c:176-241 | sending, answering and releasing the head of the queue, whatever ids are in it |
| IdReuse.Turns | mqtt/mqtt_session.c:176-241 | the same packet by packet: what is handed over is what the receiver hands over of that list |
| IdReuse.RunsOut | mqtt/mqtt_session.c:176-241 | when nothing has been answered yet the queue can run empty, with everything handed over that the receiver does not take for a redelivery |
| IdReuse.ReuseLoses | mqtt/mqtt_session.c:176-199 | a queued PUBLISH with the id of a new one: a run ends with an empty queue and without the new message |
| IdReuse.ReuseRepeats | mqtt/mqtt_session.c:231-235 | a PUBREL with the id less than a window ahead: a run hands over more messages than were published |
| IdReuse.SafeIdExact | mqtt/mqtt_session.c:260-292 | every legal continuation of a QoS 2 publish is exactly once and in order if and only if the id is used at most by PUBRELs a window or more ahead |
| ClientDelivery.ConnectingKeeps | mqtt/mqtt_client.c:126-142 | a client's new connection resends nothing: it goes on as before if nothing was in flight, otherwise nothing is under way |
| ClientDelivery.FrozenStep | mqtt/mqtt_client.c:137-142 | with a window of 1, a packet in flight and nothing but QoS 0 messages under way, no event hands over or releases a QoS 1 or 2 message, and publishes only lengthen the queue |
| ClientDelivery.ClientRunKeeps | mqtt/mqtt_client.c:126-142 | the invariant over every run of the client |
| ClientDelivery.ClientInOrder | mqtt/mqtt_session.c:176-241 | exactly once, at least once and at most once, in order, hold in every run of the client; what is not handed over of QoS 2 is in the queue |
| ClientDelivery.BreakIsFinal | mqtt/mqtt_client.c:138-142 | after a break with a packet in flight no run of the client delivers or releases a QoS 1 or 2 message any more |
| ClientDelivery.ReconnectExact | mqtt/mqtt_client.c:138-142 | a client's new connection can deliver everything published while it stays up if and only if nothing was in flight when it was made |
| ClientDelivery.ClientLoses | mqtt/mqtt_session.c:176-199 | the packets that arrive for a queued PUBLISH and a new one with its id empty the queue without the new message |
| ClientDelivery.ClientSafeIdExact | mqtt/mqtt_session.c:260-292 | unless nothing moves any more, a client's QoS 2 publish is exactly once and in order in every legal continuation if and only if its id is safe |
| ClientDelivery.ReusedIdLosesMessage | mqtt/mqtt_session.c:260-328 | a client connects, publishes, subscribes 65535 times and publishes again: the ids come round, and the packets that arrive lose the second message |
| TieredStore.OneQueue | store/mqtt_msg_store.c:144-315 | the PUBLISHs of sending queue, fetched batch, database, batch being written and buffer are the unacknowledged ones in publish order, the unacknowledged PUBRELs are in the sending queue in order, and of either kind what was written for the first time is a prefix of what was given to the store |
| TieredStore.ResendsWhatIsLeft | mqtt/mqtt_session.c:42-56 | a new connection gets, of either kind, exactly the packets that were sent and are not acknowledged, in order, and the store stays as it is |
| TieredStore.StoringRel | store/mqtt_msg_store.c:247-249 | a PUBREL joins the sending queue ahead of the other tiers, and keeps the flags right if no fetch is outstanding or asked for |
| TieredStore.NeverStuck | store/mqtt_msg_store.c:190-315 | at most one task is outstanding; an empty sending queue with packets elsewhere has a fetch outstanding, or a store with the wish to fetch; some packet is in flight or some task outstanding while packets are left |
| TieredStore.TriggerMatters | store/mqtt_msg_store.c:242-266 | the store keeps moving in every run if and only if the trigger is at least 2 |
| TieredStore.BufferBounded | store/mqtt_msg_store.c:190-266 | in every run the buffer is below the trigger, or a task is outstanding and the store that will take the buffer is asked for |
| TieredStore.StoreRoutes | store/mqtt_msg_store.c:242-266 | a PUBLISH goes to the sending queue exactly if less than half the trigger is there and nothing waits elsewhere; otherwise it joins the buffer, and a full buffer becomes a store task unless a task is outstanding |
| TieredStore.AfterStore | store/mqtt_msg_store.c:190-200 | in any state, when a store task is done the store that was asked for is started, or else the fetch that was asked for |
| TieredStore.AfterFetch | store/mqtt_msg_store.c:204-240 | when a fetch is done likewise, except that nothing is started if its answer left nothing to store |
| TieredStore.FetchTakesOldest | store/mqtt_msg_store.c:127-188 | a fetch takes the oldest fifty packets out of the database, or all if there are fewer |
| TieredStore.StrayAck | store/mqtt_msg_store.c:294-315 | an acknowledgement of nothing changes nothing unless a fetch is outstanding; then it asks for a second one |
| TieredStore.TakesOutTheSame | store/mqtt_msg_store.c:294-315 | the store takes out the first packet that the acknowledgement answers and that was sent and is not acknowledged |
| TieredStore.SmallTriggerSendsNothing | store/mqtt_msg_store.c:242-266 | with a trigger below 2 and genuine acknowledgements nothing is ever sent |
| QueueLoss.FirstAnswer | store/mqtt_msg_store.c:204-240 | the answer to the fetch that was outstanding leaves the wish for another one while the sending queue is in use |
| QueueLoss.ReplacingQueue | store/mqtt_msg_store.c:204-228 | an answer that finds the sending queue in use drops packets |
| QueueLoss.StrayIsDoomed | store/mqtt_msg_store.c:204-315 | after a stray acknowledgement during a fetch a run without further acknowledgements loses a packet, from every reachable state |
| QueueLoss.RelIsDoomed | store/mqtt_msg_store.c:204-266 | after a PUBREL was stored while a fetch is outstanding or asked for, a run without acknowledgements loses it, from every reachable state |
| QueueLoss.RelsAllowed | store/mqtt_msg_store.c:204-266 | every legal continuation of storing a PUBREL keeps the PUBRELs in the sending queue until they are acknowledged if and only if no fetch was outstanding or asked for |
| LosingRuns.RelIsReplaced | store/mqtt_msg_store.c:204-240 | a QoS 2 packet in flight and one in the database: the PUBREC's PUBREL is replaced by the fetched batch, which is never sent |
| QueueLoss.AcksAllowed | store/mqtt_msg_store.c:294-315 | every legal continuation of an acknowledgement keeps all unacknowledged packets in the tiers if and only if it names a packet in flight or no fetch is outstanding |
| LosingRuns.StrayAckLosesPacket | store/mqtt_msg_store.c:204-240 | a duplicate acknowledgement during a fetch ends with an unacknowledged packet gone from all tiers |
| TieredStore.StepKeeps | store/mqtt_msg_store.c:144-315 | every event that is allowed keeps the invariant of flags, tasks, counters and tiers |
| TieredStore.Progress | store/mqtt_msg_store.c:144-315 | acknowledgements and task steps reduce the work left |
| TieredStore.Drains | store/mqtt_msg_store.c:144-315 | without new packets there are boundedly many such events, and one is possible while a packet is left |
| TieredStore.MongoStore.constructor | store/mqtt_msg_store.c:326-335 | a new store is empty with all flags clear |
| TieredStore.MongoStore.StartStoring | store/mqtt_msg_store.c:144-168 | the whole buffer becomes a store task and leaves the count |
| TieredStore.MongoStore.StartFetching | store/mqtt_msg_store.c:170-188 | a fetch task is outstanding and no longer wished for |
| TieredStore.MongoStore.StoreMessageDone | store/mqtt_msg_store.c:190-200 | a finished store starts the store or the fetch that waited for it |
| TieredStore.MongoStore.UseBatch | store/mqtt_msg_store.c:210-217 | a fetched batch becomes the sending queue, whatever was in it |
| TieredStore.MongoStore.UseNothing | store/mqtt_msg_store.c:218-228 | an empty answer clears the flag of stored packets and turns to the buffer, if there is one |
| TieredStore.MongoStore.TakeBatch | store/mqtt_msg_store.c:204-228 | a fetched batch, or the buffer when the database is empty, becomes the sending queue and is sent as far as the window goes |
| TieredStore.MongoStore.FetchMessageDone | store/mqtt_msg_store.c:204-240 | the same followed by the waiting task |
| TieredStore.MongoStore.StartNext | store/mqtt_msg_store.c:229-240 | the waiting store goes first, unless the buffer is empty, then the waiting fetch |
| TieredStore.MongoStore.Store | store/mqtt_msg_store.c:242-266 | below half the trigger and with nothing buffered the packet goes to the sending queue, otherwise to the buffer, which a store task takes when the count reaches the trigger |
| TieredStore.MongoStore.Buffer | store/mqtt_msg_store.c:252-263 | the packet joins the buffer, which a store task takes, now or later, when the count reaches the trigger |
| TieredStore.MongoStore.UseBuffer | store/mqtt_msg_store.c:268-277 | the buffer becomes the sending queue |
| TieredStore.MongoStore.Continue | store/mqtt_msg_store.c:279-292 | sends the front of a replaced queue, as much as fits the window, and sets the pending pointer |
| TieredStore.MongoStore.Acknowledge | store/mqtt_msg_store.c:294-315 | the memory store's acknowledgement, then a refill if the sending queue is empty |
| TieredStore.MongoStore.RefillQueue | store/mqtt_msg_store.c:299-313 | refills from the database if anything was stored, now or as soon as the outstanding task is done, else from the buffer |
| TopicNames.EndOfLevel | mqtt/mqtt_topic.c:30-31 | finds the next separator or the end |
| TopicNames.SplitTopic | mqtt/mqtt_topic.c:24-50 | the levels between the separators, with empty levels at both ends |
| TopicNames.SplitInverse | mqtt/mqtt_topic.c:24-50 | splitting and joining with separators are inverse to each other, both ways, and no level contains a separator |
| TopicTree.PutAt | mqtt/mqtt_topic.c:86-131 | storing at a path changes what is stored at that path and nowhere else |
| TopicTree.PutShaped | mqtt/mqtt_topic.c:86-131 | and keeps every leaf useful and nothing below a `#` |
| TopicTree.MatchReads | mqtt/mqtt_topic.c:322-388 | matching without a retained message leaves the tree as it is |
| TopicTree.MatchRetains | mqtt/mqtt_topic.c:322-388 | with one, it is stored at the topic's node, created if missing, and nothing else changes |
| TopicTree.MatchExact | mqtt/mqtt_topic.c:322-388 | a filter's subscribers are visited if and only if the filter matches the topic by section 4.7.1 of MQTT Version 3.1.1 |
| TopicTree.MatchOnce | mqtt/mqtt_topic.c:322-388 | no filter is visited twice |
| TopicTree.OwnRetained | mqtt/mqtt_topic.c:134-137 | the message of the node itself |
| TopicTree.GetAllRetained | mqtt/mqtt_topic.c:134-147 | all messages retained below a node outside wildcard children, each once, in whatever order the children come |
| TopicTree.FindRetained | mqtt/mqtt_topic.c:149-179 | exactly the retained messages whose topic the filter matches, each once |
| TopicTree.WantedPrefix | mqtt/mqtt_topic.c:213-225 | walking the literal front of the filter first finds the same messages |
| TopicTree.UnsubscribeAt | mqtt/mqtt_topic.c:250-280 | unsubscribing with pruning takes back one subscription and keeps everything else |
| TopicTree.UnsubscribeShaped | mqtt/mqtt_topic.c:250-262 | after pruning every leaf carries a subscriber or a retained message |
| TopicTree.PruneIsUnsubscribe | mqtt/mqtt_topic.c:250-280 | clearing the subscription and then climbing from the end node is the same as rebuilding the path without vacant nodes |
| TopicTree.RemoveTopic | mqtt/mqtt_topic.c:250-262 | the climb erases vacant nodes up to the first that is needed |
| Topics.HitsAreMatches | mqtt/mqtt_topic.c:322-388 | a publish reaches a client with a QoS because of a filter if and only if that subscription is in the flat map and the filter matches |
| Topics.TraversalsAgree | mqtt/mqtt_topic.c:134-179 | subscribing to a filter yields the message retained for a topic if and only if publishing to the topic would visit the filter |
| Topics.Forgotten | mqtt/mqtt_topic.c:250-280 | an unsubscribe removes one pair from the flat map of subscriptions and keeps the map of retained messages |
| Topics.Topics.constructor | mqtt/mqtt_topic.c:75-84 | a new tree is two empty maps |
| Topics.Topics.Find | mqtt/mqtt_topic.c:96-131 | finds the node of a path or that there is none |
| Topics.Topics.Publish | mqtt/mqtt_topic.c:322-404 | hits are exactly the matching subscriptions, no filter twice; a retained publish replaces the topic's message |
| Topics.Topics.AddSubscription | mqtt/mqtt_topic.c:193-229 | the pair of filter and client gets the QoS; the result is exactly the retained messages that match, each once |
| Topics.Topics.RetainedFor | mqtt/mqtt_topic.c:213-225 | the literal front of the filter and the search behind it find what the filter wants |
| Topics.UnaskedNode | mqtt/mqtt_topic.c:264-280 | after subscribing to a/b, the node of a exists without subscribers |
| Topics.Topics.RemoveSubscription | mqtt/mqtt_topic.c:264-280 | removes exactly that pair of filter and client, pruning included |
| ByteBuffer.DropBytes | net/mqtt_buffer.c:136-159 | taking n bytes off the chunks takes n bytes off the byte sequence and leaves no empty chunk |
| ByteBuffer.Buffer.constructor | net/mqtt_buffer.c:15-21 | a new buffer is empty |
| ByteBuffer.Buffer.Append | net/mqtt_buffer.c:42-82 | the bytes join the end, wherever they find room: behind the written ones, after a realignment, or in a new chunk |
| ByteBuffer.Buffer.ReadInternal | net/mqtt_buffer.c:120-160 | copies the first bytes, as many as there are, and takes them out if asked to |
| ByteBuffer.Buffer.Peek | net/mqtt_buffer.c:162-165 | the first bytes; the buffer stays as it is |
| ByteBuffer.Buffer.Read | net/mqtt_buffer.c:167-172 | the first bytes, which are then gone, and the counter is right |
| ByteBuffer.Buffer.Remove | net/mqtt_buffer.c:210-234 | the first bytes are gone |
| Codec.ParseInverse | codec/mqtt_proto_codec.c:164-374 | every packet parser inverts its writer and leaves what follows in the buffer |
| Codec.ReadLengthInverse | codec/mqtt_proto_codec.c:36-50 | reading inverts writing of the length field, from any point inside it |
| Codec.FirstPacket | codec/mqtt_proto_codec.c:399-452 | a packet at the front is delivered and decoding goes on behind it |
| Codec.ResumeInside | codec/mqtt_proto_codec.c:399-452 | cut anywhere inside a packet, what the decoder remembers is enough to go on as if not cut |
| Codec.Resume | codec/mqtt_proto_codec.c:399-452 | the same for a cut anywhere in a stream of packets |
| Codec.WholeStream | codec/mqtt_proto_codec.c:399-452 | a stream that arrives in one piece decodes to its packets |
| Codec.FragmentationIndependent | codec/mqtt_proto_codec.c:399-452 | cut into any pieces, the bytes of any list of well-formed packets decode to exactly that list, with an empty buffer and the connection open |
| Codec.BadFlagsDependOnFragmentation | codec/mqtt_proto_codec.c:26-34 | a PUBACK with reserved flags set is accepted in one piece and refused when its first byte comes alone |
| Codec.HeaderCutExact | codec/mqtt_proto_codec.c:11-34 | a header byte may arrive alone without consequence if and only if its flags are not of that kind |
| WireFormat.QosBits | mqtt/mqtt_packet.h:70-72 | the QoS is bits 1 and 2 of the flags, whatever DUP and RETAIN are |
| WireFormat.PublishWritten | codec/mqtt_proto_codec.c:607-631 | the bytes of a PUBLISH: first byte, length, topic with its length, a packet id if and only if the QoS is above 0, payload |
| WireFormat.PublishRead | codec/mqtt_proto_codec.c:164-211 | either side decodes exactly these bytes to that one PUBLISH, and answers it with PUBACK at QoS 1, PUBREC at QoS 2 and nothing at QoS 0 |
| WireFormat.ShortPackets | codec/mqtt_proto_codec.c:643-810 | the bytes of the acknowledgements and the pings |
| WireFormat.ShortPacketsRead | codec/mqtt_proto_codec.c:391-452 | each of these byte strings is decoded to its packet |
| WireFormat.ListPackets | codec/mqtt_proto_codec.c:703-771 | the bytes of SUBSCRIBE, SUBACK and UNSUBSCRIBE in front of their lists |
| WireFormat.ListEntries | codec/mqtt_proto_codec.c:703-771 | the bytes of one entry: a filter with its length, in a SUBSCRIBE followed by the QoS |
| WireFormat.LengthTable | codec/mqtt_proto_codec.c:493-515 | which lengths take one, two, three and four bytes, as in section 2.2.3 of MQTT Version 3.1.1 |
| WireFormat.RefusedHeaders | codec/mqtt_proto_codec.c:11-34 | a type of 0 or 15, and a PUBREL, SUBSCRIBE or UNSUBSCRIBE whose flags are not 0010, close the connection whatever follows |
| WireFormat.RefusedLength | codec/mqtt_proto_codec.c:36-50 | four length bytes with the continuation bit followed by anything close the connection |
| WireFormat.RefusedQos | codec/mqtt_proto_codec.c:260-294 | a requested QoS above 2 is refused |
| WireFormat.WrongSide | codec/mqtt_proto_codec.c:391-397 | a packet that only the other side may receive closes the connection |
| WireFormat.RepliesAgree | codec/mqtt_proto_codec.c:193-207 | the parsers answer PUBLISH and PUBREL as the sessions of the delivery protocol do, a PINGREQ with PINGRESP, and nothing else |
| Decoder.Decoder.TakeText | codec/mqtt_proto_codec.c:164-190 | reads a text with its length from the chunks, as the parser on the byte sequence does |
| Decoder.Decoder.TakeTopics | codec/mqtt_proto_codec.c:260-294 | the loop over the topic filters of a SUBSCRIBE agrees with the parser on the byte sequence |
| Decoder.Decoder.TakeFilters | codec/mqtt_proto_codec.c:318-340 | the same for UNSUBSCRIBE |
| Decoder.Decoder.TakePublish | codec/mqtt_proto_codec.c:164-211 | the same for PUBLISH |
| Decoder.Decoder.TakePacket | codec/mqtt_proto_codec.c:391-397 | the same for the parser of the packet's type, with the side that may receive it |
| Decoder.Decoder.TakeLength | codec/mqtt_proto_codec.c:36-50 | the byte loop reads the length field, stops where bytes are missing and refuses a fifth byte |
| Decoder.Decoder.TakeHeader | codec/mqtt_proto_codec.c:11-34 | takes the header byte and closes the connection exactly on a type or flags that are refused at once |
| Decoder.Decoder.HeaderPhase | codec/mqtt_proto_codec.c:410-416 | the first state of the decoder, resumed where it stopped |
| Decoder.Decoder.LengthPhase | codec/mqtt_proto_codec.c:425-431 | the second |
| Decoder.Decoder.BodyPhase | codec/mqtt_proto_codec.c:433-444 | the third, which delivers the packet |
| Decoder.Decoder.DecodeTcpMessage | codec/mqtt_proto_codec.c:399-452 | the loop over the states delivers what the decoding function says and leaves the same rest |
| Decoder.Decoder.OnData | codec/mqtt_proto_codec.c:399-452 | bytes that arrive are fed to the decoder |
| Decoder.LengthFits | codec/mqtt_proto_codec.c:493-515 | four length bytes are enough exactly below 268435456 |
| Decoder.MakeFixedHeader | codec/mqtt_proto_codec.c:493-515 | the loop writes the type, the flags and the length field, and reports a length that does not fit |
| Decoder.PackPublish | codec/mqtt_proto_codec.c:607-631 | writes the packet's encoding, or nothing if it is too long |
| Decoder.PackSubscribe | codec/mqtt_proto_codec.c:703-727 | the same |
| Decoder.PackSubAck | codec/mqtt_proto_codec.c:729-746 | the same |
| Decoder.PackUnsubscribe | codec/mqtt_proto_codec.c:748-771 | the same |
| Decoder.PackShort | codec/mqtt_proto_codec.c:643-810 | the acknowledgements and pings are written as their encoding |
| Executor.Highest | mqtt/mqtt_executor.c:47-55 | the highest priority that has a parked or a posted task, and nothing above it |
| Executor.TotalPositive | mqtt/mqtt_executor.c:42-55 | the counter is positive if and only if the selection finds something |
| Executor.StepKeeps | mqtt/mqtt_executor.c:32-124 | every step of a poster or of the worker keeps the invariant |
| Executor.RunsInPostOrder | mqtt/mqtt_executor.c:39-90 | in every run and at each priority, posted is executed, then the worker's hand, then the parked rest, then the new ones; the counter is the number queued |
| Executor.PrioritySafety | mqtt/mqtt_executor.c:47-88 | a task passes the check only while nothing above its priority is queued, and the selection takes the highest queued priority |
| Executor.ParksForMoreUrgent | mqtt/mqtt_executor.c:77-124 | in every run, a worker that is about to park its batch has a task of higher priority queued |
| Executor.WorkerProgress | mqtt/mqtt_executor.c:39-90 | every step of the worker brings it closer to rest |
| Executor.EverythingRuns | mqtt/mqtt_executor.c:39-90 | without new tasks the worker comes to rest, and then every posted task has run exactly once, in post order |
| Executor.PriorityExecutor.constructor | mqtt/mqtt_executor.c:11-30 | a new executor is empty |
| Executor.PriorityExecutor.PostTask | mqtt/mqtt_executor.c:107-124 | the task joins its priority, and preemption is asked for exactly if its priority is above the one being executed |
| Executor.PriorityExecutor.FindWork | mqtt/mqtt_executor.c:47-55 | the downward scan finds the highest priority with work |
| Executor.PriorityExecutor.SelectBatch | mqtt/mqtt_executor.c:41-73 | takes the parked batch from its break point, or everything posted, off the count |
| Executor.PriorityExecutor.CheckPreempt | mqtt/mqtt_executor.c:75-78 | a task that passes finds nothing above its priority queued |
| Executor.PriorityExecutor.ExecuteTask | mqtt/mqtt_executor.c:86-87 | runs the next task of the batch |
| Executor.PriorityExecutor.ParkBatch | mqtt/mqtt_executor.c:77-85 | the rest of the batch is parked and counted again |
| Executor.PriorityExecutor.DrainBatch | mqtt/mqtt_executor.c:75-89 | the loop over one batch ends with the worker idle, the invariant kept and less work left |
| Executor.PriorityExecutor.DrainAll | mqtt/mqtt_executor.c:39-90 | the worker's loop, undisturbed, ends with everything executed |
| FilterParser.ReadForm | rule_engine/mqtt_rule_parser.c:55-133 | having read a well bracketed form is as good as having its tree on the operand stack, for every operator that may come next |
| FilterParser.ParsesBracketed | rule_engine/mqtt_rule_parser.c:45-140 | well bracketed tokens are parsed to their tree |
| FilterParser.Regrouped | rule_engine/mqtt_rule_parser.c:160-179 | every written form has a well bracketed one with the same tokens |
| FilterParser.ParsesAsRegrouped | rule_engine/mqtt_rule_parser.c:45-140 | the parser accepts every written form and groups it by the priorities |
| FilterParser.RegroupChanges | rule_engine/mqtt_rule_parser.c:160-179 | that grouping changes the tree of every form that is not well bracketed |
| FilterParser.ParsesExactly | rule_engine/mqtt_rule_parser.c:45-140 | tokens are read as the tree they were written for if and only if parentheses stand where they are needed |
| FilterParser.PrintRoundTrip | rule_engine/mqtt_rule_parser.c:45-140 | every expression, printed with the parentheses it needs, is parsed back |
| FilterParser.LexLayout | rule_engine/mqtt_rule_parser.c:13-32 | a token list in which no two operands and no two operators are neighbours is read back from its text, with any blanks between the tokens or none |
| FilterParser.TextParsesExactly | rule_engine/mqtt_rule_parser.c:45-140 | the exact statement for texts in any layout |
| FilterGrammar.ParsesGrammar | rule_engine/mqtt_rule_parser.c:45-179 | every derivation of a grammar in which comparisons bind tighter than connectives, the two connectives share one level and all levels group to the left is parsed to its tree |
| FilterGrammar.ParsesGrammarText | rule_engine/mqtt_rule_parser.c:13-179 | so is its text, whatever blanks stand between the tokens |
| FilterGrammar.GrammarIsComplete | rule_engine/mqtt_rule_parser.c:45-179 | every way to write operands, operators and balanced parentheses is derived by the grammar, and the parser returns the tree of that derivation |
| FilterGrammar.NothingDropped | rule_engine/mqtt_rule_parser.c:45-152 | for any token list that is accepted, the leaves of the tree are its operands, all of them and in order |
| FilterGrammar.LookupExact | rule_engine/mqtt_rule_parser.c:160-179 | the operator table has the nine spellings and no other |
| FilterGrammar.UnknownOperatorRefused | rule_engine/mqtt_rule_parser.c:55-67 | a text that starts with an operator that is not in the table is refused |
| FilterParser.SkipBlanks | rule_engine/mqtt_rule_parser.c:13-18 | the rest of the text behind its blanks |
| FilterParser.OperandEnd | rule_engine/mqtt_rule_parser.c:107-109 | the length of the operand at the front |
| FilterParser.ReduceStacks | rule_engine/mqtt_rule_parser.c:68-90 | the inner loop combines operators down to the incoming priority or the open parenthesis |
| FilterParser.TakeOperator | rule_engine/mqtt_rule_parser.c:58-103 | an operator or parenthesis reduces and is pushed as its kind demands |
| FilterParser.ParseFilterExpression | rule_engine/mqtt_rule_parser.c:45-152 | the parser on the text: its loops compute lexing followed by two-stack parsing, failing on unknown operators and leftover operands |
| TimerHeap.SwimOrders | ev/mqtt_timer.c:65-72 | swimming repairs a heap in which one timer may expire before its parent |
| TimerHeap.SwimBag | ev/mqtt_timer.c:65-72 | and keeps the timers |
| TimerHeap.SinkOrders | ev/mqtt_timer.c:74-92 | sinking repairs a heap in which one timer may expire after its children |
| TimerHeap.SinkBag | ev/mqtt_timer.c:74-92 | and keeps the timers |
| TimerHeap.RootFirst | ev/mqtt_timer.c:154-162 | the root expires first |
| TimerHeap.InsertKeeps | ev/mqtt_timer.c:94-112 | inserting adds one timer and leaves a heap |
| TimerHeap.PopKeeps | ev/mqtt_timer.c:130-140 | popping takes the root out and leaves a heap |
| TimerHeap.DrainExact | ev/mqtt_timer.c:152-162 | draining takes out precisely the expired timers, sorted by expiry, and leaves a heap of the others |
| TimerQueue.ActingKeeps | ev/mqtt_timer.c:114-128 | adding, canceling and resuming keep heap and map equal and the deadline armed |
| TimerQueue.ReturningKeeps | ev/mqtt_timer.c:170-183 | putting a repeating timer back or freeing it keeps heap and map equal |
| TimerQueue.FiringOnce | ev/mqtt_timer.c:163-169 | callbacks run in the order of the expired list, each at most once |
| TimerQueue.FiringExact | ev/mqtt_timer.c:163-169 | the callback of an expired timer runs if and only if its flag is clear when its turn comes, whatever the callbacks before it did |
| TimerQueue.ReturningAllSettles | ev/mqtt_timer.c:170-183 | an expired timer is back with its next expiry exactly if it repeats and is not canceled, otherwise gone |
| TimerQueue.TimeoutKeeps | ev/mqtt_timer.c:142-187 | after a timeout heap and map hold the same timers and the root's expiry is armed |
| TimerQueue.TimeoutRuns | ev/mqtt_timer.c:142-187 | callbacks are those of expired timers, once each, in the order of expiry |
| TimerQueue.TimeoutExact | ev/mqtt_timer.c:142-187 | a timer that has not expired stays; the callback of one that has runs exactly if its flag is clear at its turn; it is back with its next expiry exactly if it repeats and its flag is clear after all callbacks |
| TimerQueue.TimersSafe | ev/mqtt_timer.c:94-187 | in every run heap and map agree, the root is armed, and a timer that does not repeat fires at most once |
| TimerRuns.AddingAdds | ev/mqtt_timer.c:114-128 | adding registers a timer with exactly these fields under a new id and puts it, alone, into the heap, with its flag clear |
| TimerRuns.FlagActions | ev/mqtt_timer.c:237-250 | canceling sets the flag of a registered timer, resuming clears it, and nothing else changes |
| TimerRuns.FiresInTime | ev/mqtt_timer.c:114-187 | a timer that is added and that nobody cancels runs its callback at the first timeout from its expiry on, whatever happens in between |
| TimerRuns.CanceledIsSilent | ev/mqtt_timer.c:142-187 | a timer whose flag is set, or that is gone, does not fire in any run in which nobody resumes it |
| TimerRuns.CancelSilences | ev/mqtt_timer.c:237-242 | so from its cancellation on |
| EventTimers.EventTimers.constructor | ev/mqtt_timer.c:201-222 | an empty heap |
| EventTimers.EventTimers.TimerSwim | ev/mqtt_timer.c:65-72 | moving the hole up computes the swaps |
| EventTimers.EventTimers.TimerSink | ev/mqtt_timer.c:74-92 | moving the hole down computes the swaps |
| EventTimers.EventTimers.Grow | ev/mqtt_timer.c:97-105 | the capacity doubles and the heap stays as it is |
| EventTimers.EventTimers.HeapInsert | ev/mqtt_timer.c:94-112 | inserts into the array and tells whether the root has changed |
| EventTimers.EventTimers.AddTimer | ev/mqtt_timer.c:114-128 | inserts, registers, and arms if the root has changed |
| EventTimers.EventTimers.CancelTimer | ev/mqtt_timer.c:237-242 | sets the flag of a registered timer |
| EventTimers.EventTimers.ResumeTimer | ev/mqtt_timer.c:244-250 | clears the flag and tells whether the timer is registered |
| EventTimers.EventTimers.HeapPop | ev/mqtt_timer.c:130-140 | takes the root out of the array |
| EventTimers.EventTimers.DrainExpired | ev/mqtt_timer.c:154-162 | the loop drains as the function does |
| EventTimers.EventTimers.RunCallbacks | ev/mqtt_timer.c:163-169 | the loop over the expired timers, with callbacks that change the heap |
| EventTimers.EventTimers.ReturnExpired | ev/mqtt_timer.c:170-184 | the loop that puts timers back or frees them, and the emptied list |
| EventTimers.EventTimers.OnTimeout | ev/mqtt_timer.c:142-187 | the handler as a whole |
| Bits.MaskIsRemainder | base/mqtt_map.c:137-142 | masking with a power of two minus one leaves the remainder of dividing by the power |
| Bits.SmearRoundsUp | base/mqtt_map.c:123-129 | a number whose bits are smeared over 32 places is one less than the least power of two that is large enough |
| Bits.RoundUp | base/mqtt_map.c:123-129 | a power of two, not below the wish and below twice the wish |
| HashMap.SlotIsRemainder | base/mqtt_map.c:137-142 | the bucket of a hash is the hash modulo the capacity |
| HashMap.CapacityFits | base/mqtt_map.c:119-135 | a wish of at most 2^31 gives the next power of two, a larger one wraps to 0 |
| HashMap.GrowsTwofold | base/mqtt_map.c:119-135 | growing doubles the capacity until it would not fit into 32 bits |
| HashMap.SmearBits | base/mqtt_map.c:127-128 | the loop of shifts smears every bit over 32 places |
| HashMap.AllocCapacity | base/mqtt_map.c:119-135 | the capacity computed by the shifts is the specified one |
| HashMap.FoundInTable | base/mqtt_map.c:144-166 | a key is in its chain if and only if it is in the map |
| HashMap.PutNew | base/mqtt_map.c:168-174 | an entry at the front of its chain adds one binding and keeps all chains right |
| HashMap.PutOld | base/mqtt_map.c:243-248 | replacing the value in an entry changes one binding |
| HashMap.EraseEntry | base/mqtt_map.c:273-277 | unlinking an entry removes one binding |
| HashMap.NewMap | base/mqtt_map.c:206-237 | a new map is empty; a load factor outside 25 to 95 gives none |
| HashMap.HashMap.constructor | base/mqtt_map.c:217-236 | a new map is empty, with a power of two of at least 8 buckets, not below the wish and below twice the wish (or 8) |
| HashMap.HashMap.FindEntry | base/mqtt_map.c:144-166 | finds the entry of a key exactly if the key is there |
| HashMap.HashMap.Get | base/mqtt_map.c:259-265 | the value of the key, or none |
| HashMap.HashMap.Erase | base/mqtt_map.c:267-280 | the map without the key |
| HashMap.HashMap.Clear | base/mqtt_map.c:282-297 | the empty map |
| HashMap.HashMap.Grow | base/mqtt_map.c:176-204 | moving every entry to an array of twice the length keeps the map |
| HashMap.HashMap.MoveAll | base/mqtt_map.c:176-204 | all entries, moved to an array of any other length, are the same map in it |
| HashMap.HashMap.LoadIsBounded | base/mqtt_map.c:239-257 | as long as the array can grow, the entries fill at most the load factor's share of the buckets |
| HashMap.HashMap.MoveChain | base/mqtt_map.c:187-196 | moving one chain moves exactly its bindings |
| HashMap.HashMap.Put | base/mqtt_map.c:239-257 | the map with the binding, with or without growth |
| HashMap.HashMap.NextBucket | base/mqtt_map.c:315-323 | the first bucket from here on that is not empty |
| HashMap.HashMap.NextEntry | base/mqtt_map.c:335-348 | the next entry, with everything before it met |
| HashMap.HashMap.VisitAll | base/mqtt_map.c:325-348 | a full iteration meets each binding exactly once |
| MessageQueue.StepKeeps | thrdpool/msgqueue.c:65-117 | every step of a producer or of the consumer keeps the invariant, also while both pointers lead to one list |
| MessageQueue.FirstInFirstOut | thrdpool/msgqueue.c:65-117 | in every run, put is got followed by what waits, and a consumer that is promised a message finds its own list filled and takes the oldest message |
| MessageQueue.PutsUnlessFull | thrdpool/msgqueue.c:86-100 | in every reachable state a message joins behind all that wait, unless the queue blocks and the producers' list has reached the maximum |
| MessageQueue.WholeGet | thrdpool/msgqueue.c:102-117 | in every reachable state an undisturbed get takes the oldest message that waits; if there is none, the consumer waits exactly if the queue blocks |
| MessageQueue.AtMostTwice | thrdpool/msgqueue.h:31-33 | in blocking mode at most twice the maximum waits, producers and consumer are never both held up, and a consumer never leaves without the oldest message that waits |
| MessageQueue.TwiceIsReached | thrdpool/msgqueue.h:31-33 | the bound is reached for every maximum |
| MessageQueue.MsgQueue.constructor | thrdpool/msgqueue.c:119-148 | an empty queue |
| MessageQueue.MsgQueue.PutMessage | thrdpool/msgqueue.c:86-100 | the message joins the producers' list at its tail |
| MessageQueue.MsgQueue.BeginGet | thrdpool/msgqueue.c:102-107 | the consumer finds its list filled or redirects its pointer |
| MessageQueue.MsgQueue.SwapLists | thrdpool/msgqueue.c:65-84 | the producers get the empty list and the consumer the count of the other |
| MessageQueue.MsgQueue.TakeMessage | thrdpool/msgqueue.c:107-116 | the oldest message that waits, or none |

## Left out

- Sockets, epoll, TLS, connection set-up, CONNECT, CONNACK and DISCONNECT, keep-alive, wills and access control.  The decoder is modelled for a connection that is in session and not tunneled.
- Malformed packet bodies: the parsers' bounds errors close the connection in the model; what the C code reads beyond a body that lies about its length is not modelled.
- The SUBSCRIBE parser copies filters as C strings; the model takes them as free of NUL bytes.  Hosts are little-endian where two length bytes are swapped.
- The `on_publish_finish` callback in the delivery protocol.  A connection carries two exchanges with separate state, one with the broker and one with the client as the sending end; each is modelled alone.  The code never sets the DUP flag, so packets carry none.
- The delivery protocol over the three-tier store: the protocol is proved with the memory store, the tiers with acknowledgements as events.
- `$`-topics (the code has no rule for them), event listeners, cluster routes and cluster messages in the topic tree.
- Topics.Topics.RemoveSubscription: requires that the end node is absent or has subscribers, because the code reads its subscriber map without asking; `Topics.UnaskedNode` is a reachable state in which that is not so.
- TieredStore.MongoStore.UseBuffer: requires a buffer that is not empty, which every caller has; on an empty one the code would leave the tail of the sending queue pointing at the head of the buffer.
- TieredStore.MongoStore.Store: requires a right window, as does Acknowledge; after a packet has been lost the in-flight count may exceed the queue, and what the memory store does then is not modelled.
- Memory: allocation failure, reference counts and byte sizes.  The heap of timers has one slot more than its capacity, whatever the byte counts at ev/mqtt_timer.c:99 and ev/mqtt_timer.c:208 say.
- ByteBuffer.Buffer.Append: a chunk is a value whose bytes are replaced, so aliasing between chunks is not captured; the same holds for nodes of linked lists and of the topic tree.
- Timers are values with an id from a counter, where the program uses an address and a time; the `canceled` flag is kept in a set of ids.  What a callback does to the heap is a parameter: any list of additions, cancellations and resumptions.
- HashMap.NewMap: requires a capacity of at most 2^31; above it the rounding wraps to 0 (`HashMap.CapacityFits`) and the program goes on with an array of no buckets.  Hash functions are a parameter; entries, counters and thresholds are natural numbers.
- HashMap.HashMap.constructor: requires what NewMap has checked.
- Malformed filter expressions: where an operator lacks operands the C code pops an empty stack, and the model reports failure.  Looking up whether an operand is a field, a payload member or a constant.
- Condition variables and lost wake-ups in the executor and the message queue, stopping them, and `tmq_executor_post` being interrupted between its lock and its signal.
- `tmq_buffer_prepend`, reading and writing descriptors, the 32- and 64-bit readers and the chunk counter of the buffer.
- Rule actions, adaptors, the MySQL, MongoDB and Redis clients, cluster discovery, the console and the configuration files.
