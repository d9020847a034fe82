/** The QoS 1 and QoS 2 delivery protocol between two sessions (mqtt/mqtt_session.c with the
    memory store of store/mqtt_msg_store.c).

    One session publishes, the other receives; they are joined by a FIFO connection in each
    direction.  A run is any sequence of publishes, packet deliveries, losses of the connection
    (everything under way disappears) and reconnections.  `Connect` is the broker's: it resends the in-flight
    packets (mqtt/mqtt_io_context.c:157-158).  A client does not; its side is module `ClientDelivery`.
    The histories at the end of `System` record what the application at each end has seen. */
module Delivery {
  import opened MessageStore
  import opened Session

  datatype System = System(
    w: Window,                  // sender: sending queue and in-flight window
    nextId: PacketId,           // sender: next_packet_id
    ids: set<PacketId>,         // receiver: qos2_packet_ids
    connected: bool,
    up: seq<Packet>,            // on their way to the receiver
    down: seq<Packet>,          // on their way to the sender
    published1: seq<Message>, acked1: seq<Message>, delivered1: seq<Message>,
    published2: seq<Message>, delivered2: seq<Message>,
    published0: seq<Message>, delivered0: seq<Message>)

  datatype Event =
    | Submitted(message: Message, qos: nat)   // tmq_session_publish
    | TakeId                                  // a SUBSCRIBE or UNSUBSCRIBE uses up a packet id
    | ToReceiver
    | ToSender
    | Disconnect
    | Connect                                 // the broker accepts a connection and starts the session

  function Init(window: nat, firstId: PacketId): System {
    System(Window([], 0, window), firstId, {}, false, [], [], [], [], [], [], [], [], [])
  }

  predicate Pub(p: Packet, qos: nat) {
    p.Publish? && p.qos == qos
  }

  /** The packets that occupy a QoS 2 packet id. */
  predicate OfQos2(p: Packet) {
    Pub(p, 2) || p.PubRel?
  }

  predicate Uses2(q: seq<Packet>, id: PacketId) {
    exists i :: 0 <= i < |q| && OfQos2(q[i]) && q[i].id == id
  }

  /** A QoS 2 publish may take an id that no QoS 2 exchange of this sender still uses (section 2.3.1 of MQTT
      Version 3.1.1), and also one that is only used by PUBRELs so far ahead in the queue that they
      are gone before the publish is sent.  The code takes the next id without looking. */
  predicate SafeId(w: Window, id: PacketId) {
    forall i :: 0 <= i < |w.queue| && OfQos2(w.queue[i]) && w.queue[i].id == id ==>
      w.queue[i].PubRel? && |w.queue| - i >= w.size
  }

  predicate Permitted(s: System, e: Event) {
    e.Submitted? && e.qos == 2 ==> SafeId(s.w, s.nextId)
  }

  /** The QoS 1 message that the acknowledgement releases. */
  function Released(w: Window, ack: Packet): seq<Message>
    requires w.Ok()
  {
    if !ack.PubAck? then [] else
      var i := FirstAnswered(w.queue, 0, w.inflight, ack.id, OfPublish(1));
      if i < w.inflight then [w.queue[i].message] else []
  }

  function Submitting(s: System, m: Message, qos: nat): System
    requires s.w.Ok()
  {
    var (w', sent) := Submit(s.w, Publish(s.nextId, qos, m));
    s.(w := w', nextId := Successor(s.nextId),
       up := if s.connected then s.up + sent else s.up,
       published1 := if qos == 1 then s.published1 + [m] else s.published1,
       published2 := if qos == 2 then s.published2 + [m] else s.published2)
  }

  /** QoS 0: fire and forget.  Without a connection the message is gone. */
  function Submitting0(s: System, m: Message): System {
    s.(up := if s.connected then s.up + [Publish(0, 0, m)] else s.up, published0 := s.published0 + [m])
  }

  function Receiving(s: System): System
    requires s.up != []
  {
    var r := OnData(s.ids, s.up[0]);
    s.(ids := r.ids, up := s.up[1..], down := s.down + r.replies,
       delivered0 := if Pub(s.up[0], 0) then s.delivered0 + r.handed else s.delivered0,
       delivered1 := if Pub(s.up[0], 1) then s.delivered1 + r.handed else s.delivered1,
       delivered2 := if Pub(s.up[0], 2) then s.delivered2 + r.handed else s.delivered2)
  }

  function Acking(s: System): System
    requires s.w.Ok() && s.down != []
  {
    var (w', sent) := OnAck(s.w, s.down[0]);
    s.(w := w', down := s.down[1..], up := s.up + sent, acked1 := s.acked1 + Released(s.w, s.down[0]))
  }

  /** Events that cannot happen (nothing under way, no such QoS) leave the system as it is. */
  function Step(s: System, e: Event): (t: System)
    requires s.w.Ok()
    ensures t.w.Ok()
  {
    match e
    case Submitted(m, qos) => if qos == 0 then Submitting0(s, m) else if qos <= 2 then Submitting(s, m, qos) else s
    case TakeId => s.(nextId := Successor(s.nextId))
    case ToReceiver => if s.up != [] then Receiving(s) else s
    case ToSender => if s.down != [] then Acking(s) else s
    case Disconnect => s.(connected := false, up := [], down := [])
    case Connect => s.(connected := true, up := s.w.InFlight(), down := [])
  }

  function Run(s: System, es: seq<Event>): (r: System)
    requires s.w.Ok()
    ensures r.w.Ok()
    decreases |es|
  {
    if es == [] then s else Run(Step(s, es[0]), es[1..])
  }

  /** Every QoS 2 publish of the run takes a safe id. */
  predicate Legal(s: System, es: seq<Event>)
    requires s.w.Ok()
    decreases |es|
  {
    es == [] || (Permitted(s, es[0]) && Legal(Step(s, es[0]), es[1..]))
  }

  // ---------- reading messages off a queue ----------

  /** The QoS 1 messages of the queue, in order. */
  function Qos1(q: seq<Packet>): seq<Message> {
    if q == [] then []
    else if Pub(q[0], 1) then [q[0].message] + Qos1(q[1..])
    else Qos1(q[1..])
  }

  lemma {:induction false} Qos1Append(a: seq<Packet>, b: seq<Packet>)
    ensures Qos1(a + b) == Qos1(a) + Qos1(b)
  {
    if a == [] {
      assert a + b == b;
    } else {
      assert (a + b)[1..] == a[1..] + b;
      Qos1Append(a[1..], b);
    }
  }

  lemma Qos1Snoc(q: seq<Packet>, p: Packet)
    ensures Qos1(q + [p]) == Qos1(q) + if Pub(p, 1) then [p.message] else []
  {
    Qos1Append(q, [p]);
    assert [p][1..] == [];
  }

  /** The ids that the receiver remembers after one packet, and after a queue of packets. */
  function Remembered(ids: set<PacketId>, p: Packet): set<PacketId> {
    OnData(ids, p).ids
  }

  function RememberedAfter(q: seq<Packet>, ids: set<PacketId>): set<PacketId> {
    if q == [] then ids else RememberedAfter(q[1..], Remembered(ids, q[0]))
  }

  /** The QoS 2 messages that the receiver will hand over when it gets the packets of the queue in order. */
  function Undelivered(q: seq<Packet>, ids: set<PacketId>): seq<Message> {
    if q == [] then []
    else if Pub(q[0], 2) && q[0].id !in ids then [q[0].message] + Undelivered(q[1..], Remembered(ids, q[0]))
    else Undelivered(q[1..], Remembered(ids, q[0]))
  }

  lemma {:induction false} UndeliveredAppend(a: seq<Packet>, b: seq<Packet>, ids: set<PacketId>)
    ensures RememberedAfter(a + b, ids) == RememberedAfter(b, RememberedAfter(a, ids))
    ensures Undelivered(a + b, ids) == Undelivered(a, ids) + Undelivered(b, RememberedAfter(a, ids))
  {
    if a == [] {
      assert a + b == b;
    } else {
      assert (a + b)[1..] == a[1..] + b;
      UndeliveredAppend(a[1..], b, Remembered(ids, a[0]));
    }
  }

  lemma UndeliveredOne(p: Packet, ids: set<PacketId>)
    ensures RememberedAfter([p], ids) == Remembered(ids, p)
    ensures Undelivered([p], ids) == if Pub(p, 2) && p.id !in ids then [p.message] else []
  {
    assert [p][1..] == [];
  }

  lemma UndeliveredSnoc(q: seq<Packet>, p: Packet, ids: set<PacketId>)
    ensures Undelivered(q + [p], ids) ==
            Undelivered(q, ids) + if Pub(p, 2) && p.id !in RememberedAfter(q, ids) then [p.message] else []
  {
    UndeliveredAppend(q, [p], ids);
    UndeliveredOne(p, RememberedAfter(q, ids));
  }

  /** The receiver has seen these packets: it remembers the ids of the PUBLISHs and not those of the PUBRELs. */
  ghost predicate Seen(q: seq<Packet>, ids: set<PacketId>) {
    && (forall i :: 0 <= i < |q| && Pub(q[i], 2) ==> q[i].id in ids)
    && (forall i :: 0 <= i < |q| && q[i].PubRel? ==> q[i].id !in ids)
  }

  lemma SeenTail(q: seq<Packet>, ids: set<PacketId>)
    requires q != [] && Seen(q, ids)
    ensures Seen(q[1..], ids)
  {
    forall i | 0 <= i < |q| - 1
      ensures Pub(q[1..][i], 2) ==> q[1..][i].id in ids
      ensures q[1..][i].PubRel? ==> q[1..][i].id !in ids
    {
      assert q[1..][i] == q[i + 1];
    }
  }

  /** Getting them again changes nothing. */
  lemma {:induction false} SeenAgain(q: seq<Packet>, ids: set<PacketId>)
    requires Seen(q, ids)
    ensures RememberedAfter(q, ids) == ids && Undelivered(q, ids) == []
  {
    if q != [] {
      assert Remembered(ids, q[0]) == ids;
      SeenTail(q, ids);
      SeenAgain(q[1..], ids);
    }
  }

  /** Which ids are remembered depends on the last packet with that id. */
  lemma {:induction false} LastDecides(q: seq<Packet>, ids: set<PacketId>, id: PacketId)
    requires forall i :: 0 <= i < |q| && OfQos2(q[i]) && q[i].id == id ==> q[i].PubRel?
    ensures id in RememberedAfter(q, ids) <==> id in ids && !Uses2(q, id)
  {
    if q != [] {
      LastDecides(q[1..], Remembered(ids, q[0]), id);
      if Uses2(q[1..], id) {
        var i :| 0 <= i < |q| - 1 && OfQos2(q[1..][i]) && q[1..][i].id == id;
        assert OfQos2(q[i + 1]) && q[i + 1].id == id;
      } else if Uses2(q, id) {
        var i :| 0 <= i < |q| && OfQos2(q[i]) && q[i].id == id;
        assert i > 0 ==> q[1..][i - 1] == q[i];
      }
    }
  }

  /** The QoS 0 messages among packets under way, and the packets of the other exchanges. */
  function Zeros(q: seq<Packet>): seq<Message> {
    if q == [] then []
    else if Pub(q[0], 0) then [q[0].message] + Zeros(q[1..])
    else Zeros(q[1..])
  }

  function Data(q: seq<Packet>): seq<Packet> {
    if q == [] then []
    else if Pub(q[0], 0) then Data(q[1..])
    else [q[0]] + Data(q[1..])
  }

  lemma {:induction false} UnderWayAppend(a: seq<Packet>, b: seq<Packet>)
    ensures Zeros(a + b) == Zeros(a) + Zeros(b) && Data(a + b) == Data(a) + Data(b)
  {
    if a == [] {
      assert a + b == b;
    } else {
      assert (a + b)[1..] == a[1..] + b;
      UnderWayAppend(a[1..], b);
    }
  }

  lemma {:induction false} NoZeros(q: seq<Packet>)
    requires forall i :: 0 <= i < |q| ==> !Pub(q[i], 0)
    ensures Zeros(q) == [] && Data(q) == q
  {
    if q != [] {
      NoZeros(q[1..]);
    }
  }

  lemma AllZeros(z: Packet)
    requires Pub(z, 0)
    ensures Zeros([z]) == [z.message] && Data([z]) == []
  {
    assert [z][1..] == [];
  }

  /** Packets that come out of the sending queue are put behind those under way. */
  lemma UnderWayMore(up: seq<Packet>, more: seq<Packet>)
    requires forall i :: 0 <= i < |more| ==> Sendable(more[i])
    ensures Zeros(up + more) == Zeros(up) && Data(up + more) == Data(up) + more
  {
    UnderWayAppend(up, more);
    NoZeros(more);
    assert Zeros(up) + [] == Zeros(up);
  }

  /** a can be read off b in order, skipping some of b. */
  predicate Subsequence<T(==)>(a: seq<T>, b: seq<T>) {
    a == [] || (b != [] && (if a[|a| - 1] == b[|b| - 1] then Subsequence(a[..|a| - 1], b[..|b| - 1])
                            else Subsequence(a, b[..|b| - 1])))
  }

  lemma {:induction false} SubsequenceShorter<T>(a: seq<T>, b: seq<T>)
    requires a != [] && Subsequence(a, b)
    ensures Subsequence(a[..|a| - 1], b)
    decreases |b|, 0
  {
    if a[|a| - 1] == b[|b| - 1] {
      SubsequenceGrow(a[..|a| - 1], b[..|b| - 1], b[|b| - 1]);
      assert b[..|b| - 1] + [b[|b| - 1]] == b;
    } else {
      SubsequenceShorter(a, b[..|b| - 1]);
      SubsequenceGrow(a[..|a| - 1], b[..|b| - 1], b[|b| - 1]);
      assert b[..|b| - 1] + [b[|b| - 1]] == b;
    }
  }

  lemma {:induction false} SubsequenceGrow<T>(a: seq<T>, b: seq<T>, x: T)
    requires Subsequence(a, b)
    ensures Subsequence(a, b + [x])
    decreases |b|, 1
  {
    var c := b + [x];
    assert c[..|c| - 1] == b;
    if a != [] && a[|a| - 1] == x {
      SubsequenceShorter(a, b);
    }
  }

  lemma {:induction false} SubsequenceBoth<T>(a: seq<T>, b: seq<T>, x: T)
    requires Subsequence(a, b)
    ensures Subsequence(a + [x], b + [x])
  {
    assert (a + [x])[..|a|] == a && (b + [x])[..|b|] == b;
  }

  // ---------- the invariant ----------

  function AckFor(p: Packet): Packet {
    if Pub(p, 1) then PubAck(p.id) else if Pub(p, 2) then PubRec(p.id) else PubComp(p.id)
  }

  predicate Sendable(p: Packet) {
    Pub(p, 1) || OfQos2(p)
  }

  /** While connected, the in-flight packets are those whose acknowledgement is coming back,
      followed by those still on their way out, between which there may be QoS 0 messages. */
  ghost predicate Channels(s: System) {
    && s.w.Ok()
    && (forall i :: 0 <= i < |s.w.queue| ==> Sendable(s.w.queue[i]))
    && |s.down| <= s.w.inflight
    && (forall i :: 0 <= i < |s.down| ==> s.down[i] == AckFor(s.w.queue[i]))
    && (s.connected ==> Data(s.up) == s.w.queue[|s.down|..s.w.inflight])
    && (!s.connected ==> s.up == [] && s.down == [])
  }

  /** QoS 2 ids in the queue are distinct, except that a PUBREL may be followed, at least a window further
      back, by packets of a later exchange with its id. */
  ghost predicate Spaced(q: seq<Packet>, size: nat) {
    forall i, j :: 0 <= i < j < |q| && OfQos2(q[i]) && OfQos2(q[j]) && q[i].id == q[j].id ==>
      q[i].PubRel? && j - i >= size
  }

  /** The receiver remembers only ids that the queue uses, and has seen the packets it has answered. */
  ghost predicate Identifiers(s: System)
    requires Channels(s)
  {
    && Spaced(s.w.queue, s.w.size)
    && (forall id :: id in s.ids ==> Uses2(s.w.queue, id))
    && Seen(s.w.queue[..|s.down|], s.ids)
  }

  /** Conservation of QoS 2 messages: handed over, or still queued and to be handed over. */
  ghost predicate Ledger2(s: System) {
    s.published2 == s.delivered2 + Undelivered(s.w.queue, s.ids)
  }

  ghost predicate Ledger1Counts(s: System) {
    s.published1 == s.acked1 + Qos1(s.w.queue)
  }

  /** QoS 1: a message leaves the queue in publish order, and only after it was handed over. */
  ghost predicate Ledger1(s: System)
    requires Channels(s)
  {
    && Ledger1Counts(s)
    && Subsequence(s.acked1 + Qos1(s.w.queue[..|s.down|]), s.delivered1)
  }

  /** idx says which published message each handover is of.  The message before it has been handed over
      earlier, so messages are handed over for the first time in publish order and without a gap. */
  ghost predicate Tracks(idx: seq<nat>, delivered: seq<Message>, published: seq<Message>) {
    && |idx| == |delivered|
    && (forall i :: 0 <= i < |idx| ==> idx[i] < |published| && delivered[i] == published[idx[i]])
    && (forall i :: 0 <= i < |idx| ==> Preceded(idx, i))
  }

  ghost predicate Preceded(idx: seq<nat>, i: nat)
    requires i < |idx|
  {
    idx[i] == 0 || exists j :: 0 <= j < i && idx[j] + 1 == idx[i]
  }

  ghost predicate Covers(idx: seq<nat>, n: nat) {
    forall j: nat :: j < n ==> j in idx
  }

  /** How many QoS 1 messages, counted from the first, have been handed over for sure. */
  function Through(s: System): nat
    requires |s.down| <= |s.w.queue|
  {
    |s.acked1| + |Qos1(s.w.queue[..|s.down|])|
  }

  /** Handed over for the first time in publish order, at least the first n. */
  ghost predicate InOrder(delivered: seq<Message>, published: seq<Message>, n: nat) {
    exists idx :: Tracks(idx, delivered, published) && Covers(idx, n)
  }

  ghost predicate Order1(s: System)
    requires Channels(s)
  {
    InOrder(s.delivered1, s.published1, Through(s))
  }

  /** QoS 0: handed over or still under way, in publish order; others are lost. */
  ghost predicate Ledger0(s: System) {
    Subsequence(s.delivered0 + Zeros(s.up), s.published0)
  }

  ghost predicate Inv(s: System) {
    Channels(s) && Identifiers(s) && Ledger2(s) && Ledger1(s) && Order1(s) && Ledger0(s)
  }

  // ---------- every step keeps it ----------

  lemma SubmittingKeepsChannels(s: System, t: System, p: Packet)
    requires Channels(s) && Sendable(p)
    requires t.w == Submit(s.w, p).0 && t.down == s.down && t.connected == s.connected
    requires t.up == if s.connected then s.up + Submit(s.w, p).1 else s.up
    ensures Channels(t) && Zeros(t.up) == Zeros(s.up)
  {
    var k, q', n, n' := |s.down|, t.w.queue, s.w.inflight, t.w.inflight;
    assert q' == s.w.queue + [p];
    SnocSlices(s.w.queue, p, k, n, n');
    assert forall i :: 0 <= i < |s.w.queue| ==> q'[i] == s.w.queue[i];
    UnderWayMore(s.up, Submit(s.w, p).1);
  }

  lemma SnocSlices(q: seq<Packet>, p: Packet, k: nat, n: nat, n': nat)
    requires k <= n <= |q| && n <= n' <= |q| + 1 && (n' > n ==> n == |q|)
    ensures (q + [p])[k..n'] == q[k..n] + if n' > n then [p] else []
  {
  }

  lemma SubmittingKeepsLedger1(s: System, t: System, p: Packet)
    requires Channels(s) && Ledger1(s) && Order1(s) && p.Publish?
    requires Channels(t) && t.w.queue == s.w.queue + [p]
    requires t.down == s.down && t.delivered1 == s.delivered1 && t.acked1 == s.acked1
    requires t.published1 == if p.qos == 1 then s.published1 + [p.message] else s.published1
    ensures Ledger1(t) && Order1(t)
  {
    assert t.w.queue[..|s.down|] == s.w.queue[..|s.down|];
    Qos1Snoc(s.w.queue, p);
    Rejoin(s.acked1, Qos1(s.w.queue), if p.qos == 1 then [p.message] else []);
    InOrderStill(s.delivered1, s.published1, t.published1, Through(s), Through(t));
  }

  lemma Rejoin(a: seq<Message>, b: seq<Message>, c: seq<Message>)
    ensures a + (b + c) == a + b + c && a + (b + []) == a + b
  {
  }

  lemma InOrderStill(delivered: seq<Message>, published: seq<Message>, more: seq<Message>, n: nat, n': nat)
    requires InOrder(delivered, published, n) && published <= more && n' <= n
    ensures InOrder(delivered, more, n')
  {
    var idx :| Tracks(idx, delivered, published) && Covers(idx, n);
    assert Tracks(idx, delivered, more) && Covers(idx, n');
  }

  lemma SubmittingKeepsLedger2(s: System, t: System, p: Packet)
    requires Channels(s) && Identifiers(s) && Ledger2(s) && p.Publish? && 0 < p.qos <= 2
    requires p.qos == 2 ==> SafeId(s.w, p.id)
    requires t.w.queue == s.w.queue + [p] && t.ids == s.ids && t.delivered2 == s.delivered2
    requires t.published2 == if p.qos == 2 then s.published2 + [p.message] else s.published2
    ensures Ledger2(t)
  {
    UndeliveredSnoc(s.w.queue, p, s.ids);
    if p.qos == 2 {
      LastDecides(s.w.queue, s.ids, p.id);
    }
  }

  lemma SubmittingKeepsIdentifiers(s: System, t: System, p: Packet)
    requires Channels(s) && Identifiers(s) && Channels(t) && p.Publish?
    requires p.qos == 2 ==> SafeId(s.w, p.id)
    requires t.w.queue == s.w.queue + [p] && t.w.size == s.w.size && t.down == s.down && t.ids == s.ids
    ensures Identifiers(t)
  {
    var q, q' := s.w.queue, t.w.queue;
    assert forall i :: 0 <= i < |q| ==> q'[i] == q[i];
    assert q'[..|t.down|] == q[..|s.down|];
    forall id | id in s.ids ensures Uses2(q', id) {
      var i :| 0 <= i < |q| && OfQos2(q[i]) && q[i].id == id;
      assert OfQos2(q'[i]) && q'[i].id == id;
    }
  }

  lemma SubmittingKeeps(s: System, m: Message, qos: nat)
    requires Inv(s) && Permitted(s, Submitted(m, qos)) && 1 <= qos <= 2
    ensures Inv(Submitting(s, m, qos))
  {
    var t, p := Submitting(s, m, qos), Publish(s.nextId, qos, m);
    SubmittingKeepsChannels(s, t, p);
    SubmittingKeepsIdentifiers(s, t, p);
    SubmittingKeepsLedger1(s, t, p);
    SubmittingKeepsLedger2(s, t, p);
  }

  lemma Submitting0Keeps(s: System, m: Message, t: System)
    requires Inv(s) && t == Submitting0(s, m)
    ensures Inv(t)
  {
    ZeroUnderWay(s.up, m);
    Submitting0Ledger(s, m, t);
    SameButZeros(s, t);
  }

  lemma ZeroUnderWay(up: seq<Packet>, m: Message)
    ensures Data(up + [Publish(0, 0, m)]) == Data(up) && Zeros(up + [Publish(0, 0, m)]) == Zeros(up) + [m]
  {
    UnderWayAppend(up, [Publish(0, 0, m)]);
    AllZeros(Publish(0, 0, m));
    assert Data(up) + [] == Data(up);
  }

  lemma Submitting0Ledger(s: System, m: Message, t: System)
    requires Ledger0(s) && t.published0 == s.published0 + [m] && t.delivered0 == s.delivered0
    requires Zeros(t.up) == Zeros(s.up) + [m] || t.up == s.up
    ensures Ledger0(t)
  {
    var d := s.delivered0 + Zeros(s.up);
    if t.up == s.up {
      SubsequenceGrow(d, s.published0, m);
    } else {
      SubsequenceBoth(d, s.published0, m);
      assert s.delivered0 + (Zeros(s.up) + [m]) == d + [m];
    }
  }

  /** Nothing but QoS 0 messages has moved. */
  lemma SameButZeros(s: System, t: System)
    requires Inv(s) && t == s.(up := t.up, published0 := t.published0, delivered0 := t.delivered0)
    requires Data(t.up) == Data(s.up) && (!s.connected ==> t.up == []) && Ledger0(t)
    ensures Inv(t)
  {
  }

  /** A QoS 0 message arrives. */
  lemma Receiving0Is(s: System)
    requires s.up != [] && Pub(s.up[0], 0)
    ensures Receiving(s) == s.(up := s.up[1..], delivered0 := s.delivered0 + [s.up[0].message])
    ensures Data(s.up[1..]) == Data(s.up) && Zeros(s.up) == [s.up[0].message] + Zeros(s.up[1..])
  {
    assert s.down + [] == s.down;
  }

  lemma Receiving0Keeps(s: System, t: System)
    requires Inv(s) && s.up != [] && Pub(s.up[0], 0) && t == Receiving(s)
    ensures Inv(t)
  {
    Receiving0Is(s);
    assert t.delivered0 + Zeros(t.up) == s.delivered0 + Zeros(s.up);
    SameButZeros(s, t);
  }

  lemma ReceivingKeepsChannels(s: System)
    requires Channels(s) && s.up != [] && !Pub(s.up[0], 0)
    ensures |s.down| < s.w.inflight && s.up[0] == s.w.queue[|s.down|]
    ensures Receiving(s).down == s.down + [AckFor(s.up[0])]
    ensures Channels(Receiving(s)) && Zeros(Receiving(s).up) == Zeros(s.up)
  {
    var q, k, n := s.w.queue, |s.down|, s.w.inflight;
    assert Data(s.up)[0] == s.up[0] == q[k];
    assert Data(s.up)[1..] == Data(s.up[1..]) == q[k + 1..n];
  }

  /** The next packet of the queue has been seen, too. */
  lemma SeenMore(q: seq<Packet>, size: nat, k: nat, ids: set<PacketId>)
    requires k < |q| && k < size && Spaced(q, size) && Seen(q[..k], ids)
    ensures Seen(q[..k + 1], Remembered(ids, q[k]))
  {
    var ids' := Remembered(ids, q[k]);
    forall i | 0 <= i <= k
      ensures Pub(q[i], 2) ==> q[i].id in ids'
      ensures q[i].PubRel? ==> q[i].id !in ids'
    {
      assert i < k ==> q[..k][i] == q[i];
    }
    assert forall i :: 0 <= i <= k ==> q[..k + 1][i] == q[i];
  }

  lemma ReceivingKeepsIdentifiers(s: System, t: System)
    requires Channels(s) && Identifiers(s) && |s.down| < s.w.inflight && Channels(t)
    requires t.w == s.w && |t.down| == |s.down| + 1 && t.ids == Remembered(s.ids, s.w.queue[|s.down|])
    ensures Identifiers(t)
  {
    var q, k := s.w.queue, |s.down|;
    SeenMore(q, s.w.size, k, s.ids);
    if OfQos2(q[k]) {
      assert Uses2(q, q[k].id);
    }
  }

  /** Handing over what the next packet brings takes it out of the undelivered messages. */
  lemma UndeliveredStep(q: seq<Packet>, size: nat, k: nat, ids: set<PacketId>)
    requires k < |q| && k < size && Spaced(q, size) && Seen(q[..k], ids)
    ensures Undelivered(q, ids) ==
            (if Pub(q[k], 2) && q[k].id !in ids then [q[k].message] else []) + Undelivered(q, Remembered(ids, q[k]))
  {
    SeenMore(q, size, k, ids);
    SeenFront(q, k, ids);
    SeenFront(q, k + 1, Remembered(ids, q[k]));
    assert q[k..][0] == q[k] && q[k..][1..] == q[k + 1..];
  }

  lemma SeenFront(q: seq<Packet>, k: nat, ids: set<PacketId>)
    requires k <= |q| && Seen(q[..k], ids)
    ensures Undelivered(q, ids) == Undelivered(q[k..], ids)
  {
    SeenAgain(q[..k], ids);
    UndeliveredAppend(q[..k], q[k..], ids);
    assert q == q[..k] + q[k..];
  }

  lemma Regroup(published: seq<Message>, delivered: seq<Message>, handed: seq<Message>, left: seq<Message>)
    requires published == delivered + (handed + left)
    ensures published == delivered + handed + left
  {
  }

  lemma ReceivingKeepsLedger2(s: System, t: System)
    requires Channels(s) && Identifiers(s) && Ledger2(s) && |s.down| < s.w.inflight
    requires t.w == s.w && t.published2 == s.published2
    requires var p := s.w.queue[|s.down|];
             && t.ids == Remembered(s.ids, p)
             && t.delivered2 == s.delivered2 + if Pub(p, 2) && p.id !in s.ids then [p.message] else []
    ensures Ledger2(t)
  {
    var q, k := s.w.queue, |s.down|;
    UndeliveredStep(q, s.w.size, k, s.ids);
    var handed := if Pub(q[k], 2) && q[k].id !in s.ids then [q[k].message] else [];
    Regroup(s.published2, s.delivered2, handed, Undelivered(q, t.ids));
  }

  /** Answering one more packet of the queue moves the boundary between old and answered deliveries. */
  lemma Qos1Answer(q: seq<Packet>, k: nat)
    requires k < |q|
    ensures Qos1(q[..k + 1]) == Qos1(q[..k]) + if Pub(q[k], 1) then [q[k].message] else []
    ensures Pub(q[k], 1) ==> |Qos1(q[..k])| < |Qos1(q)| && Qos1(q)[|Qos1(q[..k])|] == q[k].message
  {
    assert q[..k + 1] == q[..k] + [q[k]];
    Qos1Snoc(q[..k], q[k]);
    assert q == q[..k + 1] + q[k + 1..];
    Qos1Append(q[..k + 1], q[k + 1..]);
  }

  lemma SubsequenceMore(acked: seq<Message>, answered: seq<Message>, delivered: seq<Message>, more: seq<Message>)
    requires Subsequence(acked + answered, delivered) && |more| <= 1
    ensures Subsequence(acked + (answered + more), delivered + more)
  {
    if more == [] {
      assert answered + more == answered && delivered + more == delivered;
    } else {
      SubsequenceBoth(acked + answered, delivered, more[0]);
      assert more == [more[0]];
      assert acked + (answered + more) == acked + answered + more;
    }
  }

  lemma ReceivedKeepsLedger1(s: System, t: System)
    requires Channels(s) && Ledger1(s) && Channels(t) && |s.down| < |s.w.queue|
    requires t.w == s.w && |t.down| == |s.down| + 1
    requires t.published1 == s.published1 && t.acked1 == s.acked1
    requires var p := s.w.queue[|s.down|];
             t.delivered1 == if Pub(p, 1) then s.delivered1 + [p.message] else s.delivered1
    ensures Ledger1(t)
  {
    var q, k := s.w.queue, |s.down|;
    var more := if Pub(q[k], 1) then [q[k].message] else [];
    Qos1Answer(q, k);
    SubsequenceMore(s.acked1, Qos1(q[..k]), s.delivered1, more);
    assert t.delivered1 == s.delivered1 + more;
  }

  lemma TracksMore(idx: seq<nat>, delivered: seq<Message>, published: seq<Message>, n: nat)
    requires Tracks(idx, delivered, published) && Covers(idx, n) && n < |published|
    ensures Tracks(idx + [n], delivered + [published[n]], published) && Covers(idx + [n], n + 1)
  {
    var idx' := idx + [n];
    forall i | 0 <= i < |idx| ensures Preceded(idx', i) {
      assert Preceded(idx, i) && idx'[i] == idx[i];
      if idx[i] > 0 {
        var j :| 0 <= j < i && idx[j] + 1 == idx[i];
        assert idx'[j] + 1 == idx'[i];
      }
    }
    assert Preceded(idx', |idx|) by {
      if n > 0 {
        var before: nat := n - 1;
        assert before in idx;
        var j :| 0 <= j < |idx| && idx[j] == before;
        assert idx'[j] + 1 == idx'[|idx|];
      }
    }
    assert idx'[|idx|] == n;
  }

  /** One more handover, of the message behind the first n. */
  lemma InOrderMore(delivered: seq<Message>, published: seq<Message>, n: nat)
    requires InOrder(delivered, published, n) && n < |published|
    ensures InOrder(delivered + [published[n]], published, n + 1)
  {
    var idx :| Tracks(idx, delivered, published) && Covers(idx, n);
    TracksMore(idx, delivered, published, n);
  }

  lemma ReceivedKeepsOrder1(s: System, t: System)
    requires Channels(s) && Ledger1(s) && Order1(s) && Channels(t) && |s.down| < |s.w.queue|
    requires t.w == s.w && |t.down| == |s.down| + 1
    requires t.published1 == s.published1 && t.acked1 == s.acked1
    requires var p := s.w.queue[|s.down|];
             t.delivered1 == if Pub(p, 1) then s.delivered1 + [p.message] else s.delivered1
    ensures Order1(t)
  {
    NextHandover(s, t);
    if Pub(s.w.queue[|s.down|], 1) {
      InOrderMore(s.delivered1, s.published1, Through(s));
    }
  }

  lemma NextHandover(s: System, t: System)
    requires Ledger1Counts(s) && |s.down| < |s.w.queue|
    requires t.w == s.w && |t.down| == |s.down| + 1 && t.acked1 == s.acked1
    ensures var p, n := s.w.queue[|s.down|], Through(s);
            if Pub(p, 1) then n < |s.published1| && s.published1[n] == p.message && Through(t) == n + 1
            else Through(t) == n
  {
    Qos1Answer(s.w.queue, |s.down|);
  }

  /** What one packet does to the system at the receiver. */
  ghost predicate Received(s: System, t: System) {
    && |s.down| < s.w.inflight <= |s.w.queue| && s.up != []
    && var p := s.w.queue[|s.down|];
    && t.ids == Remembered(s.ids, p)
    && t.down == s.down + [AckFor(p)]
    && t.delivered1 == (if Pub(p, 1) then s.delivered1 + [p.message] else s.delivered1)
    && t.delivered2 == s.delivered2 + (if Pub(p, 2) && p.id !in s.ids then [p.message] else [])
    && t == s.(ids := t.ids, up := s.up[1..], down := t.down, delivered1 := t.delivered1, delivered2 := t.delivered2)
  }

  lemma ReceivingIs(s: System)
    requires Channels(s) && s.up != [] && !Pub(s.up[0], 0)
    ensures Received(s, Receiving(s))
  {
    ReceivingKeepsChannels(s);
    assert s.delivered2 + [] == s.delivered2;
  }

  lemma ReceivingKeeps(s: System)
    requires Inv(s) && s.up != []
    ensures Inv(Receiving(s))
  {
    var t := Receiving(s);
    if Pub(s.up[0], 0) {
      Receiving0Keeps(s, t);
      return;
    }
    ReceivingKeepsChannels(s);
    ReceivingIs(s);
    ReceivingKeepsIdentifiers(s, t);
    ReceivingKeepsLedger2(s, t);
    ReceivedKeepsLedger1(s, t);
    ReceivedKeepsOrder1(s, t);
  }

  /** The acknowledgement at the head of the connection answers the head of the queue; what the
      sender then writes is exactly the part of the queue that has entered the window. */
  lemma AckHead(w: Window)
    requires w.Ok() && w.inflight > 0 && Sendable(w.queue[0])
    ensures var r := OnAck(w, AckFor(w.queue[0]));
            && r.0.queue == AfterAck(w.queue) && r.0.size == w.size
            && w.inflight - 1 <= r.0.inflight
            && r.1 == r.0.queue[w.inflight - 1..r.0.inflight]
    ensures Released(w, AckFor(w.queue[0])) == if Pub(w.queue[0], 1) then [w.queue[0].message] else []
  {
    var p := w.queue[0];
    var kind := if p.Publish? then OfPublish(p.qos) else OfPubRel;
    AckedHead(w, p.id, kind);
    assert FirstAnswered(w.queue, 0, w.inflight, p.id, kind) == 0;
    if Pub(p, 2) {
      var (w1, sent1) := Acknowledged(w, p.id, kind);
      SubmitSends(w1, PubRel(p.id), w.inflight - 1);
    }
  }

  lemma AckedHead(w: Window, id: PacketId, kind: AckOf)
    requires w.Ok() && w.inflight > 0 && Answers(w.queue[0], id, kind)
    ensures var r := Acknowledged(w, id, kind);
            && r.0.queue == w.queue[1..] && r.0.size == w.size
            && w.inflight - 1 <= r.0.inflight
            && r.1 == r.0.queue[w.inflight - 1..r.0.inflight]
  {
    assert FirstAnswered(w.queue, 0, w.inflight, id, kind) == 0;
    assert Without(w.queue, 0) == w.queue[1..];
  }

  /** Submitting after having written the window from index i on: still the window from i on. */
  lemma SubmitSends(w: Window, p: Packet, i: nat)
    requires w.Ok() && i <= w.inflight
    ensures var r := Submit(w, p);
            w.queue[i..w.inflight] + r.1 == r.0.queue[i..r.0.inflight]
  {
  }

  /** The queue after its head was acknowledged. */
  function AfterAck(q: seq<Packet>): seq<Packet>
    requires q != []
  {
    if Pub(q[0], 2) then q[1..] + [PubRel(q[0].id)] else q[1..]
  }

  /** What one acknowledgement does to the system, without the pointers and the search. */
  ghost predicate Acked(s: System, t: System) {
    && s.down != [] && 0 < s.w.inflight <= |s.w.queue|
    && t.w.Ok() && t.w.size == s.w.size && t.w.queue == AfterAck(s.w.queue) && s.w.inflight - 1 <= t.w.inflight
    && t.up == s.up + t.w.queue[s.w.inflight - 1..t.w.inflight]
    && t.down == s.down[1..]
    && t.acked1 == s.acked1 + (if Pub(s.w.queue[0], 1) then [s.w.queue[0].message] else [])
    && t == s.(w := t.w, up := t.up, down := t.down, acked1 := t.acked1)
  }

  lemma AckingHead(s: System)
    requires Channels(s) && s.down != []
    ensures Acked(s, Acking(s))
  {
    AckHead(s.w);
  }

  lemma AckedKeepsChannels(s: System, t: System)
    requires Channels(s) && Acked(s, t)
    ensures Channels(t) && Zeros(t.up) == Zeros(s.up)
  {
    var q, q', k, n := s.w.queue, t.w.queue, |s.down|, s.w.inflight;
    assert forall i :: 0 <= i < |q| - 1 ==> q'[i] == q[i + 1];
    assert forall i :: 0 <= i < |t.down| ==> t.down[i] == s.down[i + 1];
    TailSlices(q, q', k, n, t.w.inflight);
    UnderWayMore(s.up, q'[n - 1..t.w.inflight]);
  }

  lemma TailSlices(q: seq<Packet>, q': seq<Packet>, k: nat, n: nat, n': nat)
    requires 0 < k <= n <= |q| && n - 1 <= n' <= |q'| && |q| - 1 <= |q'|
    requires forall i :: 0 <= i < |q| - 1 ==> q'[i] == q[i + 1]
    ensures q'[k - 1..n'] == q[k..n] + q'[n - 1..n']
  {
  }

  lemma AckedKeepsSpaced(q: seq<Packet>, size: nat)
    requires q != [] && Spaced(q, size)
    ensures Spaced(AfterAck(q), size)
  {
    var q' := AfterAck(q);
    assert forall i :: 0 <= i < |q| - 1 ==> q'[i] == q[i + 1];
    forall i, j | 0 <= i < j < |q'| && OfQos2(q'[i]) && OfQos2(q'[j]) && q'[i].id == q'[j].id
      ensures q'[i].PubRel? && j - i >= size
    {
      assert OfQos2(q[i + 1]);
      assert j < |q| - 1 ==> OfQos2(q[j + 1]);
    }
  }

  lemma AckedKeepsUse(q: seq<Packet>, id: PacketId)
    requires q != [] && Uses2(q, id) && (q[0].PubRel? ==> q[0].id != id)
    ensures Uses2(AfterAck(q), id)
  {
    var i :| 0 <= i < |q| && OfQos2(q[i]) && q[i].id == id;
    var j := if i > 0 then i - 1 else |q| - 1;
    assert OfQos2(AfterAck(q)[j]) && AfterAck(q)[j].id == id;
  }

  lemma AckedKeepsIdentifiers(s: System, t: System)
    requires Channels(s) && Identifiers(s) && Acked(s, t) && Channels(t)
    ensures Identifiers(t)
  {
    var q, q', k := s.w.queue, t.w.queue, |s.down|;
    AckedKeepsSpaced(q, s.w.size);
    assert q[..k][0] == q[0];
    forall id | id in s.ids ensures Uses2(q', id) {
      AckedKeepsUse(q, id);
    }
    SeenTail(q[..k], s.ids);
    assert q'[..k - 1] == q[..k][1..];
  }

  lemma AckedKeepsLedger2(s: System, t: System)
    requires Channels(s) && Identifiers(s) && Ledger2(s) && Acked(s, t)
    ensures Ledger2(t)
  {
    assert s.w.queue[..|s.down|][0] == s.w.queue[0];
    UndeliveredAfterAck(s.w.queue, s.ids);
  }

  /** Acknowledging a packet that the receiver has seen takes nothing off what it has not handed over. */
  lemma UndeliveredAfterAck(q: seq<Packet>, ids: set<PacketId>)
    requires q != [] && Seen([q[0]], ids)
    ensures Undelivered(AfterAck(q), ids) == Undelivered(q, ids)
  {
    assert q == [q[0]] + q[1..];
    SeenAgain([q[0]], ids);
    UndeliveredAppend([q[0]], q[1..], ids);
    UndeliveredSnoc(q[1..], PubRel(q[0].id), ids);
  }

  lemma AckedKeepsOrder1(s: System, t: System)
    requires Channels(s) && Order1(s) && Acked(s, t) && Channels(t)
    ensures Order1(t)
  {
    Qos1AfterAck(s.w.queue, |s.down|);
  }

  lemma AckedKeepsLedger1(s: System, t: System)
    requires Channels(s) && Ledger1(s) && Acked(s, t) && Channels(t)
    ensures Ledger1(t)
  {
    var q, k := s.w.queue, |s.down|;
    var p, q' := q[0], t.w.queue;
    Qos1AfterAck(q, k);
    if Pub(p, 1) {
      assert s.acked1 + Qos1(q) == t.acked1 + Qos1(q');
      assert s.acked1 + Qos1(q[..k]) == t.acked1 + Qos1(q'[..k - 1]);
    } else {
      assert t.acked1 == s.acked1;
    }
  }

  lemma Qos1AfterAck(q: seq<Packet>, k: nat)
    requires 0 < k <= |q|
    ensures Pub(q[0], 1) ==> Qos1(q) == [q[0].message] + Qos1(AfterAck(q))
    ensures Pub(q[0], 1) ==> Qos1(q[..k]) == [q[0].message] + Qos1(AfterAck(q)[..k - 1])
    ensures !Pub(q[0], 1) ==> Qos1(q) == Qos1(AfterAck(q)) && Qos1(q[..k]) == Qos1(AfterAck(q)[..k - 1])
  {
    FrontAfterAck(q, k);
    if Pub(q[0], 2) {
      Qos1Snoc(q[1..], PubRel(q[0].id));
    }
  }

  lemma FrontAfterAck(q: seq<Packet>, k: nat)
    requires 0 < k <= |q|
    ensures q[..k][0] == q[0] && q[..k][1..] == AfterAck(q)[..k - 1]
  {
  }

  lemma AckingKeeps(s: System)
    requires Inv(s) && s.down != []
    ensures Inv(Acking(s))
  {
    var t := Acking(s);
    AckingHead(s);
    AckedKeepsChannels(s, t);
    AckedKeepsIdentifiers(s, t);
    AckedKeepsLedger2(s, t);
    AckedKeepsLedger1(s, t);
    AckedKeepsOrder1(s, t);
  }

  lemma {:induction false} SubsequencePrefix<T>(a: seq<T>, c: seq<T>, b: seq<T>)
    requires Subsequence(a + c, b)
    ensures Subsequence(a, b)
    decreases |c|
  {
    if c == [] {
      assert a + c == a;
    } else {
      SubsequenceShorter(a + c, b);
      assert (a + c)[..|a + c| - 1] == a + c[..|c| - 1];
      SubsequencePrefix(a, c[..|c| - 1], b);
    }
  }

  lemma ConnectionChangeKeeps(s: System, t: System)
    requires Inv(s)
    requires t == Step(s, Connect) || t == Step(s, Disconnect)
    ensures Inv(t)
  {
    NoZeros(s.w.InFlight());
    ChangedChannels(s, t);
    ChangeKeepsLedger1(s, t);
    ChangeKeepsLedger0(s, t);
  }

  lemma ChangedChannels(s: System, t: System)
    requires Channels(s) && Identifiers(s) && t.w == s.w && t.ids == s.ids && t.down == []
    requires if t.connected then t.up == s.w.InFlight() && Data(t.up) == t.up else t.up == []
    ensures Channels(t) && Identifiers(t)
  {
    assert t.w.queue[0..t.w.inflight] == s.w.InFlight() && t.w.queue[..0] == [];
  }

  lemma ChangeKeepsLedger1(s: System, t: System)
    requires Channels(s) && Ledger1(s) && Order1(s) && Channels(t)
    requires t.w == s.w && t.down == [] && t.acked1 == s.acked1 && t.delivered1 == s.delivered1 && t.published1 == s.published1
    ensures Ledger1(t) && Order1(t)
  {
    assert t.w.queue[..0] == [];
    SubsequencePrefix(s.acked1, Qos1(s.w.queue[..|s.down|]), s.delivered1);
    assert s.acked1 + [] == s.acked1;
    InOrderStill(s.delivered1, s.published1, s.published1, Through(s), Through(t));
  }

  lemma ChangeKeepsLedger0(s: System, t: System)
    requires Ledger0(s) && Zeros(t.up) == [] && t.delivered0 == s.delivered0 && t.published0 == s.published0
    ensures Ledger0(t)
  {
    SubsequencePrefix(s.delivered0, Zeros(s.up), s.published0);
    assert s.delivered0 + [] == s.delivered0;
  }

  lemma InitInv(window: nat, firstId: PacketId)
    ensures Inv(Init(window, firstId))
  {
    assert Tracks([], [], []) && Covers([], Through(Init(window, firstId)));
  }

  lemma StepKeeps(s: System, e: Event)
    requires Inv(s) && Permitted(s, e)
    ensures Inv(Step(s, e))
  {
    match e
    case Submitted(m, qos) =>
      if qos == 0 {
        Submitting0Keeps(s, m, Step(s, e));
      } else if qos <= 2 {
        SubmittingKeeps(s, m, qos);
      }
    case TakeId =>
    case ToReceiver => if s.up != [] { ReceivingKeeps(s); }
    case ToSender => if s.down != [] { AckingKeeps(s); }
    case Disconnect => ConnectionChangeKeeps(s, Step(s, e));
    case Connect => ConnectionChangeKeeps(s, Step(s, e));
  }

  lemma {:induction false} RunKeeps(s: System, es: seq<Event>)
    requires Inv(s) && Legal(s, es)
    ensures Inv(Run(s, es))
    decreases |es|
  {
    if es != [] {
      StepKeeps(s, es[0]);
      RunKeeps(Step(s, es[0]), es[1..]);
    }
  }

  // ---------- the theorems ----------

  /** QoS 2: in every run that takes safe packet ids, whatever is lost on the way, the messages handed
      to the receiving application are a prefix of the published ones (so each at most once and in
      order), and every other published message is still in the sending queue.  The receiver
      remembers only ids the sender still uses, so the sender's queue alone tells which ids are safe. */
  lemma ExactlyOnceInOrder(window: nat, firstId: PacketId, es: seq<Event>)
    requires Legal(Init(window, firstId), es)
    ensures var s := Run(Init(window, firstId), es);
            && s.delivered2 <= s.published2
            && s.published2 == s.delivered2 + Undelivered(s.w.queue, s.ids)
            && forall id :: id in s.ids ==> Uses2(s.w.queue, id)
  {
    InitInv(window, firstId);
    RunKeeps(Init(window, firstId), es);
  }

  /** QoS 1: messages leave the sending queue in publish order, each only after it was handed over;
      they are handed over for the first time in publish order (section 4.6 of MQTT Version 3.1.1);
      nothing is handed over that was not published. */
  lemma AtLeastOnceInOrder(window: nat, firstId: PacketId, es: seq<Event>)
    requires Legal(Init(window, firstId), es)
    ensures var s := Run(Init(window, firstId), es);
            && s.published1 == s.acked1 + Qos1(s.w.queue)
            && Subsequence(s.acked1, s.delivered1)
            && InOrder(s.delivered1, s.published1, |s.acked1|)
            && forall m :: m in s.delivered1 ==> m in s.published1
  {
    InitInv(window, firstId);
    RunKeeps(Init(window, firstId), es);
    var s := Run(Init(window, firstId), es);
    SubsequencePrefix(s.acked1, Qos1(s.w.queue[..|s.down|]), s.delivered1);
    var idx :| Tracks(idx, s.delivered1, s.published1) && Covers(idx, Through(s));
    InOrderStill(s.delivered1, s.published1, s.published1, Through(s), |s.acked1|);
    forall m | m in s.delivered1 ensures m in s.published1 {
      var i :| 0 <= i < |s.delivered1| && s.delivered1[i] == m;
      assert m == s.published1[idx[i]];
    }
  }

  /** QoS 0: at most once and in order. */
  lemma AtMostOnceInOrder(window: nat, firstId: PacketId, es: seq<Event>)
    requires Legal(Init(window, firstId), es)
    ensures var s := Run(Init(window, firstId), es);
            Subsequence(s.delivered0 + Zeros(s.up), s.published0) && Subsequence(s.delivered0, s.published0)
  {
    InitInv(window, firstId);
    RunKeeps(Init(window, firstId), es);
    var s := Run(Init(window, firstId), es);
    SubsequencePrefix(s.delivered0, Zeros(s.up), s.published0);
  }

  ghost predicate StaysUp(es: seq<Event>) {
    forall i :: 0 <= i < |es| ==> es[i] != Connect && es[i] != Disconnect
  }

  /** From s to t on one connection: what was published is handed over or still under way. */
  ghost predicate NoneLost(s: System, t: System) {
    && s.published0 <= t.published0
    && t.delivered0 + Zeros(t.up) == s.delivered0 + Zeros(s.up) + t.published0[|s.published0|..]
  }

  lemma NoneLostFurther(s: System, u: System, t: System)
    requires NoneLost(s, u) && NoneLost(u, t)
    ensures NoneLost(s, t)
  {
    var d, a, b := s.delivered0 + Zeros(s.up), u.published0[|s.published0|..], t.published0[|u.published0|..];
    assert t.published0[|s.published0|..] == a + b;
    assert d + a + b == d + (a + b);
  }

  /** While a connection stays up no QoS 0 message is lost: what is published on it is handed over or still under
      way, so with nothing under way all of it was handed over. */
  lemma {:induction false} NothingLostWhileUp(s: System, es: seq<Event>)
    requires Channels(s) && s.connected && StaysUp(es)
    ensures NoneLost(s, Run(s, es))
    ensures var t := Run(s, es);
            t.up == [] ==> t.delivered0 == s.delivered0 + Zeros(s.up) + t.published0[|s.published0|..]
    decreases |es|
  {
    if es == [] {
      assert s.published0[|s.published0|..] == [];
    } else {
      assert es[0] != Connect && es[0] != Disconnect;
      UpStep(s, es[0]);
      NothingLostWhileUp(Step(s, es[0]), es[1..]);
      NoneLostFurther(s, Step(s, es[0]), Run(s, es));
    }
    assert Run(s, es).delivered0 + [] == Run(s, es).delivered0;
  }

  lemma UpStep(s: System, e: Event)
    requires Channels(s) && s.connected && e != Connect && e != Disconnect
    ensures var u := Step(s, e);
            Channels(u) && u.connected && NoneLost(s, u)
  {
    var u := Step(s, e);
    match e
    case Submitted(m, qos) =>
      if qos == 0 {
        UnderWayAppend(s.up, [Publish(0, 0, m)]);
        AllZeros(Publish(0, 0, m));
        assert Data(s.up) + [] == Data(s.up);
        assert s.delivered0 + (Zeros(s.up) + [m]) == s.delivered0 + Zeros(s.up) + [m];
      } else if qos <= 2 {
        SubmittingKeepsChannels(s, u, Publish(s.nextId, qos, m));
      }
    case TakeId =>
    case ToReceiver =>
      if s.up != [] {
        if Pub(s.up[0], 0) {
          Receiving0Is(s);
        } else {
          ReceivingKeepsChannels(s);
        }
      }
    case ToSender =>
      if s.down != [] {
        AckingHead(s);
        AckedKeepsChannels(s, u);
      }
  }

  ghost predicate AllDelivered(s: System) {
    s.w.queue == [] && s.ids == {} && s.delivered2 == s.published2 && s.acked1 == s.published1
  }

  /** The protocol cannot hang: on a connection with nothing under way, nothing is left to do. */
  lemma Quiescent(s: System)
    requires Inv(s) && s.connected && s.w.size > 0
    requires s.up == [] && s.down == []
    ensures AllDelivered(s)
  {
    assert s.w.inflight == 0;
    assert forall id :: id in s.ids ==> Uses2(s.w.queue, id);
  }

  // ---------- progress ----------

  function Cost(p: Packet, answered: bool): nat {
    (if Pub(p, 2) then 4 else 2) - (if answered then 1 else 0)
  }

  /** Deliveries still needed for a queue whose first k packets are answered. */
  function QueueWork(q: seq<Packet>, k: nat): nat {
    if q == [] then 0 else Cost(q[0], k > 0) + QueueWork(q[1..], if k > 0 then k - 1 else 0)
  }

  function Work(s: System): nat
    requires Channels(s)
  {
    QueueWork(s.w.queue, |s.down|) + |Zeros(s.up)|
  }

  lemma {:induction false} QueueWorkSnoc(q: seq<Packet>, k: nat, p: Packet)
    requires k <= |q|
    ensures QueueWork(q + [p], k) == QueueWork(q, k) + Cost(p, false)
  {
    if q != [] {
      assert (q + [p])[1..] == q[1..] + [p];
      QueueWorkSnoc(q[1..], if k > 0 then k - 1 else 0, p);
    } else {
      assert [p][1..] == [];
    }
  }

  lemma {:induction false} QueueWorkAnswer(q: seq<Packet>, k: nat)
    requires k < |q|
    ensures QueueWork(q, k) == QueueWork(q, k + 1) + 1
  {
    if k > 0 {
      QueueWorkAnswer(q[1..], k - 1);
    }
  }

  ghost predicate CanDeliver(s: System, e: Event) {
    (e == ToReceiver && s.up != []) || (e == ToSender && s.down != [])
  }

  lemma ReceivingWorks(s: System, t: System)
    requires Channels(s) && Channels(t) && |s.down| < |s.w.queue|
    requires t.w == s.w && |t.down| == |s.down| + 1 && Zeros(t.up) == Zeros(s.up)
    ensures Work(t) == Work(s) - 1
  {
    QueueWorkAnswer(s.w.queue, |s.down|);
  }

  lemma AckingWorks(s: System, t: System)
    requires Channels(s) && Acked(s, t) && Channels(t) && Zeros(t.up) == Zeros(s.up)
    ensures Work(t) == Work(s) - 1
  {
    var q := s.w.queue;
    if Pub(q[0], 2) {
      QueueWorkSnoc(q[1..], |t.down|, PubRel(q[0].id));
    }
  }

  /** Every packet that arrives, in either direction, does exactly one unit of the remaining work. */
  lemma DeliveryWorks(s: System, e: Event)
    requires Inv(s) && CanDeliver(s, e)
    ensures Inv(Step(s, e)) && Work(Step(s, e)) == Work(s) - 1
  {
    var t := Step(s, e);
    StepKeeps(s, e);
    if e == ToReceiver && Pub(s.up[0], 0) {
      Receiving0Is(s);
    } else if e == ToReceiver {
      ReceivingKeepsChannels(s);
      ReceivingWorks(s, t);
    } else {
      AckingHead(s);
      AckedKeepsChannels(s, t);
      AckingWorks(s, t);
    }
  }

  ghost predicate OnlyDeliveries(s: System, es: seq<Event>)
    requires s.w.Ok()
    decreases |es|
  {
    es == [] || (CanDeliver(s, es[0]) && OnlyDeliveries(Step(s, es[0]), es[1..]))
  }

  /** Eventual delivery: once a connection stays up, the deliveries can come in any order; there are
      exactly Work(s) of them, more are possible as long as fewer have happened, and then
      every message published so far is delivered and acknowledged. */
  lemma {:induction false} EventuallyDelivered(s: System, es: seq<Event>)
    requires Inv(s) && s.connected && s.w.size > 0 && OnlyDeliveries(s, es)
    ensures |es| <= Work(s)
    ensures var t := Run(s, es);
            && t.published1 == s.published1 && t.published2 == s.published2
            && (|es| < Work(s) <==> CanDeliver(t, ToReceiver) || CanDeliver(t, ToSender))
            && (|es| == Work(s) ==> AllDelivered(t))
    decreases |es|
  {
    if es != [] {
      DeliveryWorks(s, es[0]);
      DeliveryKeeps(s, es[0]);
      EventuallyDelivered(Step(s, es[0]), es[1..]);
    } else if s.up == [] && s.down == [] {
      Quiescent(s);
    } else {
      DeliveryWorks(s, if s.up != [] then ToReceiver else ToSender);
    }
  }

  lemma DeliveryKeeps(s: System, e: Event)
    requires Inv(s) && CanDeliver(s, e)
    ensures var t := Step(s, e);
            t.published1 == s.published1 && t.published2 == s.published2 && t.connected == s.connected && t.w.size == s.w.size
  {
    if e == ToSender {
      AckingHead(s);
    }
  }
}
