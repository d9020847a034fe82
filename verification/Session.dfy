/** The packet handlers of a session (mqtt/mqtt_session.c) with the replies the codec sends before
    it calls them (codec/mqtt_proto_codec.c:192-209 and 240-246).

    Each handler is given twice: as a function on values, on which the protocol of module
    `Delivery` is built, and as a method of `Session`, which updates the session in place and
    returns the packets it writes to the connection. */
module Session {
  import opened Wrappers
  import opened MessageStore

  /** Sending side of one step: the window afterwards and what was written. */
  type Sending = (Window, seq<Packet>)

  function Successor(id: PacketId): PacketId {
    if id == 0xFFFF then 0 else id + 1
  }

  /** Puts a packet into the window, sending it if it fits. */
  function Submit(w: Window, p: Packet): (r: Sending)
    requires w.Ok()
    ensures r.0.Ok()
  {
    (Enqueue(w, p), if w.inflight < w.size then [p] else [])
  }

  function Acknowledged(w: Window, id: PacketId, kind: AckOf): (r: Sending)
    requires w.Ok()
    ensures r.0.Ok()
  {
    var (w', next) := Acknowledge(w, id, kind);
    (w', if next.Some? then [next.value] else [])
  }

  /** What the sender does with an acknowledgement.  A PUBREC always queues a PUBREL,
      even one that answers nothing. */
  function OnAck(w: Window, ack: Packet): (r: Sending)
    requires w.Ok()
    ensures r.0.Ok()
  {
    match ack
    case PubAck(id) => Acknowledged(w, id, OfPublish(1))
    case PubRec(id) =>
      var (w1, sent1) := Acknowledged(w, id, OfPublish(2));
      var (w2, sent2) := Submit(w1, PubRel(id));
      (w2, sent1 + sent2)
    case PubComp(id) => Acknowledged(w, id, OfPubRel)
    case _ => (w, [])
  }

  /** Receiving side of one step: the remembered QoS 2 ids afterwards, the messages handed to
      `on_new_message`, and the replies. */
  datatype Receipt = Receipt(ids: set<PacketId>, handed: seq<Message>, replies: seq<Packet>)

  function OnData(ids: set<PacketId>, p: Packet): Receipt {
    match p
    case Publish(id, qos, m) =>
      if qos == 2 then
        Receipt(ids + {id}, if id in ids then [] else [m], [PubRec(id)])
      else
        Receipt(ids, [m], if qos == 1 then [PubAck(id)] else [])
    case PubRel(id) => Receipt(ids - {id}, [], [PubComp(id)])
    case _ => Receipt(ids, [], [])
  }

  /** Every PUBLISH is handed over, whatever its QoS, except a QoS 2 one whose id is remembered; QoS 1 and 2 are answered
      with their own acknowledgement in any case, and only QoS 2 ids are remembered. */
  lemma HandsOver(ids: set<PacketId>, id: PacketId, qos: nat, m: Message)
    ensures var r := OnData(ids, Publish(id, qos, m));
            && (r.handed == [m] || r.handed == []) && (r.handed == [] <==> qos == 2 && id in ids)
            && (PubAck(id) in r.replies <==> qos == 1) && (PubRec(id) in r.replies <==> qos == 2)
            && |r.replies| == (if 1 <= qos <= 2 then 1 else 0)
            && (forall x: PacketId :: x in r.ids <==> x in ids || (qos == 2 && x == id))
  {
  }

  /** Acknowledgements that answer nothing in flight.  A PUBACK and a PUBCOMP without a QoS 1 PUBLISH or a PUBREL of
      their id change nothing; a PUBREC without a QoS 2 PUBLISH of its id still puts a PUBREL behind the queue. */
  lemma StrayAcks(w: Window, id: PacketId)
    requires w.Ok()
    ensures (forall i :: 0 <= i < w.inflight ==> !(w.queue[i].Publish? && w.queue[i].qos == 1 && w.queue[i].id == id)) ==>
              OnAck(w, PubAck(id)) == (w, [])
    ensures (forall i :: 0 <= i < w.inflight ==> !(w.queue[i].PubRel? && w.queue[i].id == id)) ==>
              OnAck(w, PubComp(id)) == (w, [])
    ensures (forall i :: 0 <= i < w.inflight ==> !(w.queue[i].Publish? && w.queue[i].qos == 2 && w.queue[i].id == id)) ==>
              var r := OnAck(w, PubRec(id));
              && r.0.queue == w.queue + [PubRel(id)] && r.0.size == w.size
              && (PubRel(id) in r.1 <==> w.inflight < w.size) && |r.1| <= 1
  {
    assert [] + [PubRel(id)] == [PubRel(id)];
  }

  class Session {
    const store: SendingQueue
    var nextPacketId: PacketId
    var qos2PacketIds: set<PacketId>
    var newMessages: seq<Message>   // calls of on_new_message, in order

    predicate Valid()
      reads this, store
    {
      store.Valid() && store.totalSize == |store.queue|
    }

    constructor (window: nat, firstId: PacketId)
      ensures Valid() && fresh(store)
      ensures store.View() == Window([], 0, window)
      ensures nextPacketId == firstId && qos2PacketIds == {} && newMessages == []
    {
      store := new SendingQueue(window);
      nextPacketId, qos2PacketIds, newMessages := firstId, {}, [];
    }

    /** tmq_session_publish; `storeOnly` is how the broker publishes to a closed session. */
    method Publish(m: Message, qos: nat, storeOnly: bool) returns (sent: seq<Packet>)
      requires Valid() && qos <= 2
      modifies this, store
      ensures Valid()
      ensures qos2PacketIds == old(qos2PacketIds) && newMessages == old(newMessages)
      ensures qos == 0 ==>
                && store.View() == old(store.View()) && nextPacketId == old(nextPacketId)
                && sent == if storeOnly then [] else [Packet.Publish(0, 0, m)]
      ensures qos > 0 ==>
                var r := Submit(old(store.View()), Packet.Publish(old(nextPacketId), qos, m));
                && store.View() == r.0 && nextPacketId == Successor(old(nextPacketId))
                && sent == if storeOnly then [] else r.1
    {
      var p := Packet.Publish(0, 0, m);
      var sendNow := true;
      if qos > 0 {
        p := Packet.Publish(nextPacketId, qos, m);
        nextPacketId := if nextPacketId == 0xFFFF then 0 else nextPacketId + 1;
        sendNow := store.StoreMessage(p);
      }
      sent := if sendNow && !storeOnly then [p] else [];
    }

    method AcknowledgePacket(id: PacketId, kind: AckOf) returns (sent: seq<Packet>)
      requires Valid()
      modifies store
      ensures Valid() && (store.View(), sent) == Acknowledged(old(store.View()), id, kind)
    {
      var next := store.AcknowledgeAndNext(id, kind);
      sent := if next.None? then [] else [next.value];
    }

    method HandlePubAck(id: PacketId) returns (sent: seq<Packet>)
      requires Valid()
      modifies store
      ensures Valid() && (store.View(), sent) == OnAck(old(store.View()), PubAck(id))
    {
      sent := AcknowledgePacket(id, OfPublish(1));
    }

    method HandlePubRec(id: PacketId) returns (sent: seq<Packet>)
      requires Valid()
      modifies store
      ensures Valid() && (store.View(), sent) == OnAck(old(store.View()), PubRec(id))
    {
      sent := AcknowledgePacket(id, OfPublish(2));
      var sendNow := store.StoreMessage(PubRel(id));
      sent := sent + if sendNow then [PubRel(id)] else [];
    }

    method HandlePubComp(id: PacketId) returns (sent: seq<Packet>)
      requires Valid()
      modifies store
      ensures Valid() && (store.View(), sent) == OnAck(old(store.View()), PubComp(id))
    {
      sent := AcknowledgePacket(id, OfPubRel);
    }

    /** The codec replies first, then the handler looks for a redelivery. */
    method HandlePublish(id: PacketId, qos: nat, m: Message) returns (replies: seq<Packet>)
      requires Valid()
      modifies this
      ensures Valid() && nextPacketId == old(nextPacketId)
      ensures var r := OnData(old(qos2PacketIds), Packet.Publish(id, qos, m));
              replies == r.replies && qos2PacketIds == r.ids && newMessages == old(newMessages) + r.handed
    {
      replies := if qos == 1 then [PubAck(id)] else if qos == 2 then [PubRec(id)] else [];
      if qos == 2 {
        if id !in qos2PacketIds {
          qos2PacketIds := qos2PacketIds + {id};
        } else {
          assert qos2PacketIds + {id} == qos2PacketIds;
          return;
        }
      }
      newMessages := newMessages + [m];
    }

    method HandlePubRel(id: PacketId) returns (replies: seq<Packet>)
      requires Valid()
      modifies this
      ensures Valid() && nextPacketId == old(nextPacketId) && newMessages == old(newMessages)
      ensures var r := OnData(old(qos2PacketIds), PubRel(id));
              replies == r.replies && qos2PacketIds == r.ids
    {
      replies := [PubComp(id)];
      qos2PacketIds := qos2PacketIds - {id};
    }

    /** tmq_session_start: what a new connection receives first. */
    method Start() returns (sent: seq<Packet>)
      requires Valid()
      ensures sent == store.View().InFlight()
    {
      sent := store.ResendMessages();
    }
  }
}
