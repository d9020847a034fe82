/** The in-memory message store: the sending queue of a session and its in-flight window
    (store/mqtt_msg_store.c, first part).

    The C code keeps a linked queue with a head, a tail pointer, a `pending_pointer` to the first
    packet that has not been sent, and a count of in-flight packets.  A list is a sequence here and
    a pointer into it is an index, -1 standing for NULL.  `Window` is the abstract value that the
    pointers have to agree with: the queue, and how many packets at its front are in flight. */
module MessageStore {
  import opened Wrappers

  type PacketId = n: nat | n < 0x1_0000

  datatype Message = Message(topic: string, payload: string, retain: bool)

  /** Everything the two ends of the QoS protocol exchange.  Only `Publish` and `PubRel`
      are ever kept in a sending queue. */
  datatype Packet =
    | Publish(id: PacketId, qos: nat, message: Message)
    | PubAck(id: PacketId)
    | PubRec(id: PacketId)
    | PubRel(id: PacketId)
    | PubComp(id: PacketId)

  datatype Window = Window(queue: seq<Packet>, inflight: nat, size: nat) {

    /** At most `size` packets are in flight, they are the first ones of the queue, and
        a packet waits only when the window is full. */
    predicate Ok() {
      && inflight <= size
      && inflight <= |queue|
      && (inflight < |queue| ==> inflight == size)
    }

    /** The packets that have been handed to the connection and are not acknowledged. */
    function InFlight(): seq<Packet>
      requires Ok()
    {
      queue[..inflight]
    }
  }

  /** What an acknowledgement names: the PUBLISH of the given QoS, or the PUBREL. */
  datatype AckOf = OfPublish(qos: nat) | OfPubRel

  predicate Answers(p: Packet, id: PacketId, kind: AckOf) {
    && p.id == id
    && match kind
       case OfPublish(qos) => p.Publish? && p.qos == qos
       case OfPubRel => p.PubRel?
  }

  /** Index of the first packet among q[from..n] that the acknowledgement answers; n if there is none. */
  function FirstAnswered(q: seq<Packet>, from: nat, n: nat, id: PacketId, kind: AckOf): (i: nat)
    requires from <= n <= |q|
    ensures from <= i <= n
    ensures i < n ==> Answers(q[i], id, kind)
    ensures forall j :: from <= j < i ==> !Answers(q[j], id, kind)
    decreases n - from
  {
    if from == n || Answers(q[from], id, kind) then from else FirstAnswered(q, from + 1, n, id, kind)
  }

  /** Storing a packet: it joins the queue and the window if there is room. */
  function Enqueue(w: Window, p: Packet): (r: Window)
    requires w.Ok()
    ensures r.Ok()
  {
    w.(queue := w.queue + [p], inflight := if w.inflight < w.size then w.inflight + 1 else w.inflight)
  }

  function Without<T>(s: seq<T>, i: nat): (r: seq<T>)
    requires i < |s|
    ensures |r| == |s| - 1
  {
    s[..i] + s[i + 1..]
  }

  /** An acknowledgement takes the first in-flight packet it answers out of the queue and lets
      the first waiting packet, if any, into the window; a stray one changes nothing. */
  function Acknowledge(w: Window, id: PacketId, kind: AckOf): (r: (Window, Option<Packet>))
    requires w.Ok()
    ensures r.0.Ok()
  {
    var i := FirstAnswered(w.queue, 0, w.inflight, id, kind);
    if i == w.inflight then (w, None)
    else if w.inflight < |w.queue| then (w.(queue := Without(w.queue, i)), Some(w.queue[w.inflight]))
    else (w.(queue := Without(w.queue, i), inflight := w.inflight - 1), None)
  }

  /** The mutable store together with the session's two window counters. */
  class SendingQueue {
    var queue: seq<Packet>
    var tail: int
    var pending: int
    var inflight: nat
    var totalSize: nat
    const window: nat

    function View(): Window
      reads this
    {
      Window(queue, inflight, window)
    }

    /** Where the pointers have to point for a given window. */
    predicate Valid()
      reads this
    {
      && View().Ok()
      && tail == |queue| - 1
      && pending == (if inflight < |queue| then inflight else -1)
    }

    constructor (window: nat)
      ensures Valid() && View() == Window([], 0, window) && totalSize == 0
    {
      this.window := window;
      queue, tail, pending, inflight, totalSize := [], -1, -1, 0, 0;
    }

    method StoreMessage(p: Packet) returns (sendNow: bool)
      requires Valid()
      modifies this
      ensures Valid()
      ensures View() == Enqueue(old(View()), p)
      ensures sendNow == (old(inflight) < window)
      ensures totalSize == old(totalSize) + 1
    {
      sendNow := true;
      if tail == -1 {
        queue, tail := [p], 0;
      } else {
        // linking behind the tail node cuts off whatever followed it
        queue := queue[..tail + 1] + [p];
        tail := tail + 1;
      }
      if inflight < window {
        inflight := inflight + 1;
      } else {
        sendNow := false;
        if pending == -1 {
          pending := tail;
        }
      }
      totalSize := totalSize + 1;
    }

    /** Takes the node at index p out of the list; pointers to later nodes keep their node. */
    method Unlink(p: nat)
      requires p < |queue| && tail < |queue| && p < inflight && pending != p
      modifies this
      ensures queue == Without(old(queue), p)
      ensures tail == if old(tail) == p then (if queue != [] then p - 1 else -1)
                      else if old(tail) > p then old(tail) - 1 else old(tail)
      ensures pending == if old(pending) > p then old(pending) - 1 else old(pending)
      ensures inflight == old(inflight) && totalSize == old(totalSize)
    {
      queue := queue[..p] + queue[p + 1..];
      if tail == p {
        tail := if queue != [] then p - 1 else -1;
      } else if tail > p {
        tail := tail - 1;
      }
      if pending > p {
        pending := pending - 1;
      }
    }

    method AcknowledgeAndNext(id: PacketId, kind: AckOf) returns (next: Option<Packet>)
      requires Valid() && |queue| <= totalSize
      modifies this
      ensures Valid()
      ensures (View(), next) == Acknowledge(old(View()), id, kind)
      ensures totalSize - |queue| == old(totalSize) - |old(queue)|
    {
      var isValidAck := false;
      var p := 0;
      while p < |queue| && p < inflight
        invariant p <= inflight && !isValidAck
        invariant unchanged(this)
        invariant FirstAnswered(queue, 0, inflight, id, kind) == FirstAnswered(queue, p, inflight, id, kind)
      {
        if !Answers(queue[p], id, kind) {
          p := p + 1;
          continue;
        }
        Unlink(p);
        inflight := inflight - 1;
        totalSize := totalSize - 1;
        isValidAck := true;
        break;
      }
      next := None;
      if pending != -1 && isValidAck {
        next := Some(queue[pending]);
        pending := if pending + 1 < |queue| then pending + 1 else -1;
        inflight := inflight + 1;
      }
    }

    /** Resending on a new connection walks from the head up to the pending pointer:
        exactly the in-flight packets, in order. */
    method ResendMessages() returns (sent: seq<Packet>)
      requires Valid()
      ensures sent == View().InFlight()
    {
      sent := [];
      var i := 0;
      while i < |queue| && i != pending
        invariant 0 <= i <= inflight
        invariant sent == queue[..i]
        decreases |queue| - i
      {
        sent := sent + [queue[i]];
        i := i + 1;
      }
    }
  }
}
