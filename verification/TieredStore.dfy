/** The MongoDB-backed message store (store/mqtt_msg_store.c, second part): a sending queue, a
    buffer and a database, moved by store and fetch tasks that a thread pool runs.

    The database is an ordered list: a store task appends its batch, a fetch task takes the oldest
    fifty.  A task is first performed by the pool and then reported to the session's thread;
    other events may come before, between and after.
    PUBREL packets always go to the sending queue, ahead of everything in the other tiers. */
module TieredStore {
  import opened Wrappers
  import opened MessageStore
  import opened Session

  const FETCH_LIMIT: nat := 50

  datatype Task = Write(batch: seq<Packet>) | Written | Fetch | Fetched(batch: seq<Packet>)

  datatype Tiers = Tiers(
    w: Window, buffer: seq<Packet>, totalSize: int, trigger: nat,
    hasBuffered: bool, hasStored: bool, storing: bool, fetching: bool, needStore: bool, needFetch: bool,
    tasks: seq<Task>, db: seq<Packet>)

  function New(window: nat, trigger: nat): Tiers {
    Tiers(Window([], 0, window), [], 0, trigger, false, false, false, false, false, false, [], [])
  }

  function InitiateStoring(t: Tiers): Tiers {
    t.(needStore := false, storing := true, tasks := t.tasks + [Write(t.buffer)],
       totalSize := t.totalSize - |t.buffer|, buffer := [], hasStored := true)
  }

  function InitiateFetching(t: Tiers): Tiers {
    t.(fetching := true, needFetch := false, tasks := t.tasks + [Fetch])
  }

  /** The step that a call of the store ends with, and the packets it sends. */
  type Outcome = (Tiers, seq<Packet>)

  /** continue_send_messages: sends from the head of a replaced queue while the window has room. */
  function ContinueSending(t: Tiers): Outcome {
    var room := if t.w.inflight < t.w.size then t.w.size - t.w.inflight else 0;
    var k := if room < |t.w.queue| then room else |t.w.queue|;
    (t.(w := t.w.(inflight := t.w.inflight + k)), t.w.queue[..k])
  }

  function UseBuffered(t: Tiers): Tiers {
    t.(w := t.w.(queue := t.buffer), buffer := [], hasBuffered := false)
  }

  function StoreMessage(t: Tiers, p: Packet): Outcome
    requires t.w.Ok()
  {
    if (t.totalSize < t.trigger / 2 && !t.hasBuffered) || p.PubRel? then
      var (w', sent) := Submit(t.w, p);
      (t.(w := w', totalSize := t.totalSize + 1), sent)
    else (BufferMessage(t, p), [])
  }

  function BufferMessage(t: Tiers, p: Packet): Tiers {
    var u := t.(totalSize := t.totalSize + 1, buffer := t.buffer + [p], hasBuffered := true);
    if u.totalSize >= u.trigger then
      if u.fetching || u.storing then u.(needStore := true) else InitiateStoring(u)
    else u
  }

  /** The store after the memory part of an acknowledgement. */
  function AfterMemory(t: Tiers, id: PacketId, kind: AckOf): Tiers
    requires t.w.Ok()
  {
    var w' := Acknowledged(t.w, id, kind).0;
    t.(w := w', totalSize := t.totalSize - (|t.w.queue| - |w'.queue|))
  }

  /** The rest of an acknowledgement: an emptied sending queue is filled again. */
  function Refill(u: Tiers): Outcome {
    if u.totalSize - |u.buffer| == 0 && u.hasBuffered then
      if u.hasStored then
        if u.fetching || u.storing then (u.(needFetch := true), []) else (InitiateFetching(u), [])
      else ContinueSending(UseBuffered(u))
    else (u, [])
  }

  function AcknowledgePacket(t: Tiers, id: PacketId, kind: AckOf): Outcome
    requires t.w.Ok()
  {
    var (u, more) := Refill(AfterMemory(t, id, kind));
    (u, Acknowledged(t.w, id, kind).1 + more)
  }

  function StoreDone(t: Tiers): Tiers {
    var u := t.(storing := false);
    if u.needStore then InitiateStoring(u) else if u.needFetch then InitiateFetching(u) else u
  }

  /** First part of fetch_message_done: what the sending queue becomes. */
  function TakeFetched(t: Tiers, batch: seq<Packet>): Outcome {
    var u := t.(fetching := false);
    if batch != [] then
      ContinueSending(u.(totalSize := u.totalSize + |batch|, w := u.w.(queue := batch)))
    else NothingFetched(u)
  }

  function NothingFetched(t: Tiers): Outcome {
    if t.buffer != [] then ContinueSending(UseBuffered(t.(hasStored := false)))
    else (t.(hasStored := false, hasBuffered := false), [])
  }

  /** Second part of fetch_message_done: the task that was waiting for it. */
  function NextTask(t: Tiers): Tiers {
    if t.needStore then
      if t.buffer != [] then InitiateStoring(t) else t.(needStore := false)
    else if t.needFetch then InitiateFetching(t)
    else t
  }

  // ---------- runs ----------

  datatype Event =
    | Submitted(p: Packet)
    | Acked(id: PacketId, kind: AckOf)
    | Perform(task: nat)    // the thread pool does the database work of a task
    | Report(task: nat)     // the session's thread processes its receipt
    | Restart               // tmq_session_start: a new connection gets the packets in flight again

  /** The history of the packets of one kind: those given to the store, those written to the connection for the
      first time, and what is left of the given ones when the acknowledged ones are taken out.  It does not
      look at the store: an acknowledgement takes out the first packet that it answers and that
      was sent and is left. */
  datatype Ledger = Ledger(given: seq<Packet>, sent: seq<Packet>, left: seq<Packet>)

  /** The store with the histories of the PUBLISH and of the PUBREL packets, and everything written again. */
  datatype State = State(t: Tiers, pubs: Ledger, rels: Ledger, resent: seq<Packet>)

  const EMPTY_LEDGER := Ledger([], [], [])

  function Init(window: nat, trigger: nat): State {
    State(New(window, trigger), EMPTY_LEDGER, EMPTY_LEDGER, [])
  }

  /** The PUBREL packets of a list, or the others. */
  function Of(q: seq<Packet>, rel: bool): seq<Packet> {
    if q == [] then []
    else if q[0].PubRel? == rel then [q[0]] + Of(q[1..], rel)
    else Of(q[1..], rel)
  }

  /** The acknowledgement names a packet in flight. */
  predicate Genuine(t: Tiers, id: PacketId, kind: AckOf)
    requires t.w.Ok()
  {
    FirstAnswered(t.w.queue, 0, t.w.inflight, id, kind) < t.w.inflight
  }

  /** How many of the packets that are left were sent. */
  function SentAndLeft(l: Ledger): (n: nat)
    ensures n <= |l.left|
  {
    var waiting := |l.given| - |l.sent|;
    if 0 <= waiting <= |l.left| then |l.left| - waiting else 0
  }

  function Answered(l: Ledger, id: PacketId, kind: AckOf): Ledger {
    var i := FirstAnswered(l.left, 0, SentAndLeft(l), id, kind);
    if i < SentAndLeft(l) then l.(left := Without(l.left, i)) else l
  }

  function Given(l: Ledger, p: Packet): Ledger {
    l.(given := l.given + [p], left := l.left + [p])
  }

  function Sent(s: State, sent: seq<Packet>): State {
    s.(pubs := s.pubs.(sent := s.pubs.sent + Of(sent, false)), rels := s.rels.(sent := s.rels.sent + Of(sent, true)))
  }

  function Min(a: nat, b: nat): nat { if a < b then a else b }

  function Performed(t: Tiers, i: nat): Tiers
    requires i < |t.tasks|
  {
    match t.tasks[i]
    case Write(batch) => t.(tasks := t.tasks[i := Written], db := t.db + batch)
    case Fetch =>
      var n := Min(FETCH_LIMIT, |t.db|);
      t.(tasks := t.tasks[i := Fetched(t.db[..n])], db := t.db[n..])
    case _ => t
  }

  function Reported(t: Tiers, i: nat): Outcome
    requires i < |t.tasks|
  {
    var rest := t.(tasks := Without(t.tasks, i));
    match t.tasks[i]
    case Written => (StoreDone(rest), [])
    case Fetched(batch) => var (u, sent) := TakeFetched(rest, batch); (NextTask(u), sent)
    case _ => (t, [])
  }

  /** Events that cannot happen leave the state as it is. */
  function Step(s: State, e: Event): State
    requires s.t.w.Ok()
  {
    match e
    case Submitted(p) =>
      if !p.Publish? && !p.PubRel? then s else
        var (t, sent) := StoreMessage(s.t, p);
        var u := if p.PubRel? then s.(t := t, rels := Given(s.rels, p)) else s.(t := t, pubs := Given(s.pubs, p));
        Sent(u, sent)
    case Acked(id, kind) =>
      var (t, sent) := AcknowledgePacket(s.t, id, kind);
      Sent(s.(t := t, pubs := Answered(s.pubs, id, kind), rels := Answered(s.rels, id, kind)), sent)
    case Perform(i) => if i < |s.t.tasks| then s.(t := Performed(s.t, i)) else s
    case Report(i) =>
      if i < |s.t.tasks| then
        var (t, sent) := Reported(s.t, i);
        Sent(s.(t := t), sent)
      else s
    case Restart => s.(resent := s.resent + s.t.w.InFlight())
  }

  /** Acknowledgements are genuine, or at least do not arrive while a fetch is outstanding; a PUBREL is not stored
      while a fetch is outstanding or asked for. */
  predicate Allowed(t: Tiers, e: Event)
    requires t.w.Ok()
  {
    && (e.Acked? ==> Genuine(t, e.id, e.kind) || !t.fetching)
    && (e.Submitted? && e.p.PubRel? ==> !t.fetching && !t.needFetch)
  }

  // ---------- the invariant ----------

  function InTransit(tasks: seq<Task>): seq<Packet> {
    if |tasks| == 1 && tasks[0].Fetched? then tasks[0].batch else []
  }

  function BeingWritten(tasks: seq<Task>): seq<Packet> {
    if |tasks| == 1 && tasks[0].Write? then tasks[0].batch else []
  }

  /** What has not been taken into the sending queue yet, oldest first. */
  function Backlog(t: Tiers): seq<Packet> {
    InTransit(t.tasks) + t.db + BeingWritten(t.tasks) + t.buffer
  }

  function Contents(t: Tiers): seq<Packet> {
    t.w.queue + Backlog(t)
  }

  /** What has not been sent yet, oldest first. */
  function Waiting(t: Tiers): seq<Packet>
    requires t.w.Ok()
  {
    t.w.queue[t.w.inflight..] + Backlog(t)
  }

  /** How the six flags, the tasks and the tiers hang together. */
  ghost predicate Flags(t: Tiers) {
    && t.w.Ok() && t.trigger >= 2
    && t.totalSize == |t.w.queue| + |t.buffer|
    && |t.tasks| <= 1
    && (t.storing <==> |t.tasks| == 1 && (t.tasks[0].Write? || t.tasks[0].Written?))
    && (t.fetching <==> |t.tasks| == 1 && (t.tasks[0].Fetch? || t.tasks[0].Fetched?))
    && (t.tasks == [Fetched([])] ==> t.db == [])
    && (t.hasStored ==> t.hasBuffered)
    && (!t.hasStored ==> !t.storing && !t.fetching && t.db == [])
    && (t.hasBuffered && !t.hasStored ==> t.buffer != [])
    && (!t.hasBuffered ==> t.buffer == [])
    && (t.fetching ==> t.w.queue == [] && !t.needFetch)
    && (t.needFetch ==> t.storing && t.w.queue == [])
    && (t.needStore ==> t.tasks != [] && t.buffer != [])
    && (|t.buffer| < t.trigger || t.needStore)
    && (t.hasBuffered && t.w.queue == [] ==> t.fetching || (t.storing && t.needFetch))
  }

  /** PUBLISHs and PUBRELs, and no PUBREL outside the sending queue. */
  ghost predicate Placed(t: Tiers) {
    && (forall i :: 0 <= i < |Contents(t)| ==> Contents(t)[i].Publish? || Contents(t)[i].PubRel?)
    && (forall i :: |t.w.queue| <= i < |Contents(t)| ==> Contents(t)[i].Publish?)
  }

  /** The tiers hold what is left, and what was not sent is waiting. */
  ghost predicate Balanced(l: Ledger, t: Tiers, rel: bool)
    requires t.w.Ok()
  {
    l.left == Of(Contents(t), rel) && l.given == l.sent + Of(Waiting(t), rel)
  }

  ghost predicate Inv(s: State) {
    Flags(s.t) && Placed(s.t) && Balanced(s.pubs, s.t, false) && Balanced(s.rels, s.t, true)
  }

  // ---------- packets of one kind ----------

  lemma {:induction false} OfAppend(a: seq<Packet>, b: seq<Packet>, rel: bool)
    ensures Of(a + b, rel) == Of(a, rel) + Of(b, rel)
  {
    if a == [] {
      assert a + b == b;
    } else {
      assert (a + b)[1..] == a[1..] + b;
      OfAppend(a[1..], b, rel);
    }
  }

  lemma OfOne(p: Packet, rel: bool)
    ensures Of([p], rel) == if p.PubRel? == rel then [p] else []
  {
    assert [p][1..] == [];
  }

  lemma {:induction false} OfMembers(q: seq<Packet>, rel: bool)
    ensures forall i :: 0 <= i < |Of(q, rel)| ==> Of(q, rel)[i] in q
  {
    if q != [] {
      OfMembers(q[1..], rel);
    }
  }

  lemma {:induction false} OfAll(q: seq<Packet>, rel: bool)
    requires forall i :: 0 <= i < |q| ==> q[i].PubRel? == rel
    ensures Of(q, rel) == q && Of(q, !rel) == []
  {
    if q != [] {
      OfAll(q[1..], rel);
    }
  }

  lemma {:induction false} OfBoth(q: seq<Packet>)
    ensures |Of(q, false)| + |Of(q, true)| == |q|
  {
    if q != [] {
      OfBoth(q[1..]);
    }
  }

  /** Taking one packet out of a list takes it out of the packets of its kind. */
  lemma OfWithout(q: seq<Packet>, i: nat, rel: bool)
    requires i < |q|
    ensures var j := |Of(q[..i], rel)|;
            if q[i].PubRel? == rel then
              j < |Of(q, rel)| && Of(q, rel)[j] == q[i] && Of(Without(q, i), rel) == Without(Of(q, rel), j)
            else Of(Without(q, i), rel) == Of(q, rel)
  {
    var a, b := q[..i], q[i + 1..];
    assert q == a + ([q[i]] + b);
    OfAppend(a, [q[i]] + b, rel);
    OfAppend([q[i]], b, rel);
    OfOne(q[i], rel);
    OfAppend(a, b, rel);
  }

  // ---------- every event keeps it ----------

  /** Two stores of which the second is reached by sending `sent`. */
  ghost predicate Conserves(t: Tiers, u: Tiers, sent: seq<Packet>) {
    && t.w.Ok() && u.w.Ok() && |t.w.queue| <= |u.w.queue|
    && Contents(u) == Contents(t) && sent + Waiting(u) == Waiting(t)
  }

  lemma StoringKeepsFlags(t: Tiers, p: Packet)
    requires Flags(t) && p.Publish?
    ensures Flags(StoreMessage(t, p).0)
  {
  }

  lemma StoringDirectly(t: Tiers, p: Packet)
    requires Flags(t) && !t.hasBuffered
    ensures Backlog(t) == []
    ensures var (w', sent) := Submit(t.w, p);
            w'.queue == t.w.queue + [p] && sent + w'.queue[w'.inflight..] == t.w.queue[t.w.inflight..] + [p]
  {
  }

  /** Buffering a packet, and handing the whole buffer to a store task if that is started. */
  lemma Buffering(t: Tiers, p: Packet)
    requires Flags(t)
    ensures var u := t.(buffer := t.buffer + [p]);
            && Backlog(u) == Backlog(t) + [p]
            && (t.tasks == [] ==> Backlog(InitiateStoring(u)) == Backlog(t) + [p])
  {
  }

  lemma BufferedContents(t: Tiers, u: Tiers, p: Packet)
    requires t.w.Ok() && u.w == t.w && Backlog(u) == Backlog(t) + [p]
    ensures Contents(u) == Contents(t) + [p] && [] + Waiting(u) == Waiting(t) + [p]
  {
    var b, q := Backlog(t), t.w.queue;
    assert q + (b + [p]) == q + b + [p];
    assert q[t.w.inflight..] + (b + [p]) == q[t.w.inflight..] + b + [p];
  }

  lemma EmptyBacklog(t: Tiers)
    requires t.w.Ok() && Backlog(t) == []
    ensures Contents(t) == t.w.queue && Waiting(t) == t.w.queue[t.w.inflight..]
  {
  }

  lemma StoringKeeps(t: Tiers, p: Packet)
    requires Flags(t) && p.Publish?
    ensures var (u, sent) := StoreMessage(t, p);
            && u.w.Ok() && |t.w.queue| <= |u.w.queue|
            && Contents(u) == Contents(t) + [p] && sent + Waiting(u) == Waiting(t) + [p]
  {
    var (u, sent) := StoreMessage(t, p);
    if t.totalSize < t.trigger / 2 && !t.hasBuffered {
      StoringDirectly(t, p);
      assert Backlog(u) == Backlog(t);
      EmptyBacklog(t);
      EmptyBacklog(u);
    } else {
      Buffering(t, p);
      assert sent == [];
      BufferedContents(t, u, p);
    }
  }

  /** A PUBREL joins the sending queue, ahead of the other tiers. */
  lemma StoringRel(t: Tiers, p: Packet)
    requires Flags(t) && p.PubRel?
    ensures var (u, sent) := StoreMessage(t, p);
            && u.w.Ok() && u == t.(w := u.w, totalSize := t.totalSize + 1) && u.w.queue == t.w.queue + [p]
            && sent + u.w.queue[u.w.inflight..] == t.w.queue[t.w.inflight..] + [p]
            && (!t.fetching && !t.needFetch ==> Flags(u))
  {
  }

  lemma Resend(t: Tiers)
    requires t.w.inflight == 0
    ensures var (u, sent) := ContinueSending(t);
            && u.w.Ok() && u == t.(w := t.w.(inflight := |sent|)) && |sent| <= |t.w.queue|
            && (t.w.queue != [] && t.w.size > 0 ==> |sent| > 0)
            && sent + t.w.queue[|sent|..] == t.w.queue
  {
  }

  /** An acknowledgement sends exactly the packets that enter the window. */
  lemma AckedQueue(w: Window, id: PacketId, kind: AckOf, i: nat)
    requires w.Ok() && i == FirstAnswered(w.queue, 0, w.inflight, id, kind) < w.inflight
    ensures var (w', sent) := Acknowledged(w, id, kind);
            w'.queue == Without(w.queue, i) && sent + w'.queue[w'.inflight..] == w.queue[w.inflight..]
  {
  }

  lemma RefillKeepsFlags(t: Tiers, u: Tiers)
    requires Flags(t) && t.w.queue != []
    requires u.w.Ok() && |u.w.queue| == |t.w.queue| - 1
    requires u == t.(w := u.w, totalSize := t.totalSize - 1)
    ensures Flags(Refill(u).0)
  {
    if u.w.queue == [] && t.hasBuffered && !t.hasStored {
      Resend(UseBuffered(u));
    }
  }

  lemma AckingKeepsFlags(t: Tiers, id: PacketId, kind: AckOf)
    requires Flags(t) && Genuine(t, id, kind)
    ensures Flags(AcknowledgePacket(t, id, kind).0)
  {
    AckedQueue(t.w, id, kind, FirstAnswered(t.w.queue, 0, t.w.inflight, id, kind));
    RefillKeepsFlags(t, AfterMemory(t, id, kind));
  }

  lemma RefillConserves(t: Tiers, u: Tiers)
    requires Flags(t) && t.w.queue != []
    requires u.w.Ok() && |u.w.queue| == |t.w.queue| - 1
    requires u == t.(w := u.w, totalSize := t.totalSize - 1)
    ensures Conserves(u, Refill(u).0, Refill(u).1)
  {
    if u.w.queue == [] && t.hasBuffered && !t.hasStored {
      QueueReplaced(u, UseBuffered(u));
    } else {
      SameQueueConserves(u, Refill(u).0);
    }
  }

  lemma RemovedContents(t: Tiers, u: Tiers, i: nat, sent: seq<Packet>)
    requires t.w.Ok() && u.w.Ok() && i < |t.w.queue| && u.w.queue == Without(t.w.queue, i)
    requires sent + u.w.queue[u.w.inflight..] == t.w.queue[t.w.inflight..] && Backlog(u) == Backlog(t)
    ensures Contents(u) == Without(Contents(t), i) && sent + Waiting(u) == Waiting(t)
  {
    WithoutFront(t.w.queue, Backlog(t), i);
    Assoc(sent, u.w.queue[u.w.inflight..], Backlog(t));
  }

  lemma WithoutFront(q: seq<Packet>, b: seq<Packet>, i: nat)
    requires i < |q|
    ensures Without(q, i) + b == Without(q + b, i)
  {
  }

  lemma AckingKeeps(t: Tiers, id: PacketId, kind: AckOf, i: nat)
    requires Flags(t) && i == FirstAnswered(t.w.queue, 0, t.w.inflight, id, kind) < t.w.inflight
    ensures var (u, sent) := AcknowledgePacket(t, id, kind);
            && u.w.Ok() && |t.w.queue| - 1 <= |u.w.queue|
            && Contents(u) == Without(Contents(t), i) && sent + Waiting(u) == Waiting(t)
  {
    var v, sent := AfterMemory(t, id, kind), Acknowledged(t.w, id, kind).1;
    AckedQueue(t.w, id, kind, i);
    RemovedContents(t, v, i, sent);
    RefillConserves(t, v);
    var (u, more) := Refill(v);
    Assoc(sent, more, Waiting(u));
  }

  lemma PerformedBacklog(t: Tiers)
    requires |t.tasks| == 1
    ensures Backlog(Performed(t, 0)) == Backlog(t)
  {
    match t.tasks[0]
    case Fetch =>
      var n := Min(FETCH_LIMIT, |t.db|);
      assert t.db[..n] + t.db[n..] == t.db == [] + t.db;
    case Write(batch) =>
      Assoc([], t.db, batch);
      assert [] + (t.db + batch) + [] == [] + (t.db + batch);
    case _ =>
  }

  lemma SameQueueConserves(t: Tiers, u: Tiers)
    requires t.w.Ok() && u.w == t.w && Backlog(u) == Backlog(t)
    ensures Conserves(t, u, [])
  {
    assert [] + Waiting(t) == Waiting(t);
  }

  lemma PerformingKeeps(t: Tiers, i: nat)
    requires Flags(t) && i < |t.tasks|
    ensures Flags(Performed(t, i)) && Conserves(t, Performed(t, i), [])
  {
    PerformedBacklog(t);
    SameQueueConserves(t, Performed(t, i));
  }

  lemma StoreDoneKeeps(t: Tiers)
    requires Flags(t) && t.tasks == [Written]
    ensures var u := StoreDone(t.(tasks := [])); Flags(u) && u.w == t.w && Backlog(u) == Backlog(t)
  {
  }

  /** Replacing an empty sending queue by the front of the backlog. */
  lemma QueueReplaced(t: Tiers, v: Tiers)
    requires t.w.Ok() && t.w.queue == [] && v.w.inflight == 0 && v.w.size == t.w.size
    requires v.w.queue + Backlog(v) == Backlog(t)
    ensures var (u, sent) := ContinueSending(v); Conserves(t, u, sent)
  {
    Resend(v);
    var (u, sent) := ContinueSending(v);
    assert Backlog(u) == Backlog(v);
    Assoc(sent, u.w.queue[u.w.inflight..], Backlog(v));
    NothingBefore(Backlog(t));
  }

  lemma NothingBefore(b: seq<Packet>)
    ensures [] + b == b
  {
  }

  lemma TakingKeeps(t: Tiers, batch: seq<Packet>)
    requires Flags(t) && t.tasks == [Fetched(batch)]
    ensures var (u, sent) := TakeFetched(t.(tasks := []), batch); Conserves(t, u, sent)
  {
    var r := t.(tasks := [], fetching := false);
    if batch != [] {
      var v := r.(totalSize := r.totalSize + |batch|, w := r.w.(queue := batch));
      assert batch + Backlog(v) == Backlog(t);
      QueueReplaced(t, v);
    } else {
      assert Backlog(t) == t.buffer;
      if t.buffer != [] {
        QueueReplaced(t, UseBuffered(r.(hasStored := false)));
      }
    }
  }

  lemma NextTaskConserves(t: Tiers)
    requires t.w.Ok() && t.tasks == []
    ensures var u := NextTask(t); u.w == t.w && Backlog(u) == Backlog(t)
  {
  }

  lemma FetchDoneKeepsFlags(t: Tiers, batch: seq<Packet>)
    requires Flags(t) && t.tasks == [Fetched(batch)]
    ensures Flags(NextTask(TakeFetched(t.(tasks := []), batch).0))
  {
    var r := t.(tasks := [], fetching := false);
    if batch != [] {
      Resend(r.(totalSize := r.totalSize + |batch|, w := r.w.(queue := batch)));
    } else if t.buffer != [] {
      Resend(UseBuffered(r.(hasStored := false)));
    }
  }

  lemma ReportingKeeps(t: Tiers, i: nat)
    requires Flags(t) && i < |t.tasks|
    ensures var (u, sent) := Reported(t, i); Flags(u) && Conserves(t, u, sent)
  {
    assert i == 0 && t.tasks == [t.tasks[0]] && Without(t.tasks, i) == [];
    match t.tasks[i]
    case Written =>
      StoreDoneKeeps(t);
    case Fetched(batch) =>
      TakingKeeps(t, batch);
      FetchDoneKeepsFlags(t, batch);
      NextTaskConserves(TakeFetched(t.(tasks := []), batch).0);
    case _ =>
  }

  /** A stray acknowledgement changes nothing unless a fetch is outstanding; then it asks for
      a second fetch, which will be answered when the sending queue is in use again. */
  lemma StrayAck(t: Tiers, id: PacketId, kind: AckOf)
    requires Flags(t) && !Genuine(t, id, kind)
    ensures AcknowledgePacket(t, id, kind) == (t.(needFetch := t.needFetch || t.fetching), [])
  {
    var u := AfterMemory(t, id, kind);
    assert u == t;
    var sent := Acknowledged(t.w, id, kind).1;
    assert sent == [] && Refill(u).1 == [] && sent + Refill(u).1 == [];
  }

  lemma Assoc<T>(a: seq<T>, b: seq<T>, c: seq<T>)
    ensures a + b + c == a + (b + c)
  {
  }

  lemma LedgerSends(l: Ledger, t: Tiers, u: Tiers, rel: bool, sent: seq<Packet>)
    requires t.w.Ok() && u.w.Ok() && sent + Waiting(u) == Waiting(t) && l.given == l.sent + Of(Waiting(t), rel)
    ensures l.given == l.sent + Of(sent, rel) + Of(Waiting(u), rel)
  {
    OfAppend(sent, Waiting(u), rel);
    Assoc(l.sent, Of(sent, rel), Of(Waiting(u), rel));
  }

  lemma ConservedKeeps(s: State, u: Tiers, sent: seq<Packet>)
    requires Inv(s) && Flags(u) && Conserves(s.t, u, sent)
    ensures Inv(Sent(s.(t := u), sent))
  {
    LedgerSends(s.pubs, s.t, u, false, sent);
    LedgerSends(s.rels, s.t, u, true, sent);
  }

  lemma LedgerGiven(l: Ledger, t: Tiers, u: Tiers, rel: bool, p: Packet, sent: seq<Packet>)
    requires t.w.Ok() && u.w.Ok() && Balanced(l, t, rel)
    requires Contents(u) == Contents(t) + [p] && sent + Waiting(u) == Waiting(t) + [p]
    ensures var g := if p.PubRel? == rel then Given(l, p) else l;
            Balanced(g.(sent := l.sent + Of(sent, rel)), u, rel)
  {
    OfAppend(Contents(t), [p], rel);
    OfAppend(Waiting(t), [p], rel);
    OfAppend(sent, Waiting(u), rel);
    OfOne(p, rel);
    Assoc(l.sent, Of(sent, rel), Of(Waiting(u), rel));
    Assoc(l.sent, Of(Waiting(t), rel), Of([p], rel));
    assert l.given + [] == l.given && l.left + [] == l.left;
  }

  lemma SubmitStepKeeps(s: State, p: Packet)
    requires Inv(s) && p.Publish?
    ensures Inv(Step(s, Submitted(p)))
  {
    StoringKeepsFlags(s.t, p);
    StoringKeeps(s.t, p);
    var r := StoreMessage(s.t, p);
    GivenKeeps(s, p, r.0, r.1);
  }

  lemma GivenKeeps(s: State, p: Packet, u: Tiers, sent: seq<Packet>)
    requires Inv(s) && p.Publish? && Flags(u) && |s.t.w.queue| <= |u.w.queue|
    requires Contents(u) == Contents(s.t) + [p] && sent + Waiting(u) == Waiting(s.t) + [p]
    ensures Inv(Sent(s.(t := u, pubs := Given(s.pubs, p)), sent))
  {
    LedgerGiven(s.pubs, s.t, u, false, p, sent);
    LedgerGiven(s.rels, s.t, u, true, p, sent);
  }

  /** The packet is put in behind the queue: a, the packet, b. */
  lemma LedgerInserted(l: Ledger, p: Packet, rel: bool, a: seq<Packet>, wait: seq<Packet>, b: seq<Packet>,
                       sent: seq<Packet>, wait': seq<Packet>)
    requires l.left == Of(a + b, rel) && l.given == l.sent + Of(wait + b, rel) && sent + wait' == wait + [p]
    requires Of(b, true) == [] && p.PubRel?
    ensures var g := if rel then Given(l, p) else l;
            g.left == Of(a + [p] + b, rel) && g.given == l.sent + Of(sent, rel) + Of(wait' + b, rel)
  {
    var one := Of([p], rel);
    OfOne(p, rel);
    OfThree(a, p, b, rel);
    OfAppend(wait, b, rel);
    OfAppend(wait, [p], rel);
    OfAppend(sent, wait', rel);
    OfAppend(wait', b, rel);
    InsertedSums(l.sent, Of(sent, rel), Of(wait', rel), Of(wait, rel), one, Of(b, rel));
    assert l.given + [] == l.given;
  }

  lemma OfThree(a: seq<Packet>, p: Packet, b: seq<Packet>, rel: bool)
    requires Of(b, true) == [] && p.PubRel?
    ensures Of(a + [p] + b, rel) == Of(a + b, rel) + if rel then [p] else []
  {
    OfAppend(a, b, rel);
    OfAppend(a + [p], b, rel);
    OfAppend(a, [p], rel);
    OfOne(p, rel);
    if rel {
      assert Of(a, rel) + [] == Of(a, rel) && Of(a, rel) + [p] + [] == Of(a, rel) + [p];
    } else {
      assert Of(a, rel) + [] + Of(b, rel) == Of(a, rel) + Of(b, rel) + [];
    }
  }

  lemma InsertedSums(x: seq<Packet>, sent: seq<Packet>, wait': seq<Packet>, wait: seq<Packet>, one: seq<Packet>, b: seq<Packet>)
    requires sent + wait' == wait + one && (one == [] || b == [])
    ensures x + sent + (wait' + b) == x + (wait + b) + one
  {
    assert x + sent + (wait' + b) == x + (sent + wait') + b;
    if one == [] {
      assert wait + one == wait && x + (wait + b) + [] == x + (wait + b);
    } else {
      assert wait + b == wait && x + (wait + one) + [] == x + wait + one;
    }
  }

  lemma RelStepKeeps(s: State, p: Packet)
    requires Inv(s) && p.PubRel? && !s.t.fetching && !s.t.needFetch
    ensures Inv(Step(s, Submitted(p)))
  {
    StoringRel(s.t, p);
    var (u, sent) := StoreMessage(s.t, p);
    RelLedgers(s, p, u, sent);
  }

  lemma RelLedgers(s: State, p: Packet, u: Tiers, sent: seq<Packet>)
    requires Flags(s.t) && Placed(s.t) && Balanced(s.pubs, s.t, false) && Balanced(s.rels, s.t, true) && p.PubRel?
    requires u.w.Ok() && u == s.t.(w := u.w, totalSize := s.t.totalSize + 1) && u.w.queue == s.t.w.queue + [p]
    requires sent + u.w.queue[u.w.inflight..] == s.t.w.queue[s.t.w.inflight..] + [p]
    ensures var v := Sent(s.(t := u, rels := Given(s.rels, p)), sent);
            Placed(u) && Balanced(v.pubs, u, false) && Balanced(v.rels, u, true)
  {
    var q, b := s.t.w.queue, Backlog(s.t);
    RelPlaced(s.t, u, p);
    LedgerInserted(s.pubs, p, false, q, q[s.t.w.inflight..], b, sent, u.w.queue[u.w.inflight..]);
    LedgerInserted(s.rels, p, true, q, q[s.t.w.inflight..], b, sent, u.w.queue[u.w.inflight..]);
  }

  lemma RelPlaced(t: Tiers, u: Tiers, p: Packet)
    requires Placed(t) && p.PubRel? && u.tasks == t.tasks && u.db == t.db && u.buffer == t.buffer && u.w.queue == t.w.queue + [p]
    ensures Placed(u) && Backlog(u) == Backlog(t) && Contents(u) == t.w.queue + [p] + Backlog(t)
    ensures Of(Backlog(t), true) == []
  {
    BacklogPublishes(t);
    InsertedKinds(t.w.queue, p, Backlog(t), Contents(t), Contents(u));
  }

  lemma InsertedKinds(q: seq<Packet>, p: Packet, b: seq<Packet>, c: seq<Packet>, c': seq<Packet>)
    requires c == q + b && c' == q + [p] + b && p.PubRel? && AllPublish(b)
    requires forall i :: 0 <= i < |c| ==> c[i].Publish? || c[i].PubRel?
    ensures forall i :: 0 <= i < |c'| ==> c'[i].Publish? || c'[i].PubRel?
    ensures forall i :: |q| + 1 <= i < |c'| ==> c'[i].Publish?
  {
    forall i | 0 <= i < |c'|
      ensures c'[i].Publish? || c'[i].PubRel?
      ensures |q| + 1 <= i ==> c'[i].Publish?
    {
      if i < |q| {
        assert c'[i] == c[i];
      } else if i > |q| {
        assert c'[i] == b[i - |q| - 1];
      }
    }
  }

  /** FirstAnswered is determined by what it promises. */
  lemma {:induction false} AnswerIs(q: seq<Packet>, from: nat, n: nat, j: nat, id: PacketId, kind: AckOf)
    requires from <= j <= n <= |q| && (forall k :: from <= k < j ==> !Answers(q[k], id, kind))
    requires j < n ==> Answers(q[j], id, kind)
    ensures FirstAnswered(q, from, n, id, kind) == j
    decreases n - from
  {
    if from < j {
      AnswerIs(q, from + 1, n, j, id, kind);
    }
  }

  /** Of the packets of one kind, as many were sent and are left as are in flight. */
  lemma InFlightCount(l: Ledger, t: Tiers, rel: bool)
    requires t.w.Ok() && Balanced(l, t, rel)
    ensures SentAndLeft(l) == |Of(t.w.InFlight(), rel)|
    ensures l.left[..SentAndLeft(l)] == Of(t.w.InFlight(), rel)
  {
    var a := t.w.InFlight();
    assert Contents(t) == a + Waiting(t);
    OfAppend(a, Waiting(t), rel);
  }

  /** The history takes out what the store takes out. */
  lemma TakesOutTheSame(l: Ledger, t: Tiers, rel: bool, id: PacketId, kind: AckOf)
    requires t.w.Ok() && Balanced(l, t, rel)
    ensures var i := FirstAnswered(t.w.queue, 0, t.w.inflight, id, kind);
            Answered(l, id, kind) == if i < t.w.inflight then l.(left := Of(Without(Contents(t), i), rel)) else l
  {
    var q, n := t.w.queue, t.w.inflight;
    var i := FirstAnswered(q, 0, n, id, kind);
    InFlightCount(l, t, rel);
    var m := SentAndLeft(l);
    if i < n && q[i].PubRel? == rel {
      AnsweredAt(l, t, rel, id, kind, i);
    } else {
      OfMembers(q[..n], rel);
      forall k | 0 <= k < m ensures !Answers(l.left[k], id, kind) {
        assert l.left[..m][k] in q[..n];
        OfKind(q[..n], rel, k);
        var j :| 0 <= j < n && q[..n][j] == l.left[k];
        assert q[j] == l.left[k];
      }
      AnswerIs(l.left, 0, m, m, id, kind);
      if i < n {
        assert Contents(t)[i] == q[i];
        OfWithout(Contents(t), i, rel);
      }
    }
  }

  lemma {:induction false} OfKind(q: seq<Packet>, rel: bool, k: nat)
    requires k < |Of(q, rel)|
    ensures Of(q, rel)[k].PubRel? == rel
  {
    if q[0].PubRel? == rel {
      if k > 0 {
        OfKind(q[1..], rel, k - 1);
      }
    } else {
      OfKind(q[1..], rel, k);
    }
  }

  lemma AnsweredAt(l: Ledger, t: Tiers, rel: bool, id: PacketId, kind: AckOf, i: nat)
    requires t.w.Ok() && Balanced(l, t, rel) && i < t.w.inflight && t.w.queue[i].PubRel? == rel
    requires i == FirstAnswered(t.w.queue, 0, t.w.inflight, id, kind)
    ensures Answered(l, id, kind) == l.(left := Of(Without(Contents(t), i), rel))
  {
    var q, c := t.w.queue, Contents(t);
    var j := |Of(q[..i], rel)|;
    assert c[..i] == q[..i] && c[i] == q[i];
    OfWithout(c, i, rel);
    InFlightCount(l, t, rel);
    var front := q[..t.w.inflight];
    assert front[..i] == q[..i];
    OfWithout(front, i, rel);
    OfMembers(q[..i], rel);
    assert c == q[..i] + c[i..];
    OfAppend(q[..i], c[i..], rel);
    forall k | 0 <= k < j ensures !Answers(l.left[k], id, kind) {
      assert l.left[k] == Of(q[..i], rel)[k];
    }
    AnswerIs(l.left, 0, SentAndLeft(l), j, id, kind);
  }

  lemma AckedPlaced(t: Tiers, u: Tiers, i: nat)
    requires Placed(t) && i < |t.w.queue| && Contents(u) == Without(Contents(t), i) && |t.w.queue| - 1 <= |u.w.queue|
    ensures Placed(u)
  {
    var c := Contents(t);
    assert forall k :: 0 <= k < |c| - 1 ==> Without(c, i)[k] == c[if k < i then k else k + 1];
  }

  lemma GenuineKeeps(s: State, id: PacketId, kind: AckOf, v: State)
    requires Inv(s) && Genuine(s.t, id, kind) && v == Step(s, Acked(id, kind))
    ensures Inv(v)
  {
    var i := FirstAnswered(s.t.w.queue, 0, s.t.w.inflight, id, kind);
    AckingKeepsFlags(s.t, id, kind);
    AckingKeeps(s.t, id, kind, i);
    var r := AcknowledgePacket(s.t, id, kind);
    AckedPlaced(s.t, r.0, i);
    TakesOutTheSame(s.pubs, s.t, false, id, kind);
    TakesOutTheSame(s.rels, s.t, true, id, kind);
    LedgerSends(s.pubs, s.t, r.0, false, r.1);
    LedgerSends(s.rels, s.t, r.0, true, r.1);
  }

  lemma SentNothing(s: State)
    ensures Sent(s, []) == s
  {
    assert s.pubs.sent + [] == s.pubs.sent && s.rels.sent + [] == s.rels.sent;
  }

  lemma StrayAnswers(s: State, id: PacketId, kind: AckOf)
    requires Inv(s) && !Genuine(s.t, id, kind)
    ensures Step(s, Acked(id, kind)) == s.(t := s.t.(needFetch := s.t.needFetch || s.t.fetching))
  {
    TakesOutTheSame(s.pubs, s.t, false, id, kind);
    TakesOutTheSame(s.rels, s.t, true, id, kind);
    StrayAck(s.t, id, kind);
    SentNothing(s.(t := s.t.(needFetch := s.t.needFetch || s.t.fetching)));
  }

  lemma AckStepKeeps(s: State, id: PacketId, kind: AckOf)
    requires Inv(s) && Allowed(s.t, Acked(id, kind))
    ensures Inv(Step(s, Acked(id, kind)))
  {
    if Genuine(s.t, id, kind) {
      GenuineKeeps(s, id, kind, Step(s, Acked(id, kind)));
    } else {
      StrayAnswers(s, id, kind);
    }
  }

  lemma PerformStepKeeps(s: State, i: nat)
    requires Inv(s) && i < |s.t.tasks|
    ensures Inv(Step(s, Perform(i)))
  {
    PerformingKeeps(s.t, i);
    ConservedKeeps(s, Performed(s.t, i), []);
    SentNothing(s.(t := Performed(s.t, i)));
  }

  lemma ReportStepKeeps(s: State, i: nat)
    requires Inv(s) && i < |s.t.tasks|
    ensures Inv(Step(s, Report(i)))
  {
    ReportingKeeps(s.t, i);
    var (u, sent) := Reported(s.t, i);
    ConservedKeeps(s, u, sent);
  }

  /** Packets of other kinds and tasks that there are not. */
  ghost predicate Idle(s: State, e: Event) {
    || (e.Submitted? && !e.p.Publish? && !e.p.PubRel?)
    || ((e.Perform? || e.Report?) && e.task >= |s.t.tasks|)
  }

  lemma IdleStep(s: State, e: Event)
    requires s.t.w.Ok() && Idle(s, e)
    ensures Step(s, e) == s
  {
  }

  lemma StepKeeps(s: State, e: Event)
    requires Inv(s) && Allowed(s.t, e)
    ensures Inv(Step(s, e))
  {
    if Idle(s, e) {
      IdleStep(s, e);
    } else {
      match e
      case Submitted(p) => if p.Publish? { SubmitStepKeeps(s, p); } else { RelStepKeeps(s, p); }
      case Acked(id, kind) => AckStepKeeps(s, id, kind);
      case Perform(i) => PerformStepKeeps(s, i);
      case Report(i) => ReportStepKeeps(s, i);
      case Restart => RestartKeeps(s);
    }
  }

  lemma RestartKeeps(s: State)
    requires Inv(s)
    ensures Inv(Step(s, Restart))
  {
  }

  // ---------- the theorems ----------

  function Run(s: State, es: seq<Event>): State
    decreases |es|
  {
    if es == [] || !s.t.w.Ok() then s else Run(Step(s, es[0]), es[1..])
  }

  /** Every acknowledgement of the run is allowed where it arrives. */
  predicate Legal(s: State, es: seq<Event>)
    decreases |es|
  {
    es == [] || !s.t.w.Ok() || (Allowed(s.t, es[0]) && Legal(Step(s, es[0]), es[1..]))
  }

  lemma {:induction false} RunKeeps(s: State, es: seq<Event>)
    requires Inv(s) && Legal(s, es)
    ensures Inv(Run(s, es))
    decreases |es|
  {
    if es != [] {
      StepKeeps(s, es[0]);
      RunKeeps(Step(s, es[0]), es[1..]);
    }
  }

  /** The three tiers are one FIFO queue: in every run, the PUBLISH packets of sending queue, fetched batch, database,
      batch being written and buffer are exactly the unacknowledged ones in publish order, and the
      unacknowledged PUBRELs are in the sending queue, in order.  What was written to the connection for the
      first time is a prefix of what was given to the store. */
  lemma OneQueue(window: nat, trigger: nat, es: seq<Event>)
    requires trigger >= 2 && Legal(Init(window, trigger), es)
    ensures var s := Run(Init(window, trigger), es);
            var all := s.t.w.queue + InTransit(s.t.tasks) + s.t.db + BeingWritten(s.t.tasks) + s.t.buffer;
            && s.t.w.Ok()
            && s.pubs.left == Of(all, false) && s.rels.left == Of(s.t.w.queue, true)
            && (s.rels.left == [] ==> s.pubs.left == all)
            && s.pubs.given == s.pubs.sent + Of(Waiting(s.t), false) && s.pubs.sent <= s.pubs.given
            && s.rels.given == s.rels.sent + Of(Waiting(s.t), true) && s.rels.sent <= s.rels.given
  {
    RunKeeps(Init(window, trigger), es);
    var s := Run(Init(window, trigger), es);
    ContentsInParts(s.t);
    RelsInQueue(s);
  }

  lemma ContentsInParts(t: Tiers)
    ensures Contents(t) == t.w.queue + InTransit(t.tasks) + t.db + BeingWritten(t.tasks) + t.buffer
  {
    var a, b, c, d, e := t.w.queue, InTransit(t.tasks), t.db, BeingWritten(t.tasks), t.buffer;
    Assoc(a, b + c + d, e);
    Assoc(a, b + c, d);
    Assoc(a, b, c);
  }

  lemma RelsInQueue(s: State)
    requires Inv(s)
    ensures s.rels.left == Of(s.t.w.queue, true) && (s.rels.left == [] ==> s.pubs.left == Contents(s.t))
  {
    var q, b, c := s.t.w.queue, Backlog(s.t), Contents(s.t);
    BacklogPublishes(s.t);
    OfAppend(q, b, true);
    assert Of(q, true) + [] == Of(q, true);
    if s.rels.left == [] {
      NoneOf(c, true);
      OfAll(c, false);
    }
  }

  lemma BacklogPublishes(t: Tiers)
    requires Placed(t)
    ensures AllPublish(Backlog(t)) && Of(Backlog(t), true) == []
  {
    var q, b := t.w.queue, Backlog(t);
    assert forall i :: 0 <= i < |b| ==> Contents(t)[|q| + i] == b[i];
    OfAll(b, false);
  }

  ghost predicate AllPublish(q: seq<Packet>) {
    forall i :: 0 <= i < |q| ==> q[i].Publish?
  }

  lemma {:induction false} NoneOf(q: seq<Packet>, rel: bool)
    requires Of(q, rel) == []
    ensures forall i :: 0 <= i < |q| ==> q[i].PubRel? != rel
  {
    if q != [] {
      NoneOf(q[1..], rel);
    }
  }

  /** What a new connection gets again: of either kind exactly the packets that were sent and are left, in order. */
  lemma ResendsWhatIsLeft(window: nat, trigger: nat, es: seq<Event>)
    requires trigger >= 2 && Legal(Init(window, trigger), es)
    ensures var s := Run(Init(window, trigger), es);
            && s.t.w.Ok()
            && var u := Step(s, Restart);
            && s.resent <= u.resent && u == s.(resent := u.resent)
            && Of(u.resent[|s.resent|..], false) == s.pubs.left[..SentAndLeft(s.pubs)]
            && Of(u.resent[|s.resent|..], true) == s.rels.left[..SentAndLeft(s.rels)]
  {
    RunKeeps(Init(window, trigger), es);
    var s := Run(Init(window, trigger), es);
    InFlightCount(s.pubs, s.t, false);
    InFlightCount(s.rels, s.t, true);
    assert (s.resent + s.t.w.InFlight())[|s.resent|..] == s.t.w.InFlight();
  }

  /** A packet outside the sending queue is always on its way into it. */
  ghost predicate Moving(t: Tiers) {
    t.w.queue == [] && Backlog(t) != [] ==> t.fetching || (t.storing && t.needFetch)
  }

  lemma NeverStuck(window: nat, trigger: nat, es: seq<Event>)
    requires trigger >= 2 && Legal(Init(window, trigger), es)
    ensures var t := Run(Init(window, trigger), es).t;
            && Moving(t)
            && |t.tasks| <= 1 && !(t.storing && t.fetching)
            && (t.w.size > 0 && Contents(t) != [] ==> t.w.inflight > 0 || t.tasks != [])
  {
    RunKeeps(Init(window, trigger), es);
  }

  /** The buffer is bounded: in every run it is below the trigger, or the store task that will take it is asked for; so
      with no task outstanding it is below the trigger. */
  lemma BufferBounded(window: nat, trigger: nat, es: seq<Event>)
    requires trigger >= 2 && Legal(Init(window, trigger), es)
    ensures var t := Run(Init(window, trigger), es).t;
            && (|t.buffer| < trigger || (t.needStore && t.tasks != []))
            && (t.tasks == [] ==> |t.buffer| < trigger)
  {
    RunKeeps(Init(window, trigger), es);
    TriggerStays(Init(window, trigger), es);
  }

  lemma {:induction false} TriggerStays(s: State, es: seq<Event>)
    ensures Run(s, es).t.trigger == s.t.trigger
    decreases |es|
  {
    if es != [] && s.t.w.Ok() {
      TriggerKept(s, es[0]);
      TriggerStays(Step(s, es[0]), es[1..]);
    }
  }

  lemma TriggerKept(s: State, e: Event)
    requires s.t.w.Ok()
    ensures Step(s, e).t.trigger == s.t.trigger
  {
    match e
    case Submitted(p) => StoringTrigger(s.t, p);
    case Acked(id, kind) => AckingTrigger(s.t, id, kind);
    case Perform(i) =>
    case Report(i) => if i < |s.t.tasks| { ReportingTrigger(s.t, i); }
    case Restart =>
  }

  lemma StoringTrigger(t: Tiers, p: Packet)
    requires t.w.Ok()
    ensures StoreMessage(t, p).0.trigger == t.trigger
  {
  }

  lemma AckingTrigger(t: Tiers, id: PacketId, kind: AckOf)
    requires t.w.Ok()
    ensures AcknowledgePacket(t, id, kind).0.trigger == t.trigger
  {
  }

  lemma ReportingTrigger(t: Tiers, i: nat)
    requires i < |t.tasks|
    ensures Reported(t, i).0.trigger == t.trigger
  {
    if t.tasks[i].Fetched? {
      var rest := t.(tasks := Without(t.tasks, i));
      ReportedFetch(t, i, rest, t.tasks[i].batch);
      TakingTrigger(rest, t.tasks[i].batch);
      NextTrigger(TakeFetched(rest, t.tasks[i].batch).0);
    }
  }

  lemma TakingTrigger(t: Tiers, batch: seq<Packet>)
    ensures TakeFetched(t, batch).0.trigger == t.trigger
  {
  }

  lemma NextTrigger(t: Tiers)
    ensures NextTask(t).trigger == t.trigger
  {
  }

  /** Where a PUBLISH goes: to the sending queue below half the trigger and with nothing buffered, otherwise behind
      everything in the buffer, which is handed to a store task if it is full and no task is outstanding. */
  lemma StoreRoutes(t: Tiers, p: Packet)
    requires Flags(t) && p.Publish?
    ensures var u := StoreMessage(t, p).0;
            if |t.w.queue| < t.trigger / 2 && Backlog(t) == [] && !t.hasBuffered then
              u.w.queue == t.w.queue + [p] && u.buffer == [] && u.tasks == t.tasks
            else
              && u.w == t.w
              && ((u.buffer == t.buffer + [p] && u.tasks == t.tasks)
                  || (u.buffer == [] && t.tasks == [] && u.tasks == [Write(t.buffer + [p])]))
              && (u.tasks == t.tasks == [] ==> |u.w.queue| + |u.buffer| < t.trigger)
  {
    if !t.hasBuffered {
      StoringDirectly(t, p);
    }
    assert [] + [Write(t.buffer + [p])] == [Write(t.buffer + [p])];
  }

  /** What is started when a store task is done, in any state of the store: the store that was asked for, or else the
      fetch that was asked for. */
  lemma AfterStore(t: Tiers)
    requires t.tasks == [Written]
    ensures var u := Reported(t, 0).0;
            && (t.needStore ==> u.tasks == [Write(t.buffer)] && u.needFetch == t.needFetch && !u.needStore)
            && (!t.needStore ==> u.tasks == if t.needFetch then [Fetch] else [])
  {
    assert Without(t.tasks, 0) == [] && [] + [Write(t.buffer)] == [Write(t.buffer)] && [] + [Fetch] == [Fetch];
  }

  /** The same when a fetch is done, except that its answer may have left nothing to store. */
  lemma AfterFetch(t: Tiers, batch: seq<Packet>)
    requires t.tasks == [Fetched(batch)]
    ensures var u := Reported(t, 0).0;
            && (t.needStore && batch != [] && t.buffer != [] ==> u.tasks == [Write(t.buffer)] && u.needFetch == t.needFetch)
            && (t.needStore && (batch == [] || t.buffer == []) ==> u.tasks == [])
            && (!t.needStore ==> u.tasks == if t.needFetch then [Fetch] else [])
            && !u.needStore
  {
    var v := TakeFetched(t.(tasks := []), batch).0;
    TakingWishes(t.(tasks := []), batch, v);
    WishesStart(v, NextTask(v));
    assert Without(t.tasks, 0) == [];
  }

  lemma TakingWishes(t: Tiers, batch: seq<Packet>, u: Tiers)
    requires u == TakeFetched(t, batch).0
    ensures u.tasks == t.tasks && u.needStore == t.needStore && u.needFetch == t.needFetch
    ensures u.buffer == if batch == [] then [] else t.buffer
  {
  }

  lemma WishesStart(t: Tiers, u: Tiers)
    requires t.tasks == [] && u == NextTask(t)
    ensures u.tasks == if t.needStore && t.buffer != [] then [Write(t.buffer)] else if !t.needStore && t.needFetch then [Fetch] else []
    ensures !u.needStore && (t.needStore ==> u.needFetch == t.needFetch)
  {
    assert [] + [Write(t.buffer)] == [Write(t.buffer)] && [] + [Fetch] == [Fetch];
  }

  /** A fetch takes the oldest fifty packets of the database, or all of them. */
  lemma FetchTakesOldest(t: Tiers)
    requires t.tasks == [Fetch]
    ensures var u := Performed(t, 0);
            && |u.tasks| == 1 && u.tasks[0].Fetched? && u.tasks[0].batch + u.db == t.db
            && |u.tasks[0].batch| == if |t.db| < 50 then |t.db| else 50
  {
  }

  /** With a smaller trigger the first packet already goes to the buffer and on to the database, and
      nobody asks for a fetch: the code meets the property if and only if the trigger is at least 2. */
  lemma TriggerMatters(window: nat, trigger: nat)
    ensures (forall es: seq<Event> :: Legal(Init(window, trigger), es) ==> Moving(Run(Init(window, trigger), es).t))
            <==> trigger >= 2
  {
    if trigger >= 2 {
      forall es: seq<Event> | Legal(Init(window, trigger), es) ensures Moving(Run(Init(window, trigger), es).t) {
        NeverStuck(window, trigger, es);
      }
    } else {
      var p := Publish(0, 1, Message("", "", false));
      var s, es := Init(window, trigger), [Submitted(p)];
      RunOne(s, es[0]);
      FirstGoesToDatabase(s.t, p);
      assert Legal(s, es) && !Moving(Run(s, es).t);
    }
  }

  /** Every acknowledgement names a packet in flight, and every PUBREL a QoS 2 publish that was sent. */
  predicate AllGenuine(s: State, es: seq<Event>)
    decreases |es|
  {
    es == [] || !s.t.w.Ok()
    || (GenuineEvent(s, es[0]) && AllGenuine(Step(s, es[0]), es[1..]))
  }

  predicate GenuineEvent(s: State, e: Event)
    requires s.t.w.Ok()
  {
    && (e.Acked? ==> Genuine(s.t, e.id, e.kind))
    && (e.Submitted? && e.p.PubRel? ==>
          exists i :: 0 <= i < |s.pubs.sent| && Answers(s.pubs.sent[i], e.p.id, OfPublish(2)))
  }

  /** Nothing in the sending queue, nothing sent and nobody who asks for a fetch. */
  ghost predicate Silent(s: State) {
    && s.t.w.Ok() && s.t.w.queue == [] && s.pubs.sent == s.rels.sent == [] && s.t.trigger < 2 && s.t.totalSize >= 0
    && s.t.totalSize == |s.t.buffer|
    && !s.t.needFetch && !s.t.fetching
    && forall i :: 0 <= i < |s.t.tasks| ==> s.t.tasks[i].Write? || s.t.tasks[i].Written?
  }

  lemma SilentSubmit(s: State, p: Packet)
    requires Silent(s) && !p.PubRel?
    ensures Silent(Step(s, Submitted(p)))
  {
  }

  lemma SilentPerform(s: State, i: nat)
    requires Silent(s) && i < |s.t.tasks|
    ensures Silent(Step(s, Perform(i)))
  {
  }

  lemma SilentReport(s: State, i: nat)
    requires Silent(s) && i < |s.t.tasks|
    ensures Silent(Step(s, Report(i)))
  {
  }

  lemma SilentStep(s: State, e: Event)
    requires Silent(s) && GenuineEvent(s, e)
    ensures Silent(Step(s, e))
  {
    match e
    case Submitted(p) => SilentSubmit(s, p);
    case Acked(_, _) =>
    case Perform(i) => if i < |s.t.tasks| { SilentPerform(s, i); }
    case Report(i) => if i < |s.t.tasks| { SilentReport(s, i); }
    case Restart =>
  }

  lemma {:induction false} SilentRun(s: State, es: seq<Event>)
    requires Silent(s) && AllGenuine(s, es)
    ensures Silent(Run(s, es))
    decreases |es|
  {
    if es != [] {
      SilentStep(s, es[0]);
      SilentRun(Step(s, es[0]), es[1..]);
    }
  }

  /** With such a trigger nothing is ever sent, as long as acknowledgements name packets in flight. */
  lemma SmallTriggerSendsNothing(window: nat, trigger: nat, es: seq<Event>)
    requires trigger < 2 && AllGenuine(Init(window, trigger), es)
    ensures var s := Run(Init(window, trigger), es); s.pubs.sent == [] && s.rels.sent == []
  {
    SilentRun(Init(window, trigger), es);
  }

  lemma RunOne(s: State, e: Event)
    requires s.t.w.Ok()
    ensures Run(s, [e]) == Step(s, e) && (Legal(s, [e]) <==> Allowed(s.t, e))
  {
    var u := Step(s, e);
    assert [e][1..] == [];
    assert Run(u, []) == u && Legal(u, []);
  }

  lemma FirstGoesToDatabase(t: Tiers, p: Packet)
    requires t == New(t.w.size, t.trigger) && t.trigger < 2 && p.Publish?
    ensures !Moving(StoreMessage(t, p).0)
  {
    var u := StoreMessage(t, p).0;
    assert u.tasks == [Write([p])] by {
      assert [] + [p] == [p];
      assert [] + [Write([p])] == [Write([p])];
    }
    assert Backlog(u) == [p];
  }

  // ---------- progress ----------

  /** Events that move packets towards the subscriber. */
  predicate Advances(t: Tiers, e: Event)
    requires t.w.Ok()
  {
    match e
    case Submitted(_) => false
    case Acked(id, kind) => Genuine(t, id, kind)
    case Perform(i) => i < |t.tasks| && (t.tasks[i].Write? || t.tasks[i].Fetch?)
    case Report(i) => i < |t.tasks| && (t.tasks[i].Written? || t.tasks[i].Fetched?)
    case Restart => false
  }

  function TaskWork(t: Tiers): nat {
    if t.tasks == [] then 0 else
      (if t.tasks[0].Write? || t.tasks[0].Fetch? then 2 else 1)
      + (if t.needStore then 2 else 0) + (if t.needFetch then 2 else 0)
  }

  function Work(t: Tiers): nat {
    8 * |Contents(t)| + TaskWork(t)
  }

  lemma AckProgress(t: Tiers, id: PacketId, kind: AckOf)
    requires Flags(t) && Genuine(t, id, kind)
    ensures var u := AcknowledgePacket(t, id, kind).0; Work(u) < Work(t) && u.w.size == t.w.size
  {
    AckingKeeps(t, id, kind, FirstAnswered(t.w.queue, 0, t.w.inflight, id, kind));
    var u := AcknowledgePacket(t, id, kind).0;
    assert |Contents(u)| == |Contents(t)| - 1;
    assert TaskWork(u) <= TaskWork(t) + 2;
  }

  lemma PerformProgress(t: Tiers)
    requires Flags(t) && Advances(t, Perform(0))
    ensures Work(Performed(t, 0)) < Work(t) && Performed(t, 0).w == t.w
  {
    PerformingKeeps(t, 0);
    assert TaskWork(Performed(t, 0)) == TaskWork(t) - 1;
  }

  lemma ReportProgress(t: Tiers)
    requires Flags(t) && Advances(t, Report(0))
    ensures var u := Reported(t, 0).0; Work(u) < Work(t) && u.w.size == t.w.size
  {
    ReportingKeeps(t, 0);
    assert Without(t.tasks, 0) == [];
    assert TaskWork(Reported(t, 0).0) < TaskWork(t);
  }

  lemma Progress(s: State, e: Event)
    requires Inv(s) && Advances(s.t, e)
    ensures Inv(Step(s, e)) && Work(Step(s, e).t) < Work(s.t) && Step(s, e).t.w.size == s.t.w.size
  {
    StepKeeps(s, e);
    match e
    case Acked(id, kind) => AckProgress(s.t, id, kind);
    case Perform(i) => PerformProgress(s.t);
    case Report(i) => ReportProgress(s.t);
  }

  predicate OnlyAdvances(s: State, es: seq<Event>)
    decreases |es|
  {
    es == [] || (s.t.w.Ok() && Advances(s.t, es[0]) && OnlyAdvances(Step(s, es[0]), es[1..]))
  }

  /** Without new packets the store drains: whatever acknowledgements and task steps come, there are at
      most Work of them, and one is possible as long as a packet is left. */
  lemma {:induction false} Drains(s: State, es: seq<Event>)
    requires Inv(s) && s.t.w.size > 0 && OnlyAdvances(s, es)
    ensures |es| <= Work(s.t)
    ensures var t := Run(s, es).t;
            t.w.Ok() && (Contents(t) != [] ==> exists e :: Advances(t, e))
    decreases |es|
  {
    if es != [] {
      Progress(s, es[0]);
      Drains(Step(s, es[0]), es[1..]);
    } else if Contents(s.t) != [] {
      CanAdvance(s);
    }
  }

  lemma CanAdvance(s: State)
    requires Inv(s) && s.t.w.size > 0 && Contents(s.t) != []
    ensures exists e :: Advances(s.t, e)
  {
    if s.t.tasks != [] {
      assert Advances(s.t, Perform(0)) || Advances(s.t, Report(0));
    } else {
      var p := s.t.w.queue[0];
      assert p == Contents(s.t)[0];
      var kind := if p.Publish? then OfPublish(p.qos) else OfPubRel;
      assert Answers(p, p.id, kind);
      assert Advances(s.t, Acked(p.id, kind));
    }
  }

  lemma ReportedFetch(t: Tiers, i: nat, rest: Tiers, batch: seq<Packet>)
    requires i < |t.tasks| && t.tasks[i] == Fetched(batch) && rest == t.(tasks := Without(t.tasks, i))
    ensures Reported(t, i) == (NextTask(TakeFetched(rest, batch).0), TakeFetched(rest, batch).1)
  {
  }

  // ---------- the mutable store ----------

  /** message_store_mongodb_t.  `queue` holds the members it shares with the memory store, `tasks` the
      tasks it has handed to the thread pool whose receipt it has not processed. */
  class MongoStore {
    const queue: SendingQueue
    const trigger: nat
    var buffer: seq<Packet>
    var bufferSize: nat
    var hasBuffered: bool
    var hasStored: bool
    var storing: bool
    var fetching: bool
    var needStore: bool
    var needFetch: bool
    var tasks: seq<Task>

    /** The store as a value; its own code does not look at the database. */
    function View(): Tiers
      reads this, queue
    {
      Tiers(queue.View(), buffer, queue.totalSize, trigger,
            hasBuffered, hasStored, storing, fetching, needStore, needFetch, tasks, [])
    }

    /** What every method keeps, whatever acknowledgements and receipts come. */
    predicate Linked()
      reads this, queue
    {
      && bufferSize == |buffer| <= queue.totalSize
      && queue.tail == |queue.queue| - 1
      && (hasBuffered && !hasStored ==> buffer != [])
    }

    /** Also, the window and the count are right; a fetched batch that replaces a queue in use ends that. */
    predicate Valid()
      reads this, queue
    {
      Linked() && queue.Valid() && queue.totalSize == |queue.queue| + bufferSize
    }

    constructor (window: nat, trigger: nat)
      ensures Valid() && fresh(queue) && View() == New(window, trigger)
    {
      queue := new SendingQueue(window);
      this.trigger := trigger;
      buffer, bufferSize, tasks := [], 0, [];
      hasBuffered, hasStored, storing, fetching, needStore, needFetch := false, false, false, false, false, false;
    }

    method StartStoring()
      requires Linked()
      modifies this, queue
      ensures Linked() && View() == InitiateStoring(old(View())) && (old(Valid()) ==> Valid())
    {
      needStore, storing := false, true;
      tasks := tasks + [Write(buffer)];
      queue.totalSize := queue.totalSize - bufferSize;
      buffer, bufferSize := [], 0;
      hasStored := true;
    }

    method StartFetching()
      requires Linked()
      modifies this
      ensures Linked() && View() == InitiateFetching(old(View())) && (old(Valid()) ==> Valid())
    {
      fetching, needFetch := true, false;
      tasks := tasks + [Fetch];
    }

    method Store(p: Packet) returns (sendNow: bool)
      requires Valid()
      modifies this, queue
      ensures Valid() && (View(), if sendNow then [p] else []) == StoreMessage(old(View()), p)
    {
      sendNow := false;
      if (queue.totalSize < trigger / 2 && !hasBuffered) || p.PubRel? {
        sendNow := queue.StoreMessage(p);
      } else {
        Buffer(p);
      }
    }

    method Buffer(p: Packet)
      requires Linked()
      modifies this, queue
      ensures Linked() && View() == BufferMessage(old(View()), p) && (old(Valid()) ==> Valid())
    {
      queue.totalSize := queue.totalSize + 1;
      bufferSize := bufferSize + 1;
      buffer := buffer + [p];
      hasBuffered := true;
      if queue.totalSize >= trigger {
        if fetching || storing {
          needStore := true;
        } else {
          StartStoring();
        }
      }
    }

    /** use_buffered_messages, or the same with a fetched batch: the list becomes the sending queue
        and its last node the tail. */
    method Replace(batch: seq<Packet>)
      requires batch != []
      modifies queue
      ensures queue.queue == batch && queue.tail == |batch| - 1 && queue.pending == -1
      ensures queue.inflight == old(queue.inflight) && queue.totalSize == old(queue.totalSize)
    {
      queue.queue := batch;
      queue.tail := |batch| - 1;
      queue.pending := -1;
    }

    method Continue() returns (sent: seq<Packet>)
      requires queue.pending == -1 && queue.tail == |queue.queue| - 1
      modifies queue
      ensures (View(), sent) == ContinueSending(old(View()))
      ensures queue.queue == old(queue.queue) && queue.totalSize == old(queue.totalSize) && queue.tail == old(queue.tail)
      ensures old(queue.inflight) == 0 ==> queue.Valid()
    {
      sent := [];
      var p := 0;
      while p < |queue.queue| && queue.inflight < queue.window
        invariant 0 <= p <= |queue.queue| && (p > 0 ==> queue.inflight <= queue.window)
        invariant queue.inflight == old(queue.inflight) + p && sent == queue.queue[..p]
        invariant queue.queue == old(queue.queue) && queue.totalSize == old(queue.totalSize)
        invariant queue.tail == old(queue.tail) && queue.pending == -1
      {
        sent := sent + [queue.queue[p]];
        queue.inflight := queue.inflight + 1;
        p := p + 1;
      }
      if p < |queue.queue| {
        queue.pending := p;
      }
    }

    method UseBuffer() returns (sent: seq<Packet>)
      requires Linked() && buffer != []
      modifies this, queue
      ensures Linked() && (View(), sent) == ContinueSending(UseBuffered(old(View())))
      ensures old(Valid()) && old(queue.queue) == [] ==> Valid()
    {
      Replace(buffer);
      buffer, bufferSize := [], 0;
      hasBuffered := false;
      sent := Continue();
    }

    method Acknowledge(id: PacketId, kind: AckOf) returns (sent: seq<Packet>)
      requires Valid()
      modifies this, queue
      ensures Valid() && (View(), sent) == AcknowledgePacket(old(View()), id, kind)
    {
      var next := queue.AcknowledgeAndNext(id, kind);
      assert View() == AfterMemory(old(View()), id, kind);
      var more := RefillQueue();
      sent := (if next.Some? then [next.value] else []) + more;
    }

    method RefillQueue() returns (sent: seq<Packet>)
      requires Linked()
      modifies this, queue
      ensures Linked() && (View(), sent) == Refill(old(View())) && (old(Valid()) ==> Valid())
    {
      sent := [];
      if queue.totalSize - bufferSize == 0 && hasBuffered {
        if hasStored {
          if fetching || storing {
            needFetch := true;
          } else {
            StartFetching();
          }
        } else {
          sent := UseBuffer();
        }
      }
    }

    method StoreMessageDone(i: nat)
      requires Linked() && i < |tasks| && tasks[i] == Written
      modifies this, queue
      ensures Linked() && (View(), []) == Reported(old(View()), i) && (old(Valid()) ==> Valid())
    {
      tasks := Without(tasks, i);
      storing := false;
      if needStore {
        StartStoring();
      } else if needFetch {
        StartFetching();
      }
    }

    method UseBatch(batch: seq<Packet>) returns (sent: seq<Packet>)
      requires Linked() && batch != []
      modifies queue
      ensures Linked()
      ensures (View(), sent) == ContinueSending(old(View()).(totalSize := old(queue.totalSize) + |batch|, w := old(queue.View()).(queue := batch)))
      ensures old(Valid()) && old(queue.queue) == [] ==> Valid()
    {
      queue.totalSize := queue.totalSize + |batch|;
      Replace(batch);
      sent := Continue();
    }

    /** First part of fetch_message_done: the batch, or the buffer, replaces the sending queue, even one that
        is in use. */
    method TakeBatch(batch: seq<Packet>) returns (sent: seq<Packet>)
      requires Linked()
      modifies this, queue
      ensures Linked() && (View(), sent) == TakeFetched(old(View()), batch)
      ensures old(Valid()) && old(queue.queue) == [] ==> Valid()
    {
      fetching := false;
      if |batch| > 0 {
        sent := UseBatch(batch);
      } else {
        sent := UseNothing();
      }
    }

    /** The database is empty: the buffer is next, if there is one. */
    method UseNothing() returns (sent: seq<Packet>)
      requires Linked()
      modifies this, queue
      ensures Linked() && (View(), sent) == NothingFetched(old(View()))
      ensures old(Valid()) && old(queue.queue) == [] ==> Valid()
    {
      sent := [];
      hasStored := false;
      if bufferSize > 0 {
        sent := UseBuffer();
      } else {
        hasBuffered := false;
      }
    }

    method FetchMessageDone(i: nat) returns (sent: seq<Packet>)
      requires Linked() && i < |tasks| && tasks[i].Fetched?
      modifies this, queue
      ensures Linked() && (View(), sent) == Reported(old(View()), i)
      ensures old(Valid()) && old(queue.queue) == [] ==> Valid()
    {
      var batch := tasks[i].batch;
      ghost var t := View();
      ReportedFetch(t, i, t.(tasks := Without(t.tasks, i)), batch);
      tasks := Without(tasks, i);
      sent := TakeBatch(batch);
      StartNext();
    }

    method StartNext()
      requires Linked()
      modifies this, queue
      ensures Linked() && View() == NextTask(old(View())) && (old(Valid()) ==> Valid())
    {
      if needStore {
        if bufferSize > 0 {
          StartStoring();
        } else {
          needStore := false;
        }
      } else if needFetch {
        StartFetching();
      }
    }
  }
}
