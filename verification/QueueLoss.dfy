/** What the three-tier store does not survive (store/mqtt_msg_store.c:204-315).  The answer to a fetch replaces the sending
    queue (lines 213 and 270), so a packet is lost if the queue is in use by then.  That happens after an
    acknowledgement that names no packet in flight and makes the store ask for a second fetch, and after
    a PUBREL, which always goes to the sending queue (lines 247-249).

    The losing run needs no further acknowledgement: tasks are performed and reported, and packets are published
    until there is something to replace the queue with.  Counting packets is enough to see the loss. */
module QueueLoss {
  import opened MessageStore
  import opened Session
  import opened TieredStore

  /** What the losing run relies on. */
  ghost predicate Loose(t: Tiers) {
    && t.w.Ok() && t.trigger >= 2 && t.totalSize == |t.w.queue| + |t.buffer|
    && |t.tasks| <= 1
    && (t.storing <==> |t.tasks| == 1 && (t.tasks[0].Write? || t.tasks[0].Written?))
    && (t.fetching <==> |t.tasks| == 1 && (t.tasks[0].Fetch? || t.tasks[0].Fetched?))
    && AllPublish(InTransit(t.tasks)) && AllPublish(t.db) && AllPublish(BeingWritten(t.tasks)) && AllPublish(t.buffer)
  }

  /** The number of packets in all tiers. */
  function Size(t: Tiers): nat {
    |t.w.queue| + |InTransit(t.tasks)| + |t.db| + |BeingWritten(t.tasks)| + |t.buffer|
  }

  lemma SizeOfContents(t: Tiers)
    ensures |Contents(t)| == Size(t)
  {
  }

  /** The number of packets that are not acknowledged. */
  function Left(s: State): nat {
    |s.pubs.left| + |s.rels.left|
  }

  ghost predicate NoAcks(es: seq<Event>) {
    forall i :: 0 <= i < |es| ==> !es[i].Acked?
  }

  /** Packets are missing, and no PUBREL is in the sending queue. */
  ghost predicate Lost(s: State) {
    Size(s.t) < Left(s) && Of(s.t.w.queue, true) == []
  }

  /** From here, without another acknowledgement, a packet that is not acknowledged can disappear, and with it
      every PUBREL. */
  ghost predicate Doomed(s: State) {
    exists es :: Dooms(s, es)
  }

  ghost predicate Dooms(s: State, es: seq<Event>) {
    Legal(s, es) && NoAcks(es) && Lost(Run(s, es)) && Run(s, es).rels.left == s.rels.left
  }

  /** u comes after s by an event that is not about acknowledgements or PUBRELs. */
  ghost predicate Follows(s: State, u: State)
    requires s.t.w.Ok()
  {
    exists e :: IsStep(s, e, u)
  }

  ghost predicate IsStep(s: State, e: Event, u: State)
    requires s.t.w.Ok()
  {
    !e.Acked? && Allowed(s.t, e) && u == Step(s, e) && u.rels.left == s.rels.left
  }

  lemma DoomedBefore(s: State, u: State)
    requires s.t.w.Ok() && Follows(s, u) && Doomed(u)
    ensures Doomed(s)
  {
    var e :| IsStep(s, e, u);
    var es :| Dooms(u, es);
    assert ([e] + es)[1..] == es;
    assert Legal(s, [e] + es) && Run(s, [e] + es) == Run(u, es);
    assert Dooms(s, [e] + es);
  }

  lemma DoomedNow(s: State)
    requires Lost(s)
    ensures Doomed(s)
  {
    assert Legal(s, []) && Run(s, []) == s;
    assert Dooms(s, []);
  }

  // ---------- performing the outstanding task ----------

  /** The task has been performed, and nothing else. */
  ghost predicate Done(t: Tiers, u: Tiers) {
    && |t.tasks| == 1 && |u.tasks| == 1 && u == t.(tasks := u.tasks, db := u.db)
    && (u.tasks[0].Written? || u.tasks[0].Fetched?)
    && (t.tasks[0].Fetch? && t.db != [] ==> u.tasks[0].Fetched? && u.tasks[0].batch != [])
    && (t.tasks[0].Fetched? ==> u == t)
  }

  lemma Performing(s: State) returns (u: State)
    requires Loose(s.t) && s.t.tasks != []
    ensures Follows(s, u) && Loose(u.t) && Done(s.t, u.t) && Size(u.t) == Size(s.t) && Left(u) == Left(s)
  {
    u := Step(s, Perform(0));
    assert IsStep(s, Perform(0), u);
    assert s.t.tasks == [s.t.tasks[0]];
  }

  // ---------- publishing ----------

  const SOME: Packet := Publish(0, 1, Message("", "", false))

  ghost predicate Published(t: Tiers, u: Tiers) {
    && Loose(u) && Size(u) == Size(t) + 1
    && u.trigger == t.trigger && u.needFetch == t.needFetch && |u.w.queue| >= |t.w.queue|
  }

  lemma BufferingBusy(t: Tiers)
    requires Loose(t) && t.tasks != []
    ensures var u := BufferMessage(t, SOME);
            u == t.(totalSize := t.totalSize + 1, buffer := t.buffer + [SOME], hasBuffered := true, needStore := u.needStore)
  {
  }

  lemma SomeIsPublish(q: seq<Packet>)
    requires AllPublish(q)
    ensures AllPublish(q + [SOME])
  {
  }

  /** While a task is outstanding nothing else is started. */
  lemma StoringBusy(t: Tiers)
    requires Loose(t) && t.tasks != []
    ensures var u := StoreMessage(t, SOME).0;
            && Published(t, u)
            && u.tasks == t.tasks && u.fetching == t.fetching && u.totalSize == t.totalSize + 1
            && if t.totalSize < t.trigger / 2 && !t.hasBuffered
               then u.buffer == t.buffer && |u.w.queue| == |t.w.queue| + 1
               else u.buffer != []
  {
    BufferingBusy(t);
    SomeIsPublish(t.buffer);
  }

  lemma StoringIdle(t: Tiers)
    requires Loose(t) && t.tasks == [] && !t.needStore
    ensures var u := StoreMessage(t, SOME).0;
            && Published(t, u) && !u.needStore
            && (u.storing || (u.tasks == [] && u.totalSize == t.totalSize + 1 && t.totalSize < t.trigger))
  {
    SomeIsPublish(t.buffer);
  }

  lemma Publishing(s: State) returns (u: State)
    requires s.t.w.Ok()
    ensures Follows(s, u) && u.t == StoreMessage(s.t, SOME).0 && Left(u) == Left(s) + 1
  {
    u := Step(s, Submitted(SOME));
    assert IsStep(s, Submitted(SOME), u);
  }

  // ---------- a fetch outstanding while the sending queue is in use ----------

  lemma ReplacingQueue(s: State) returns (u: State)
    requires Loose(s.t) && |s.t.tasks| == 1 && s.t.tasks[0].Fetched? && s.t.w.queue != []
    requires s.t.tasks[0].batch != [] || s.t.buffer != []
    ensures Follows(s, u) && Size(u.t) < Size(s.t) && Left(u) == Left(s) && Of(u.t.w.queue, true) == []
  {
    u := Step(s, Report(0));
    assert IsStep(s, Report(0), u);
    var batch := s.t.tasks[0].batch;
    assert Without(s.t.tasks, 0) == [];
    ReportedFetch(s.t, 0, s.t.(tasks := []), batch);
    ReplacedQueue(s.t, s.t.(tasks := []), batch);
    OfAll(u.t.w.queue, false);
  }

  lemma ReplacedQueue(t: Tiers, rest: Tiers, batch: seq<Packet>)
    requires Loose(t) && t.tasks == [Fetched(batch)] && rest == t.(tasks := []) && t.w.queue != []
    requires batch != [] || t.buffer != []
    ensures var u := NextTask(TakeFetched(rest, batch).0);
            u.w.queue == (if batch != [] then batch else t.buffer) && Size(u) < Size(t)
  {
  }

  lemma DoomedAnswer(s: State)
    requires Loose(s.t) && s.t.fetching && s.t.w.queue != [] && s.t.buffer != [] && Size(s.t) <= Left(s)
    ensures Doomed(s)
  {
    var u := Performing(s);
    var v := ReplacingQueue(u);
    DoomedNow(v);
    DoomedBefore(u, v);
    DoomedBefore(s, u);
  }

  ghost function Missing(t: Tiers): nat {
    if t.buffer != [] then 0 else if t.totalSize < t.trigger then 1 + t.trigger - t.totalSize else 1
  }

  lemma {:induction false} DoomedFetching(s: State)
    requires Loose(s.t) && s.t.fetching && s.t.w.queue != [] && Size(s.t) <= Left(s)
    ensures Doomed(s)
    decreases Missing(s.t)
  {
    if s.t.buffer != [] {
      DoomedAnswer(s);
    } else {
      var u := Publishing(s);
      StoringBusy(s.t);
      DoomedFetching(u);
      DoomedBefore(s, u);
    }
  }

  // ---------- the wish for a fetch while the sending queue is in use ----------

  lemma Starting(s: State) returns (u: State)
    requires Loose(s.t) && s.t.tasks == [Written] && s.t.needFetch
    ensures Follows(s, u) && Loose(u.t) && u.t.w == s.t.w && Size(u.t) == Size(s.t) && Left(u) == Left(s)
    ensures if s.t.needStore then u.t.storing && u.t.needFetch && !u.t.needStore else u.t.fetching
  {
    u := Step(s, Report(0));
    assert IsStep(s, Report(0), u);
    assert Without(s.t.tasks, 0) == [] && [] + [Fetch] == [Fetch];
  }

  lemma {:induction false} DoomedStoring(s: State)
    requires Loose(s.t) && s.t.storing && s.t.needFetch && s.t.w.queue != [] && Size(s.t) <= Left(s)
    ensures Doomed(s)
    decreases s.t.needStore
  {
    var u := Performing(s);
    assert u.t.tasks == [Written];
    var v := Starting(u);
    if s.t.needStore {
      DoomedStoring(v);
    } else {
      DoomedFetching(v);
    }
    DoomedBefore(u, v);
    DoomedBefore(s, u);
  }

  lemma {:induction false} DoomedIdle(s: State)
    requires Loose(s.t) && s.t.tasks == [] && s.t.needFetch && !s.t.needStore && s.t.w.queue != [] && Size(s.t) <= Left(s)
    ensures Doomed(s)
    decreases if s.t.totalSize < s.t.trigger then s.t.trigger - s.t.totalSize else 0
  {
    var u := Publishing(s);
    StoringIdle(s.t);
    if u.t.storing {
      DoomedStoring(u);
    } else {
      DoomedIdle(u);
    }
    DoomedBefore(s, u);
  }

  // ---------- the stray acknowledgement ----------

  /** The state that the stray acknowledgement leaves, with the outstanding fetch answered. */
  ghost predicate Strayed(t: Tiers) {
    && Loose(t) && t.w.queue == [] && t.needFetch && |t.tasks| == 1 && t.tasks[0].Fetched?
    && (t.needStore ==> t.buffer != [])
  }

  lemma FirstAnswer(s: State) returns (u: State)
    requires Strayed(s.t)
    ensures Follows(s, u) && Loose(u.t) && Size(u.t) == Size(s.t) && Left(u) == Left(s)
    ensures u.t.w.queue != [] ==> u.t.fetching || (u.t.needFetch && !u.t.needStore && (u.t.storing || u.t.tasks == []))
    ensures u.t.w.queue == [] ==> u.t.fetching && u.t.buffer == [] && !u.t.hasBuffered
  {
    u := Step(s, Report(0));
    assert IsStep(s, Report(0), u);
    var batch := s.t.tasks[0].batch;
    assert Without(s.t.tasks, 0) == [];
    FirstAnswerTiers(s.t, s.t.(tasks := []), batch);
  }

  lemma FirstAnswerTiers(t: Tiers, rest: Tiers, batch: seq<Packet>)
    requires Strayed(t) && t.tasks == [Fetched(batch)] && rest == t.(tasks := [])
    ensures var u := NextTask(TakeFetched(rest, batch).0);
            && Loose(u) && Size(u) == Size(t)
            && (u.w.queue != [] ==> u.fetching || (u.needFetch && !u.needStore && (u.storing || u.tasks == [])))
            && (u.w.queue == [] ==> u.fetching && u.buffer == [] && !u.hasBuffered)
  {
    if batch != [] {
      Resend(rest.(fetching := false, totalSize := rest.totalSize + |batch|, w := rest.w.(queue := batch)));
    } else if rest.buffer != [] {
      Resend(UseBuffered(rest.(fetching := false, hasStored := false)));
    }
  }

  lemma DoomedStrayed(s: State)
    requires Strayed(s.t) && Size(s.t) <= Left(s)
    ensures Doomed(s)
  {
    var u := FirstAnswer(s);
    if u.t.w.queue == [] {
      var v := Publishing(u);
      StoringBusy(u.t);
      DoomedFetching(v);
      DoomedBefore(u, v);
    } else if u.t.fetching {
      DoomedFetching(u);
    } else if u.t.storing {
      DoomedStoring(u);
    } else {
      DoomedIdle(u);
    }
    DoomedBefore(s, u);
  }

  /** In a reachable state nothing is missing. */
  lemma InvLoose(s: State)
    requires Inv(s)
    ensures Loose(s.t) && Left(s) == Size(s.t)
  {
    var t := s.t;
    BacklogPublishes(t);
    BacklogParts(InTransit(t.tasks), t.db, BeingWritten(t.tasks), t.buffer, Backlog(t));
    OfBoth(Contents(t));
    SizeOfContents(t);
  }

  lemma BacklogParts(a: seq<Packet>, b: seq<Packet>, c: seq<Packet>, d: seq<Packet>, all: seq<Packet>)
    requires all == a + b + c + d && AllPublish(all)
    ensures AllPublish(a) && AllPublish(b) && AllPublish(c) && AllPublish(d)
  {
    assert forall i :: 0 <= i < |a| ==> a[i] == all[i];
    assert forall i :: 0 <= i < |b| ==> b[i] == all[|a| + i];
    assert forall i :: 0 <= i < |c| ==> c[i] == all[|a| + |b| + i];
    assert forall i :: 0 <= i < |d| ==> d[i] == all[|a| + |b| + |c| + i];
  }

  lemma StrayIsDoomed(s: State, id: PacketId, kind: AckOf)
    requires Inv(s) && s.t.fetching && !Genuine(s.t, id, kind)
    ensures Doomed(Step(s, Acked(id, kind)))
  {
    StrayAnswers(s, id, kind);
    InvLoose(s);
    var u := Step(s, Acked(id, kind));
    assert u == s.(t := s.t.(needFetch := true));
    var v := Performing(u);
    DoomedStrayed(v);
    DoomedBefore(u, v);
  }

  // ---------- the PUBREL ----------

  lemma StoringRelCounts(s: State, p: Packet) returns (u: State)
    requires Inv(s) && p.PubRel?
    ensures u == Step(s, Submitted(p)) && Loose(u.t) && Left(u) == Size(u.t)
    ensures u.t == s.t.(w := u.t.w, totalSize := s.t.totalSize + 1) && u.t.w.queue == s.t.w.queue + [p]
    ensures u.rels.left == s.rels.left + [p]
  {
    InvLoose(s);
    StoringRel(s.t, p);
    u := Step(s, Submitted(p));
    LooseLonger(s.t, u.t, p);
  }

  lemma LooseLonger(t: Tiers, u: Tiers, p: Packet)
    requires Loose(t) && u.w.Ok() && u == t.(w := u.w, totalSize := t.totalSize + 1) && u.w.queue == t.w.queue + [p]
    ensures Loose(u) && Size(u) == Size(t) + 1
  {
  }

  lemma RelIsDoomed(s: State, p: Packet)
    requires Inv(s) && p.PubRel? && (s.t.fetching || s.t.needFetch)
    ensures Doomed(Step(s, Submitted(p)))
  {
    var u := StoringRelCounts(s, p);
    if s.t.fetching {
      DoomedFetching(u);
    } else {
      DoomedStoring(u);
    }
  }

  // ---------- the exact conditions ----------

  /** Every packet that is not acknowledged is in the tiers, in order, and the PUBRELs are in the sending queue. */
  ghost predicate Kept(s: State) {
    s.pubs.left == Of(Contents(s.t), false) && s.rels.left == Of(s.t.w.queue, true)
  }

  lemma InvKept(s: State)
    requires Inv(s)
    ensures Kept(s)
  {
    RelsInQueue(s);
  }

  lemma LostNotKept(s: State)
    requires Lost(s)
    ensures !Kept(s)
  {
    SizeOfContents(s.t);
    OfBoth(Contents(s.t));
  }

  lemma LosingRun(s: State) returns (es: seq<Event>)
    requires Doomed(s)
    ensures Legal(s, es) && !Kept(Run(s, es))
  {
    es :| Dooms(s, es);
    LostNotKept(Run(s, es));
  }

  /** After an acknowledgement in any reachable state, every continuation in which the other events are allowed
      keeps all unacknowledged packets in the tiers if and only if it names a packet in flight or no
      fetch is outstanding. */
  lemma AcksAllowed(s: State, id: PacketId, kind: AckOf)
    requires Inv(s)
    ensures (forall es :: Legal(Step(s, Acked(id, kind)), es) ==> Kept(Run(Step(s, Acked(id, kind)), es)))
            <==> Genuine(s.t, id, kind) || !s.t.fetching
  {
    var t := Step(s, Acked(id, kind));
    if Genuine(s.t, id, kind) || !s.t.fetching {
      StepKeeps(s, Acked(id, kind));
      forall es | Legal(t, es) ensures Kept(Run(t, es)) {
        RunKeeps(t, es);
        InvKept(Run(t, es));
      }
    } else {
      StrayIsDoomed(s, id, kind);
      var es := LosingRun(t);
      assert !Kept(Run(t, es));
    }
  }

  /** After a PUBREL has been stored in any reachable state, every continuation in which the other events are allowed
      keeps the PUBRELs in the sending queue until they are acknowledged if and only if no fetch was
      outstanding or asked for. */
  lemma RelsAllowed(s: State, p: Packet)
    requires Inv(s) && p.PubRel?
    ensures (forall es :: Legal(Step(s, Submitted(p)), es) ==>
                          var u := Run(Step(s, Submitted(p)), es); u.rels.left == Of(u.t.w.queue, true))
            <==> !s.t.fetching && !s.t.needFetch
  {
    var t := Step(s, Submitted(p));
    if !s.t.fetching && !s.t.needFetch {
      StepKeeps(s, Submitted(p));
      forall es | Legal(t, es) ensures Run(t, es).rels.left == Of(Run(t, es).t.w.queue, true) {
        RunKeeps(t, es);
        InvKept(Run(t, es));
      }
    } else {
      var t' := StoringRelCounts(s, p);
      RelIsDoomed(s, p);
      var es :| Dooms(t, es);
      assert Legal(t, es) && Run(t, es).rels.left != Of(Run(t, es).t.w.queue, true);
    }
  }
}
