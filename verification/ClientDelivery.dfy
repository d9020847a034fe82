/** The client as the sending end (mqtt/mqtt_client.c).  Its window is 1 (line 137), and on a new connection it only opens the
    session again and takes the connection (lines 138-142): nothing is resent.  What was in flight when
    a connection broke stays in flight for ever, and nothing behind it is sent; only QoS 0 messages pass. */
module ClientDelivery {
  import opened MessageStore
  import opened Session
  import opened Delivery
  import opened IdReuse

  /** on_connect_response instead of tmq_session_start; everything else is as at the broker. */
  function ClientStep(s: System, e: Event): (t: System)
    requires s.w.Ok()
    ensures t.w.Ok()
  {
    if e.Connect? then s.(connected := true, up := [], down := []) else Step(s, e)
  }

  function ClientRun(s: System, es: seq<Event>): (t: System)
    requires s.w.Ok()
    ensures t.w.Ok()
    decreases |es|
  {
    if es == [] then s else ClientRun(ClientStep(s, es[0]), es[1..])
  }

  predicate ClientLegal(s: System, es: seq<Event>)
    requires s.w.Ok()
    decreases |es|
  {
    es == [] || (Permitted(s, es[0]) && ClientLegal(ClientStep(s, es[0]), es[1..]))
  }

  // ---------- nothing moves any more ----------

  /** A packet is in flight, and nothing but QoS 0 messages is under way. */
  ghost predicate Frozen(s: System) {
    && s.w.Ok() && s.w.size == 1 && s.w.inflight == 1 && Data(s.up) == [] && s.down == []
    && (!s.connected ==> s.up == [])
  }

  /** Publishes only lengthen the queue. */
  ghost predicate Idles(s: System, t: System) {
    && t.delivered1 == s.delivered1 && t.delivered2 == s.delivered2 && t.acked1 == s.acked1
    && s.w.queue <= t.w.queue && s.published1 <= t.published1 && s.published2 <= t.published2
  }

  lemma FrozenStep(s: System, e: Event)
    requires Frozen(s)
    ensures Frozen(ClientStep(s, e)) && Idles(s, ClientStep(s, e))
  {
    match e
    case Submitted(m, qos) =>
      ZeroUnderWay(s.up, m);
      assert s.up + [] == s.up;
    case TakeId =>
    case ToReceiver =>
      if s.up != [] {
        Receiving0Is(s);
      }
    case ToSender =>
    case Disconnect =>
    case Connect =>
  }

  lemma {:induction false} FrozenRun(s: System, es: seq<Event>)
    requires Frozen(s)
    ensures Frozen(ClientRun(s, es)) && Idles(s, ClientRun(s, es))
    decreases |es|
  {
    if es != [] {
      FrozenStep(s, es[0]);
      FrozenRun(ClientStep(s, es[0]), es[1..]);
    }
  }

  // ---------- the invariant ----------

  /** Without its connection. */
  function Shut(s: System): System {
    s.(connected := false, up := [])
  }

  /** The protocol's invariant, where a connection on which nothing moves counts as no connection. */
  ghost predicate ClientInv(s: System) {
    s.w.size == 1 && (Inv(s) || (Frozen(s) && Inv(Shut(s)) && Ledger0(s)))
  }

  lemma OpenedEmpty(d: System, t: System)
    requires Inv(d) && !d.connected && d.w.inflight == 0 && t == d.(connected := true)
    ensures Inv(t)
  {
    assert d.w.queue[0..0] == [];
  }

  lemma ConnectingKeeps(s: System, t: System)
    requires ClientInv(s) && t == ClientStep(s, Connect)
    ensures ClientInv(t) && (if s.w.inflight == 0 then Inv(t) else Frozen(t))
  {
    var d := s.(connected := false, up := [], down := []);
    if Inv(s) {
      assert d == Step(s, Disconnect);
      StepKeeps(s, Disconnect);
    }
    assert Shut(t) == d && Zeros(t.up) == Zeros(d.up);
    if s.w.inflight == 0 {
      OpenedEmpty(d, t);
    }
  }

  lemma FrozenReceives(s: System, t: System)
    requires Frozen(s) && Inv(Shut(s)) && Ledger0(s) && s.up != [] && t == Receiving(s)
    ensures Inv(Shut(t)) && Ledger0(t)
  {
    Receiving0Is(s);
    assert t.delivered0 + Zeros(t.up) == s.delivered0 + Zeros(s.up);
    ShutKeeps(Shut(s), t, Shut(t));
  }

  lemma ShutKeeps(d: System, t: System, u: System)
    requires Inv(d) && d.up == [] && u == d.(delivered0 := t.delivered0) && t.published0 == d.published0 && Ledger0(t)
    ensures Inv(u)
  {
    ChangeKeepsLedger0(t, u);
    SameButZeros(d, u);
  }

  lemma FrozenSubmits(s: System, m: Message, qos: nat, t: System)
    requires Frozen(s) && Inv(Shut(s)) && Ledger0(s) && Permitted(s, Submitted(m, qos)) && t == Step(s, Submitted(m, qos))
    ensures Inv(Shut(t)) && Ledger0(t)
  {
    assert s.up + [] == s.up;
    assert Shut(t) == Step(Shut(s), Submitted(m, qos));
    StepKeeps(Shut(s), Submitted(m, qos));
    if qos == 0 {
      ZeroUnderWay(s.up, m);
      Submitting0Ledger(s, m, t);
    }
  }

  lemma FrozenKeeps(s: System, e: Event, t: System)
    requires Frozen(s) && Inv(Shut(s)) && Ledger0(s) && Permitted(s, e) && !e.Connect? && t == ClientStep(s, e)
    ensures Frozen(t) && Inv(Shut(t)) && Ledger0(t)
  {
    FrozenStep(s, e);
    match e
    case Submitted(m, qos) => FrozenSubmits(s, m, qos, t);
    case TakeId => assert Shut(t) == Step(Shut(s), e); StepKeeps(Shut(s), e);
    case ToReceiver => if s.up != [] { FrozenReceives(s, t); }
    case ToSender =>
    case Disconnect =>
      assert Shut(t) == Shut(s);
      ChangeKeepsLedger0(s, t);
  }

  lemma ClientStepKeeps(s: System, e: Event)
    requires ClientInv(s) && Permitted(s, e)
    ensures ClientInv(ClientStep(s, e))
  {
    var t := ClientStep(s, e);
    if e.Connect? {
      ConnectingKeeps(s, t);
    } else if Inv(s) {
      StepKeeps(s, e);
      SizeStays(s, e);
    } else {
      FrozenKeeps(s, e, t);
    }
  }

  lemma SizeStays(s: System, e: Event)
    requires Inv(s)
    ensures Step(s, e).w.size == s.w.size
  {
    if e == ToSender && s.down != [] {
      AckingHead(s);
    }
  }

  lemma {:induction false} ClientRunKeeps(s: System, es: seq<Event>)
    requires ClientInv(s) && ClientLegal(s, es)
    ensures ClientInv(ClientRun(s, es))
    decreases |es|
  {
    if es != [] {
      ClientStepKeeps(s, es[0]);
      ClientRunKeeps(ClientStep(s, es[0]), es[1..]);
    }
  }

  // ---------- safety ----------

  /** Exactly once and at least once, in order, hold for the client, too: what is not handed over is in the queue. */
  lemma ClientInOrder(firstId: PacketId, es: seq<Event>)
    requires ClientLegal(Init(1, firstId), es)
    ensures var s := ClientRun(Init(1, firstId), es);
            && s.delivered2 <= s.published2 && s.published2 == s.delivered2 + Undelivered(s.w.queue, s.ids)
            && s.published1 == s.acked1 + Qos1(s.w.queue)
            && InOrder(s.delivered1, s.published1, |s.acked1|)
            && Subsequence(s.delivered0, s.published0)
  {
    InitInv(1, firstId);
    ClientRunKeeps(Init(1, firstId), es);
    var s := ClientRun(Init(1, firstId), es);
    var d := if Inv(s) then s else Shut(s);
    SubsequencePrefix(s.delivered0, Zeros(s.up), s.published0);
    InOrderStill(d.delivered1, d.published1, d.published1, Through(d), |d.acked1|);
  }

  // ---------- progress ----------

  /** After a connection breaks with a packet in flight, no run of the client, with whatever publishes and
      reconnections, hands over or releases anything more. */
  lemma BreakIsFinal(s: System, es: seq<Event>)
    requires ClientInv(s) && s.w.inflight > 0
    ensures var u := ClientRun(ClientStep(s, Disconnect), es);
            Idles(s, u) && u.w.queue != [] && !AllDelivered(u)
  {
    FrozenRun(ClientStep(s, Disconnect), es);
  }

  /** What is published so far can still arrive and be acknowledged on this connection. */
  ghost predicate CanFinish(s: System)
    requires s.w.Ok()
  {
    exists es :: OnlyArrivals(es) && AllDelivered(Run(s, es))
  }

  lemma {:induction false} UpRunIs(s: System, es: seq<Event>)
    requires Inv(s) && s.connected && s.w.size == 1 && StaysUp(es) && ClientLegal(s, es)
    ensures var u := ClientRun(s, es); u == Run(s, es) && Inv(u) && u.connected && u.w.size == 1
    decreases |es|
  {
    if es != [] {
      assert es[0] != Connect && es[0] != Disconnect;
      UpStepIs(s, es[0]);
      UpRunIs(Step(s, es[0]), es[1..]);
    }
  }

  lemma UpStepIs(s: System, e: Event)
    requires Inv(s) && s.connected && s.w.size == 1 && Permitted(s, e) && e != Connect && e != Disconnect
    ensures var u := Step(s, e); u == ClientStep(s, e) && Inv(u) && u.connected && u.w.size == 1
  {
    StepKeeps(s, e);
    SizeStays(s, e);
  }

  lemma {:induction false} Finishes(s: System)
    requires Inv(s) && s.connected && s.w.size > 0
    ensures CanFinish(s)
    decreases Work(s)
  {
    if s.up == [] && s.down == [] {
      Quiescent(s);
      assert OnlyArrivals([]) && Run(s, []) == s;
    } else {
      var e := if s.up != [] then ToReceiver else ToSender;
      DeliveryWorks(s, e);
      SizeStays(s, e);
      Finishes(Step(s, e));
      FinishesBefore(s, e, Step(s, e));
    }
  }

  lemma FinishesBefore(s: System, e: Event, u: System)
    requires s.w.Ok() && (e == ToReceiver || e == ToSender) && u == Step(s, e) && CanFinish(u)
    ensures CanFinish(s)
  {
    var es :| OnlyArrivals(es) && AllDelivered(Run(u, es));
    assert ([e] + es)[1..] == es;
    assert OnlyArrivals([e] + es) && Run(s, [e] + es) == Run(u, es);
  }

  lemma {:induction false} FrozenArrivals(s: System, es: seq<Event>)
    requires Frozen(s) && OnlyArrivals(es)
    ensures Run(s, es).w == s.w
    decreases |es|
  {
    if es != [] {
      assert es[0] == ToReceiver || es[0] == ToSender;
      FrozenStep(s, es[0]);
      if es[0] == ToReceiver && s.up != [] {
        Receiving0Is(s);
      }
      FrozenArrivals(Step(s, es[0]), es[1..]);
    }
  }

  /** A client's new connection delivers everything that is published while it stays up, if and only if
      nothing was in flight when it was made. */
  lemma ReconnectExact(s: System)
    requires ClientInv(s)
    ensures var t := ClientStep(s, Connect);
            (forall es :: ClientLegal(t, es) && StaysUp(es) ==> CanFinish(ClientRun(t, es))) <==> s.w.inflight == 0
  {
    var t := ClientStep(s, Connect);
    ConnectingKeeps(s, t);
    if s.w.inflight == 0 {
      forall es | ClientLegal(t, es) && StaysUp(es) ensures CanFinish(ClientRun(t, es)) {
        UpRunIs(t, es);
        Finishes(ClientRun(t, es));
      }
    } else {
      NeverFinishes(t);
      assert ClientLegal(t, []) && StaysUp([]) && ClientRun(t, []) == t;
    }
  }

  lemma NeverFinishes(s: System)
    requires Frozen(s)
    ensures !CanFinish(s)
  {
    forall es | OnlyArrivals(es) ensures !AllDelivered(Run(s, es)) {
      FrozenArrivals(s, es);
    }
  }

  // ---------- packet ids ----------

  lemma ClientGood(s: System)
    requires ClientInv(s)
    ensures Good(s)
  {
    InvGood(if Inv(s) then s else Shut(s));
  }

  lemma FrozenGood(s: System, t: System)
    requires Frozen(s) && Frozen(t) && Idles(s, t) && s.delivered2 <= s.published2
    ensures Good(t)
  {
  }

  lemma {:induction false} ArrivalsRun(s: System, es: seq<Event>)
    requires s.w.Ok() && OnlyArrivals(es)
    ensures ClientRun(s, es) == Run(s, es) && ClientLegal(s, es)
    decreases |es|
  {
    if es != [] {
      assert es[0] == ToReceiver || es[0] == ToSender;
      ArrivalsRun(Step(s, es[0]), es[1..]);
    }
  }

  /** With a window of 1 an unsafe id is that of a queued PUBLISH, and the new message is lost when the queue runs empty. */
  lemma ClientLoses(s: System, m: Message, i: nat, t: System) returns (u: System)
    requires Inv(s) && s.connected && s.w.size == 1 && t == Submitting(s, m, 2)
    requires i < |s.w.queue| && Pub(s.w.queue[i], 2) && s.w.queue[i].id == s.nextId
    ensures Delivers(t, u) && u.w.queue == [] && u.published2 == s.published2 + [m] && u.delivered2 == s.published2
  {
    SubmittingKeepsChannels(s, t, Publish(s.nextId, 2, m));
    TakenForRedelivery(s, m, i);
    if t.down != [] {
      assert s.w.queue[..|s.down|][0] == t.w.queue[0];
    }
    u := EmptiesQueue(t);
  }

  /** Whatever is under way, the queue can run empty. */
  lemma EmptiesQueue(t: System) returns (u: System)
    requires Channels(t) && t.connected && t.w.size == 1 && (t.down != [] ==> Seen([t.w.queue[0]], t.ids))
    ensures Delivers(t, u) && u.w.queue == []
    ensures u.published2 == t.published2 && u.delivered2 == t.delivered2 + Undelivered(t.w.queue, t.ids)
  {
    if t.down == [] {
      u := RunsOut(t);
    } else {
      var v := Acking(t);
      AckingHead(t);
      AckedKeepsChannels(t, v);
      UndeliveredAfterAck(t.w.queue, t.ids);
      DeliversStep(t, ToSender, v);
      u := RunsOut(v);
      DeliversFurther(t, v, u);
    }
  }

  /** The client's exact condition: unless it is frozen, a QoS 2 publish is exactly once and in order in every legal
      continuation if and only if the id is safe. */
  lemma ClientSafeIdExact(s: System, m: Message)
    requires ClientInv(s)
    ensures (forall es :: ClientLegal(Submitting(s, m, 2), es) ==> Good(ClientRun(Submitting(s, m, 2), es)))
            <==> SafeId(s.w, s.nextId) || Frozen(s)
  {
    var t := Submitting(s, m, 2);
    if Frozen(s) {
      ClientGood(s);
      FrozenStep(s, Submitted(m, 2));
      forall es | ClientLegal(t, es) ensures Good(ClientRun(t, es)) {
        FrozenRun(t, es);
        FrozenGood(t, ClientRun(t, es));
      }
    } else if SafeId(s.w, s.nextId) {
      ClientStepKeeps(s, Submitted(m, 2));
      forall es | ClientLegal(t, es) ensures Good(ClientRun(t, es)) {
        ClientRunKeeps(t, es);
        ClientGood(ClientRun(t, es));
      }
    } else {
      var es := ClientBadRun(s, m, t);
      assert ClientLegal(t, es) && !Good(ClientRun(t, es));
    }
  }

  lemma ClientBadRun(s: System, m: Message, t: System) returns (es: seq<Event>)
    requires ClientInv(s) && !Frozen(s) && !SafeId(s.w, s.nextId) && t == Submitting(s, m, 2)
    ensures ClientLegal(t, es) && !Good(ClientRun(t, es))
  {
    var q := s.w.queue;
    var i :| 0 <= i < |q| && OfQos2(q[i]) && q[i].id == s.nextId && !(q[i].PubRel? && |q| - i >= s.w.size);
    var u := ClientLoses(s, m, i, t);
    es :| OnlyArrivals(es) && Run(t, es) == u;
    ArrivalsRun(t, es);
  }

  // ---------- the ids do come round ----------

  function TakeIds(n: nat): (es: seq<Event>)
    ensures |es| == n
  {
    seq(n, _ => TakeId)
  }

  lemma {:induction false} TakingIds(s: System, n: nat)
    requires s.w.Ok()
    ensures ClientRun(s, TakeIds(n)) == s.(nextId := (s.nextId + n) % 0x1_0000)
    decreases n
  {
    if n > 0 {
      assert TakeIds(n)[1..] == TakeIds(n - 1);
      TakingIds(s.(nextId := Successor(s.nextId)), n - 1);
    }
  }

  lemma {:induction false} ClientRunAppend(s: System, a: seq<Event>, b: seq<Event>)
    requires s.w.Ok()
    ensures ClientRun(s, a + b) == ClientRun(ClientRun(s, a), b)
    decreases |a|
  {
    if a == [] {
      assert a + b == b;
    } else {
      assert (a + b)[1..] == a[1..] + b;
      ClientRunAppend(ClientStep(s, a[0]), a[1..], b);
    }
  }

  lemma ClientRunOne(s: System, e: Event, t: System)
    requires s.w.Ok() && t == ClientStep(s, e)
    ensures ClientRun(s, [e]) == t
  {
    assert [e][1..] == [] && ClientRun(t, []) == t;
  }

  /** The ids wrap around: a client that connects, publishes, subscribes 65535 times and publishes again before the first
      exchange has ended uses one id twice, and when the packets arrive the second message is never
      handed over, although the queue runs empty. */
  lemma ReusedIdLosesMessage(m0: Message, m1: Message) returns (es: seq<Event>)
    ensures [Connect] + [Submitted(m0, 2)] + TakeIds(0xFFFF) + [Submitted(m1, 2)] <= es
    ensures OnlyArrivals(es[0x1_0002..])
    ensures var u := ClientRun(Init(1, 0), es);
            u.w.queue == [] && u.published2 == [m0, m1] && u.delivered2 == [m0]
  {
    var front := [Connect] + [Submitted(m0, 2)] + TakeIds(0xFFFF);
    var s1 := FirstPublish(m0);
    var s := IdsComeRound(m0, s1, TakeIds(0xFFFF));
    es := LoseSecond(Init(1, 0), front, s, m0, m1);
  }

  lemma FirstPublish(m0: Message) returns (s: System)
    ensures s == ClientRun(Init(1, 0), [Connect] + [Submitted(m0, 2)])
    ensures Inv(s) && s.connected && s.nextId == 1 && s.w.size == 1 && s.w.queue == [Publish(0, 2, m0)] && s.published2 == [m0]
  {
    var s0, p := Init(1, 0), Publish(0, 2, m0);
    var c := ClientStep(s0, Connect);
    InitInv(1, 0);
    ConnectingKeeps(s0, c);
    s := Submitting(c, m0, 2);
    SubmittingKeeps(c, m0, 2);
    assert [] + [p] == [p] && [] + [m0] == [m0];
    ClientRunOne(s0, Connect, c);
    ClientRunOne(c, Submitted(m0, 2), s);
    ClientRunAppend(s0, [Connect], [Submitted(m0, 2)]);
  }

  lemma IdsComeRound(m0: Message, s1: System, takes: seq<Event>) returns (s: System)
    requires takes == TakeIds(0xFFFF) && s1 == ClientRun(Init(1, 0), [Connect] + [Submitted(m0, 2)]) && s1.nextId == 1
    ensures s == s1.(nextId := 0) && s == ClientRun(Init(1, 0), [Connect] + [Submitted(m0, 2)] + takes)
  {
    ClientRunAppend(Init(1, 0), [Connect] + [Submitted(m0, 2)], takes);
    TakingIds(s1, 0xFFFF);
    s := s1.(nextId := 0);
  }

  lemma LoseSecond(s0: System, front: seq<Event>, s: System, m0: Message, m1: Message) returns (es: seq<Event>)
    requires s0.w.Ok() && ClientRun(s0, front) == s && Inv(s) && s.connected && s.w.size == 1 && s.nextId == 0
    requires s.w.queue == [Publish(0, 2, m0)] && s.published2 == [m0]
    ensures front + [Submitted(m1, 2)] <= es && OnlyArrivals(es[|front| + 1..])
    ensures var u := ClientRun(s0, es); u.w.queue == [] && u.published2 == [m0, m1] && u.delivered2 == [m0]
  {
    var t := Submitting(s, m1, 2);
    ClientRunOne(s, Submitted(m1, 2), t);
    ClientRunAppend(s0, front, [Submitted(m1, 2)]);
    var u := ClientLoses(s, m1, 0, t);
    var rest :| OnlyArrivals(rest) && Run(t, rest) == u;
    ArrivalsRun(t, rest);
    ClientRunAppend(s0, front + [Submitted(m1, 2)], rest);
    es := front + [Submitted(m1, 2)] + rest;
    assert es[|front| + 1..] == rest && [m0] + [m1] == [m0, m1];
  }
}
