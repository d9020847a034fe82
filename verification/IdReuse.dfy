/** When a packet id may be used again.  `next_packet_id` wraps around and nobody looks whether the id is in use
    (mqtt/mqtt_session.c:260-292), so exactly-once delivery depends on the ids of QoS 2 publishes.

    The runs that show that the condition of `Delivery` cannot be weakened send the queue packet by packet:
    what they hand over is `Undelivered` of the packets sent. */
module IdReuse {
  import opened MessageStore
  import opened Session
  import opened Delivery

  lemma {:induction false} RunAppend(s: System, a: seq<Event>, b: seq<Event>)
    requires s.w.Ok()
    ensures Run(s, a + b) == Run(Run(s, a), b)
    decreases |a|
  {
    if a == [] {
      assert a + b == b;
    } else {
      assert (a + b)[1..] == a[1..] + b;
      RunAppend(Step(s, a[0]), a[1..], b);
    }
  }

  ghost predicate Quiet(es: seq<Event>) {
    forall i :: 0 <= i < |es| ==> !es[i].Submitted?
  }

  lemma {:induction false} QuietLegal(s: System, es: seq<Event>)
    requires s.w.Ok() && Quiet(es)
    ensures Legal(s, es)
    decreases |es|
  {
    if es != [] {
      QuietLegal(Step(s, es[0]), es[1..]);
    }
  }

  /** t can be reached from s without a publish. */
  ghost predicate Reaches(s: System, t: System)
    requires s.w.Ok()
  {
    exists es :: Quiet(es) && Run(s, es) == t
  }

  lemma ReachesStep(s: System, e: Event, t: System)
    requires s.w.Ok() && !e.Submitted? && t == Step(s, e)
    ensures Reaches(s, t)
  {
    assert [e][1..] == [] && Run(t, []) == t;
    assert Quiet([e]) && Run(s, [e]) == t;
  }

  ghost predicate OnlyArrivals(es: seq<Event>) {
    forall i :: 0 <= i < |es| ==> es[i] == ToReceiver || es[i] == ToSender
  }

  /** t can be reached from s by packets arriving, on the connection as it is. */
  ghost predicate Delivers(s: System, t: System)
    requires s.w.Ok()
  {
    exists es :: OnlyArrivals(es) && Run(s, es) == t
  }

  lemma DeliversStep(s: System, e: Event, t: System)
    requires s.w.Ok() && (e == ToReceiver || e == ToSender) && t == Step(s, e)
    ensures Delivers(s, t)
  {
    assert [e][1..] == [] && Run(t, []) == t;
    assert OnlyArrivals([e]) && Run(s, [e]) == t;
  }

  lemma DeliversFurther(s: System, t: System, u: System)
    requires s.w.Ok() && t.w.Ok() && Delivers(s, t) && Delivers(t, u)
    ensures Delivers(s, u)
  {
    var a :| OnlyArrivals(a) && Run(s, a) == t;
    var b :| OnlyArrivals(b) && Run(t, b) == u;
    RunAppend(s, a, b);
    assert OnlyArrivals(a + b) && Run(s, a + b) == u;
  }

  lemma DeliversReaches(s: System, t: System)
    requires s.w.Ok() && Delivers(s, t)
    ensures Reaches(s, t)
  {
    var es :| OnlyArrivals(es) && Run(s, es) == t;
    assert Quiet(es);
  }

  lemma ReachesFurther(s: System, t: System, u: System)
    requires s.w.Ok() && t.w.Ok() && Reaches(s, t) && Reaches(t, u)
    ensures Reaches(s, u)
  {
    var a :| Quiet(a) && Run(s, a) == t;
    var b :| Quiet(b) && Run(t, b) == u;
    RunAppend(s, a, b);
    assert Quiet(a + b) && Run(s, a + b) == u;
  }

  /** Just connected, or everything that was sent has been answered and the answers have arrived. */
  ghost predicate Synced(s: System) {
    Channels(s) && s.connected && s.down == []
  }

  lemma Reconnecting(s: System) returns (t: System)
    requires Channels(s)
    ensures Reaches(s, t) && Synced(t) && t.w == s.w && Later(s, t, s.w.queue, s.ids, [])
  {
    t := Step(s, Connect);
    NoZeros(s.w.InFlight());
    assert t.w.queue[0..t.w.inflight] == s.w.InFlight();
    ReachesStep(s, Connect, t);
    assert s.delivered2 + [] == s.delivered2;
  }

  function Rel(p: Packet): seq<Packet> {
    if Pub(p, 2) then [PubRel(p.id)] else []
  }

  /** The PUBRELs that the packets of a queue leave behind. */
  function Rels(q: seq<Packet>): seq<Packet> {
    if q == [] then [] else Rel(q[0]) + Rels(q[1..])
  }

  /** t is s some exchanges later. */
  ghost predicate Later(s: System, t: System, q: seq<Packet>, ids: set<PacketId>, handed: seq<Message>) {
    && t.w.queue == q && t.w.size == s.w.size && t.ids == ids
    && t.delivered2 == s.delivered2 + handed && t.published2 == s.published2
  }

  /** QoS 0 messages in front of the next packet arrive first. */
  lemma {:induction false} Flush(s: System) returns (t: System)
    requires Channels(s) && s.connected && |s.down| < s.w.inflight
    ensures Delivers(s, t) && Channels(t) && t == s.(up := t.up, delivered0 := t.delivered0)
    ensures t.up != [] && !Pub(t.up[0], 0)
    decreases |s.up|
  {
    assert |Data(s.up)| > 0;
    if Pub(s.up[0], 0) {
      Receiving0Is(s);
      var u := Receiving(s);
      DeliversStep(s, ToReceiver, u);
      t := Flush(u);
      DeliversFurther(s, u, t);
    } else {
      DeliversSelf(s);
      t := s;
    }
  }

  lemma OneTurn(s: System) returns (t: System)
    requires Synced(s) && s.w.size > 0 && s.w.queue != []
    ensures Delivers(s, t) && Synced(t)
    ensures var p := s.w.queue[0];
            Later(s, t, s.w.queue[1..] + Rel(p), Remembered(s.ids, p), Undelivered([p], s.ids))
  {
    var f := Flush(s);
    var u := Receiving(f);
    ReceivingKeepsChannels(f);
    ReceivingIs(f);
    t := Acking(u);
    AckingHead(u);
    AckedKeepsChannels(u, t);
    UndeliveredOne(s.w.queue[0], s.ids);
    assert s.w.queue[1..] + [] == s.w.queue[1..];
    DeliversStep(f, ToReceiver, u);
    DeliversFurther(s, f, u);
    DeliversStep(u, ToSender, t);
    DeliversFurther(s, u, t);
  }

  /** One after the other, the packets a at the front of the queue are sent, answered and released. */
  lemma {:induction false} Turns(s: System, a: seq<Packet>, b: seq<Packet>) returns (t: System)
    requires Synced(s) && s.w.size > 0 && s.w.queue == a + b
    ensures Delivers(s, t) && Synced(t)
    ensures Later(s, t, b + Rels(a), RememberedAfter(a, s.ids), Undelivered(a, s.ids))
    decreases |a|
  {
    if a == [] {
      assert a + b == b == b + [] && s.delivered2 + [] == s.delivered2;
      DeliversSelf(s);
      t := s;
    } else {
      var p, rest := a[0], a[1..];
      FrontOff(a, b, Rel(p));
      var u := OneTurn(s);
      t := Turns(u, rest, b + Rel(p));
      DeliversFurther(s, u, t);
      LaterTurn(s, u, t, p, rest, b);
    }
  }

  lemma DeliversSelf(s: System)
    requires s.w.Ok()
    ensures Delivers(s, s)
  {
    assert OnlyArrivals([]) && Run(s, []) == s;
  }

  lemma FrontOff<T>(a: seq<T>, b: seq<T>, c: seq<T>)
    requires a != []
    ensures (a + b)[0] == a[0] && (a + b)[1..] + c == a[1..] + (b + c) && [a[0]] + a[1..] == a
  {
  }

  lemma Assoc<T>(a: seq<T>, b: seq<T>, c: seq<T>)
    ensures a + b + c == a + (b + c)
  {
  }

  lemma LaterTurn(s: System, u: System, t: System, p: Packet, rest: seq<Packet>, b: seq<Packet>)
    requires Later(s, u, u.w.queue, Remembered(s.ids, p), Undelivered([p], s.ids))
    requires Later(u, t, b + Rel(p) + Rels(rest), RememberedAfter(rest, u.ids), Undelivered(rest, u.ids))
    ensures Later(s, t, b + Rels([p] + rest), RememberedAfter([p] + rest, s.ids), Undelivered([p] + rest, s.ids))
  {
    assert ([p] + rest)[1..] == rest;
    Assoc(b, Rel(p), Rels(rest));
    UndeliveredAppend([p], rest, s.ids);
    UndeliveredOne(p, s.ids);
    Assoc(s.delivered2, Undelivered([p], s.ids), Undelivered(rest, u.ids));
  }

  /** The first n packets arrive, and none of the answers. */
  lemma {:induction false} Receipts(s: System, n: nat) returns (t: System)
    requires Synced(s) && n <= s.w.inflight
    ensures Reaches(s, t) && Channels(t) && t.connected && t.w == s.w && |t.down| == n
    ensures Later(s, t, s.w.queue, RememberedAfter(s.w.queue[..n], s.ids), Undelivered(s.w.queue[..n], s.ids))
  {
    if n == 0 {
      assert s.delivered2 + [] == s.delivered2;
      DeliversSelf(s);
      DeliversReaches(s, s);
      t := s;
    } else {
      var v := Receipts(s, n - 1);
      var u := Flush(v);
      DeliversReaches(v, u);
      ReachesFurther(s, v, u);
      t := Receiving(u);
      ReceivingKeepsChannels(u);
      ReceivingIs(u);
      LaterReceipt(s, u, t, n);
      ReachesStep(u, ToReceiver, t);
      ReachesFurther(s, u, t);
    }
  }

  lemma LaterReceipt(s: System, u: System, t: System, n: nat)
    requires 0 < n <= |s.w.queue| && |u.down| == n - 1 && u.w == s.w && Received(u, t)
    requires Later(s, u, s.w.queue, RememberedAfter(s.w.queue[..n - 1], s.ids), Undelivered(s.w.queue[..n - 1], s.ids))
    ensures Later(s, t, s.w.queue, RememberedAfter(s.w.queue[..n], s.ids), Undelivered(s.w.queue[..n], s.ids))
  {
    var a, p := s.w.queue[..n - 1], s.w.queue[n - 1];
    assert s.w.queue[..n] == a + [p];
    UndeliveredAppend(a, [p], s.ids);
    UndeliveredOne(p, u.ids);
    Assoc(s.delivered2, Undelivered(a, s.ids), Undelivered([p], u.ids));
  }

  // ---------- packets with one id ----------

  lemma {:induction false} Untouched(q: seq<Packet>, ids: set<PacketId>, id: PacketId)
    requires !Uses2(q, id)
    ensures id in RememberedAfter(q, ids) <==> id in ids
  {
    if q != [] {
      assert !(OfQos2(q[0]) && q[0].id == id);
      assert forall i :: 0 <= i < |q| - 1 ==> q[1..][i] == q[i + 1];
      Untouched(q[1..], Remembered(ids, q[0]), id);
    }
  }

  /** After the last packet with an id, a PUBLISH, the id is remembered. */
  lemma LastIsPublish(q: seq<Packet>, ids: set<PacketId>, i: nat)
    requires i < |q| && Pub(q[i], 2) && !Uses2(q[i + 1..], q[i].id)
    ensures q[i].id in RememberedAfter(q, ids)
  {
    assert q == q[..i] + ([q[i]] + q[i + 1..]);
    UndeliveredAppend(q[..i], [q[i]] + q[i + 1..], ids);
    var ids' := RememberedAfter(q[..i], ids);
    UndeliveredAppend([q[i]], q[i + 1..], ids');
    UndeliveredOne(q[i], ids');
    Untouched(q[i + 1..], Remembered(ids', q[i]), q[i].id);
  }

  lemma {:induction false} OnlyRels(q: seq<Packet>, ids: set<PacketId>)
    ensures Rels(Rels(q)) == [] && Undelivered(Rels(q), ids) == []
    ensures |Rels(q)| <= |q|
  {
    if q != [] {
      OnlyRels(q[1..], ids);
      if Pub(q[0], 2) {
        var rel := PubRel(q[0].id);
        OnlyRels(q[1..], Remembered(ids, rel));
        assert Rels(q)[0] == rel && Rels(q)[1..] == Rels(q[1..]);
      } else {
        assert Rels(q) == Rels(q[1..]);
      }
    }
  }

  /** Nothing behind a packet that breaks the condition has its id. */
  lemma NoneBehind(q: seq<Packet>, size: nat, i: nat)
    requires i < |q| && Spaced(q, size) && OfQos2(q[i]) && (Pub(q[i], 2) || |q| - i < size)
    ensures !Uses2(q[i + 1..], q[i].id)
  {
    var rest := q[i + 1..];
    forall j | 0 <= j < |rest| && OfQos2(rest[j]) ensures rest[j].id != q[i].id {
      assert rest[j] == q[i + 1 + j];
    }
  }

  // ---------- a queued PUBLISH with the same id ----------

  /** On a connection that stays up the queue runs empty, and the receiver hands over what it had not. */
  lemma RunsOut(s: System) returns (u: System)
    requires Synced(s) && s.w.size > 0
    ensures Delivers(s, u) && u.w.queue == []
    ensures u.published2 == s.published2 && u.delivered2 == s.delivered2 + Undelivered(s.w.queue, s.ids)
  {
    var q := s.w.queue;
    assert q + [] == q;
    var t := Turns(s, q, []);
    var rels := Rels(q);
    assert [] + rels == rels == rels + [];
    u := Turns(t, rels, []);
    DeliversFurther(s, t, u);
    OnlyRels(q, t.ids);
    assert t.delivered2 + [] == t.delivered2;
  }

  /** The message is taken for a redelivery and lost. */
  lemma ReuseLoses(s: System, m: Message, i: nat, t: System) returns (u: System)
    requires Inv(s) && s.w.size > 0 && i < |s.w.queue| && Pub(s.w.queue[i], 2) && s.w.queue[i].id == s.nextId
    requires t == Submitting(s, m, 2)
    ensures Reaches(t, u) && u.w.queue == [] && u.published2 == s.published2 + [m] && u.delivered2 == s.published2
  {
    SubmittingKeepsChannels(s, t, Publish(s.nextId, 2, m));
    var t' := Reconnecting(t);
    u := RunsOut(t');
    DeliversReaches(t', u);
    ReachesFurther(t, t', u);
    TakenForRedelivery(s, m, i);
    assert t.delivered2 + [] == t.delivered2;
  }

  lemma TakenForRedelivery(s: System, m: Message, i: nat)
    requires Inv(s) && i < |s.w.queue| && Pub(s.w.queue[i], 2) && s.w.queue[i].id == s.nextId
    ensures s.delivered2 + Undelivered(s.w.queue + [Publish(s.nextId, 2, m)], s.ids) == s.published2
  {
    var q, p := s.w.queue, Publish(s.nextId, 2, m);
    NoneBehind(q, s.w.size, i);
    LastIsPublish(q, s.ids, i);
    UndeliveredSnoc(q, p, s.ids);
    assert Undelivered(q, s.ids) + [] == Undelivered(q, s.ids);
  }

  // ---------- a PUBREL with the same id ----------

  /** A PUBREL and a later PUBLISH with its id: the PUBLISH is handed over each time both arrive. */
  lemma HandedAgain(c: seq<Packet>, p: Packet, ids: set<PacketId>)
    requires c != [] && c[0].PubRel? && c[0].id == p.id && Pub(p, 2) && !Uses2(c[1..], p.id)
    ensures Undelivered(c + [p], ids) == Undelivered(c, ids) + [p.message]
  {
    UndeliveredSnoc(c, p, ids);
    Untouched(c[1..], Remembered(ids, c[0]), p.id);
  }

  /** From the PUBREL at the head on: everything arrives, the connection breaks, everything arrives again. */
  lemma TwiceHanded(s: System, c: seq<Packet>, p: Packet, b: seq<Packet>) returns (u: System)
    requires Synced(s) && s.w.queue == c + [p] + b && |c| + 1 <= s.w.size
    requires c != [] && c[0].PubRel? && c[0].id == p.id && Pub(p, 2) && !Uses2(c[1..], p.id)
    ensures Reaches(s, u)
    ensures u.published2 == s.published2 && |u.delivered2| >= |s.delivered2| + |Undelivered(c, s.ids)| + 2
  {
    var cp := c + [p];
    var t := Receipts(s, |cp|);
    assert s.w.queue[..|cp|] == cp;
    var t' := Reconnecting(t);
    ReachesFurther(s, t, t');
    u := Turns(t', cp, b);
    DeliversReaches(t', u);
    ReachesFurther(s, t', u);
    HandedAgain(c, p, s.ids);
    HandedAgain(c, p, t.ids);
  }

  /** The message can be handed over twice. */
  lemma ReuseRepeats(s: System, m: Message, i: nat, t: System) returns (u: System)
    requires Inv(s) && i < |s.w.queue| && s.w.queue[i] == PubRel(s.nextId) && |s.w.queue| - i < s.w.size
    requires t == Submitting(s, m, 2)
    ensures Reaches(t, u) && u.published2 == s.published2 + [m] && |u.delivered2| > |u.published2|
  {
    var q, p := s.w.queue, Publish(s.nextId, 2, m);
    var a, c := q[..i], q[i..];
    SubmittingKeepsChannels(s, t, p);
    assert q == a + c && q + [p] == a + (c + [p]) && c[1..] == q[i + 1..];
    NoneBehind(q, s.w.size, i);
    var t1 := Reconnecting(t);
    var t2 := Turns(t1, a, c + [p]);
    DeliversReaches(t1, t2);
    ReachesFurther(t, t1, t2);
    u := TwiceHanded(t2, c, p, Rels(a));
    ReachesFurther(t, t2, u);
    UndeliveredAppend(a, c, s.ids);
  }

  // ---------- the exact condition ----------

  /** Exactly once and in order, as far as one state shows it. */
  ghost predicate Good(s: System) {
    s.delivered2 <= s.published2 && (s.w.queue == [] ==> s.delivered2 == s.published2)
  }

  /** A QoS 2 publish in any reachable state: every continuation that is legal itself delivers exactly once and
      in order if and only if the id is safe.  Otherwise a queued PUBLISH with the id makes a run possible
      that loses the message, or a near PUBREL one that hands it over twice. */
  lemma SafeIdExact(s: System, m: Message)
    requires Inv(s) && s.w.size > 0
    ensures (forall es :: Legal(Submitting(s, m, 2), es) ==> Good(Run(Submitting(s, m, 2), es)))
            <==> SafeId(s.w, s.nextId)
  {
    var t := Submitting(s, m, 2);
    if SafeId(s.w, s.nextId) {
      SubmittingKeeps(s, m, 2);
      forall es | Legal(t, es) ensures Good(Run(t, es)) {
        RunKeeps(t, es);
        InvGood(Run(t, es));
      }
    } else {
      var es := BadRun(s, m, t);
      assert Legal(t, es) && !Good(Run(t, es));
    }
  }

  lemma BadRun(s: System, m: Message, t: System) returns (es: seq<Event>)
    requires Inv(s) && s.w.size > 0 && !SafeId(s.w, s.nextId) && t == Submitting(s, m, 2)
    ensures Legal(t, es) && !Good(Run(t, es))
  {
    var q, u := s.w.queue, t;
    var i :| 0 <= i < |q| && OfQos2(q[i]) && q[i].id == s.nextId && !(q[i].PubRel? && |q| - i >= s.w.size);
    if Pub(q[i], 2) {
      u := ReuseLoses(s, m, i, t);
    } else {
      u := ReuseRepeats(s, m, i, t);
    }
    es :| Quiet(es) && Run(t, es) == u;
    QuietLegal(t, es);
  }

  lemma InvGood(s: System)
    requires Inv(s)
    ensures Good(s)
  {
    assert s.delivered2 + [] == s.delivered2;
  }
}
