/** Two runs of the three-tier store that lose a packet, from a new store on (store/mqtt_msg_store.c:204-240): one with a
    duplicate acknowledgement, one with a PUBREL, each while a fetch is outstanding. */
module LosingRuns {
  import opened MessageStore
  import opened Session
  import opened TieredStore

  lemma {:induction false} RunAppend(s: State, a: seq<Event>, b: seq<Event>)
    ensures Run(s, a + b) == Run(Run(s, a), b)
    decreases |a|
  {
    if a == [] {
      assert a + b == b;
    } else if s.t.w.Ok() {
      assert (a + b)[1..] == a[1..] + b;
      RunAppend(Step(s, a[0]), a[1..], b);
    }
  }

  function Numbered(id: PacketId, qos: nat, m: Message): Packet { Publish(id, qos, m) }

  function UntilFetch(qos: nat, m: Message): seq<Event> {
    [Submitted(Numbered(0, qos, m))] + ([Submitted(Numbered(1, qos, m))] + ([Perform(0)] + ([Report(0)] + [Acked(0, OfPublish(qos))])))
  }

  function FromDuplicate(qos: nat, m: Message): seq<Event> {
    [Acked(0, OfPublish(qos))] + ([Perform(0)] + ([Report(0)] + ([Submitted(Numbered(2, qos, m))] + ([Perform(0)] + [Report(0)]))))
  }

  lemma Then(s: State, e: Event, t: State, es: seq<Event>)
    requires s.t.w.Ok() && Step(s, e) == t
    ensures Run(s, [e] + es) == Run(t, es)
  {
    assert ([e] + es)[1..] == es;
  }

  lemma Last(s: State, e: Event, t: State)
    requires s.t.w.Ok() && Step(s, e) == t
    ensures Run(s, [e]) == t
  {
    RunOne(s, e);
  }

  // One packet in flight; then another in the hands of a store task; then in the database.

  function OneInFlight(qos: nat, m: Message): State {
    var p0 := Numbered(0, qos, m);
    State(New(1, 2).(w := Window([p0], 1, 1), totalSize := 1), Ledger([p0], [p0], [p0]), EMPTY_LEDGER, [])
  }

  function OneBeingWritten(qos: nat, m: Message): State {
    var p0, p1 := Numbered(0, qos, m), Numbered(1, qos, m);
    State(OneInFlight(qos, m).t.(tasks := [Write([p1])], hasBuffered := true, hasStored := true, storing := true),
          Ledger([p0, p1], [p0], [p0, p1]), EMPTY_LEDGER, [])
  }

  function OneStored(qos: nat, m: Message): State {
    var s := OneBeingWritten(qos, m);
    s.(t := s.t.(tasks := [], storing := false, db := [Numbered(1, qos, m)]))
  }

  /** One packet acknowledged, one in the database, the fetch for it outstanding. */
  function FetchOutstanding(qos: nat, m: Message): State {
    var p0, p1 := Numbered(0, qos, m), Numbered(1, qos, m);
    State(New(1, 2).(hasBuffered := true, hasStored := true, fetching := true, tasks := [Fetch], db := [p1]),
          Ledger([p0, p1], [p0], [p1]), EMPTY_LEDGER, [])
  }

  lemma FirstInFlight(qos: nat, m: Message, es: seq<Event>)
    ensures Run(Init(1, 2), [Submitted(Numbered(0, qos, m))] + es) == Run(OneInFlight(qos, m), es)
  {
    var p0 := Numbered(0, qos, m);
    OfOne(p0, false);
    OfOne(p0, true);
    assert [] + [p0] == [p0];
    Then(Init(1, 2), Submitted(p0), OneInFlight(qos, m), es);
  }

  lemma SecondBeingWritten(qos: nat, m: Message, es: seq<Event>)
    ensures Run(OneInFlight(qos, m), [Submitted(Numbered(1, qos, m))] + es) == Run(OneBeingWritten(qos, m), es)
  {
    var p0, p1 := Numbered(0, qos, m), Numbered(1, qos, m);
    assert [] + [p1] == [p1] && [] + [Write([p1])] == [Write([p1])] && [p0] + [] == [p0] && [p0] + [p1] == [p0, p1];
    Then(OneInFlight(qos, m), Submitted(p1), OneBeingWritten(qos, m), es);
  }

  lemma SecondStored(qos: nat, m: Message, es: seq<Event>)
    ensures Run(OneBeingWritten(qos, m), [Perform(0)] + ([Report(0)] + es)) == Run(OneStored(qos, m), es)
  {
    var s, p1 := OneBeingWritten(qos, m), Numbered(1, qos, m);
    var t := s.(t := s.t.(tasks := [Written], db := [p1]));
    assert [] + [p1] == [p1] && [Write([p1])][0 := Written] == [Written];
    Then(s, Perform(0), t, [Report(0)] + es);
    assert Without([Written], 0) == [];
    SentNothing(OneStored(qos, m));
    Then(t, Report(0), OneStored(qos, m), es);
  }

  lemma FirstAcknowledged(qos: nat, m: Message)
    ensures Run(OneStored(qos, m), [Acked(0, OfPublish(qos))]) == FetchOutstanding(qos, m)
  {
    var p0, p1 := Numbered(0, qos, m), Numbered(1, qos, m);
    assert [] + [Fetch] == [Fetch] && [p0] + [] == [p0] && Without([p0], 0) == [] && Without([p0, p1], 0) == [p1];
    Last(OneStored(qos, m), Acked(0, OfPublish(qos)), FetchOutstanding(qos, m));
  }

  lemma ReachesFetch(qos: nat, m: Message)
    ensures Run(Init(1, 2), UntilFetch(qos, m)) == FetchOutstanding(qos, m)
  {
    var last := [Acked(0, OfPublish(qos))];
    FirstInFlight(qos, m, [Submitted(Numbered(1, qos, m))] + ([Perform(0)] + ([Report(0)] + last)));
    SecondBeingWritten(qos, m, [Perform(0)] + ([Report(0)] + last));
    SecondStored(qos, m, last);
    FirstAcknowledged(qos, m);
  }

  /** Packet 1 in flight, and a second fetch outstanding. */
  function SecondFetch(qos: nat, m: Message): State {
    var p0, p1 := Numbered(0, qos, m), Numbered(1, qos, m);
    State(New(1, 2).(w := Window([p1], 1, 1), totalSize := 1, hasBuffered := true, hasStored := true, fetching := true,
                     tasks := [Fetch]),
          Ledger([p0, p1], [p0, p1], [p1]), EMPTY_LEDGER, [])
  }

  /** Packet 2 is buffered behind it, and the second fetch has found nothing. */
  function SecondFetchEmpty(qos: nat, m: Message): State {
    var p0, p1, p2 := Numbered(0, qos, m), Numbered(1, qos, m), Numbered(2, qos, m);
    State(SecondFetch(qos, m).t.(buffer := [p2], totalSize := 2, needStore := true, tasks := [Fetched([])]),
          Ledger([p0, p1, p2], [p0, p1], [p1, p2]), EMPTY_LEDGER, [])
  }

  lemma DuplicateArrives(qos: nat, m: Message, es: seq<Event>)
    ensures var s := FetchOutstanding(qos, m);
            Run(s, [Acked(0, OfPublish(qos))] + es) == Run(s.(t := s.t.(needFetch := true)), es)
  {
    var s := FetchOutstanding(qos, m);
    SentNothing(s.(t := s.t.(needFetch := true)));
    Then(s, Acked(0, OfPublish(qos)), s.(t := s.t.(needFetch := true)), es);
  }

  /** The fetch has been performed. */
  function FirstFetched(qos: nat, m: Message): State {
    var s := FetchOutstanding(qos, m);
    s.(t := s.t.(needFetch := true, tasks := [Fetched([Numbered(1, qos, m)])], db := []))
  }

  lemma FetchPerformed(t: Tiers, p: Packet)
    requires t.tasks == [Fetch] && t.db == [p]
    ensures Performed(t, 0) == t.(tasks := [Fetched([p])], db := [])
  {
    assert [p][..1] == [p] && [p][1..] == [] && [Fetch][0 := Fetched([p])] == [Fetched([p])];
  }

  lemma FirstFetchPerformed(qos: nat, m: Message, es: seq<Event>)
    ensures var s := FetchOutstanding(qos, m);
            Run(s.(t := s.t.(needFetch := true)), [Perform(0)] + es) == Run(FirstFetched(qos, m), es)
  {
    var s := FetchOutstanding(qos, m).(t := FetchOutstanding(qos, m).t.(needFetch := true));
    FetchPerformed(s.t, Numbered(1, qos, m));
    Then(s, Perform(0), FirstFetched(qos, m), es);
  }

  lemma FirstFetchReported(qos: nat, m: Message, es: seq<Event>)
    ensures Run(FirstFetched(qos, m), [Report(0)] + es) == Run(SecondFetch(qos, m), es)
  {
    var p0, p1, t := Numbered(0, qos, m), Numbered(1, qos, m), FirstFetched(qos, m);
    assert Without(t.t.tasks, 0) == [] && [] + [Fetch] == [Fetch] && [p0] + [p1] == [p0, p1] && [p1][..1] == [p1];
    OfOne(p1, false);
    OfOne(p1, true);
    Then(t, Report(0), SecondFetch(qos, m), es);
  }

  lemma ThirdBuffered(qos: nat, m: Message, es: seq<Event>)
    ensures Run(SecondFetch(qos, m), [Submitted(Numbered(2, qos, m))] + ([Perform(0)] + es)) == Run(SecondFetchEmpty(qos, m), es)
  {
    var p0, p1, p2 := Numbered(0, qos, m), Numbered(1, qos, m), Numbered(2, qos, m);
    var s, u := SecondFetch(qos, m), SecondFetchEmpty(qos, m);
    var t := u.(t := u.t.(tasks := [Fetch]));
    assert [] + [p2] == [p2] && [p0, p1] + [p2] == [p0, p1, p2] && [p1] + [p2] == [p1, p2];
    SentNothing(t);
    Then(s, Submitted(p2), t, [Perform(0)] + es);
    assert [Fetch][0 := Fetched([])] == [Fetched([])];
    Then(t, Perform(0), u, es);
  }

  /** The duplicate acknowledgement of packet 0 makes the store fetch again while packet 1 is in flight,
      and the answer to that fetch replaces the sending queue: packet 1 is not acknowledged and gone. */
  lemma StrayAckLosesPacket(qos: nat, m: Message)
    ensures var s := Run(Init(1, 2), UntilFetch(qos, m) + FromDuplicate(qos, m));
            s.pubs.left == [Numbered(1, qos, m), Numbered(2, qos, m)] && Contents(s.t) == [Numbered(2, qos, m)]
  {
    var last := [Submitted(Numbered(2, qos, m))] + ([Perform(0)] + [Report(0)]);
    RunAppend(Init(1, 2), UntilFetch(qos, m), FromDuplicate(qos, m));
    ReachesFetch(qos, m);
    DuplicateArrives(qos, m, [Perform(0)] + ([Report(0)] + last));
    FirstFetchPerformed(qos, m, [Report(0)] + last);
    FirstFetchReported(qos, m, last);
    ThirdBuffered(qos, m, [Report(0)]);
    BufferReplacesQueue(qos, m);
  }

  lemma BufferReplacesQueue(qos: nat, m: Message)
    ensures var s := Run(SecondFetchEmpty(qos, m), [Report(0)]);
            s.pubs.left == [Numbered(1, qos, m), Numbered(2, qos, m)] && Contents(s.t) == [Numbered(2, qos, m)]
  {
    var s := SecondFetchEmpty(qos, m);
    assert Without(s.t.tasks, 0) == [];
    Last(s, Report(0), Step(s, Report(0)));
  }

  // ---------- a PUBREL stored during a fetch ----------

  /** The PUBREL of packet 0 is sent, and the fetch that the PUBREC started has been performed. */
  function RelInFlight(m: Message): State {
    var s, rel := FetchOutstanding(2, m), PubRel(0);
    s.(t := s.t.(w := Window([rel], 1, 1), totalSize := 1, tasks := [Fetched([Numbered(1, 2, m)])], db := []),
       rels := Ledger([rel], [rel], [rel]))
  }

  lemma RelStored(m: Message, es: seq<Event>)
    ensures Run(FetchOutstanding(2, m), [Submitted(PubRel(0))] + ([Perform(0)] + es)) == Run(RelInFlight(m), es)
  {
    var s, u, rel := FetchOutstanding(2, m), RelInFlight(m), PubRel(0);
    var t := u.(t := u.t.(tasks := [Fetch], db := [Numbered(1, 2, m)]));
    assert [] + [rel] == [rel] && s.pubs.sent + [] == s.pubs.sent;
    OfOne(rel, false);
    OfOne(rel, true);
    Then(s, Submitted(rel), t, [Perform(0)] + es);
    FetchPerformed(t.t, Numbered(1, 2, m));
    Then(t, Perform(0), u, es);
  }

  /** A QoS 2 packet in flight and one in the database: the PUBREC of the first starts the fetch, its PUBREL is queued
      and sent, and the answer replaces the queue.  The PUBREL is in no tier, the second packet was not
      sent, the in-flight count is 1 for a packet that was never written, and no task is outstanding. */
  lemma RelIsReplaced(m: Message)
    ensures var s := Run(Init(1, 2), UntilFetch(2, m) + ([Submitted(PubRel(0))] + ([Perform(0)] + [Report(0)])));
            && s.rels.left == [PubRel(0)] && Contents(s.t) == s.t.w.queue == [Numbered(1, 2, m)]
            && s.pubs.sent == [Numbered(0, 2, m)] && s.t.w.inflight == 1 == s.t.w.size && s.t.tasks == []
  {
    RunAppend(Init(1, 2), UntilFetch(2, m), [Submitted(PubRel(0))] + ([Perform(0)] + [Report(0)]));
    ReachesFetch(2, m);
    RelStored(m, [Report(0)]);
    RelReplacement(m);
  }

  lemma RelReplacement(m: Message)
    ensures var s := Run(RelInFlight(m), [Report(0)]);
            && s.rels.left == [PubRel(0)] && Contents(s.t) == s.t.w.queue == [Numbered(1, 2, m)]
            && s.pubs.sent == [Numbered(0, 2, m)] && s.t.w.inflight == 1 == s.t.w.size && s.t.tasks == []
  {
    var s := RelInFlight(m);
    assert Without(s.t.tasks, 0) == [] && s.pubs.sent + [] == s.pubs.sent;
    Last(s, Report(0), Step(s, Report(0)));
  }
}
