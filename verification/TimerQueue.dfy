/** The timers of an event loop (ev/mqtt_timer.c:94-187,237-250): the heap, the map of registered timers, the
    armed deadline, and a timeout in three parts - draining the heap, running the callbacks, which may
    themselves add, cancel and resume timers, and putting the repeating timers back. */
module TimerQueue {
  import opened TimerHeap

  datatype Timers = Timers(
    h: Heap,
    registered: map<nat, Timer>,  // registered_timers; the value is the timer its pointer leads to
    canceled: set<nat>,           // the timers whose flag is set
    expired: seq<Timer>,          // expired_timers
    armed: int,                   // the deadline last given to the timer descriptor
    nextId: nat)                  // ids not yet used

  datatype Action = Add(expire: int, delay: nat, repeat: bool) | Cancel(id: nat) | Resume(id: nat)

  function Adding(s: Timers, t: Timer): Timers {
    var h := Insert(s.h, t);
    s.(h := h, registered := s.registered[t.id := t], nextId := s.nextId + 1,
       armed := if |h| > 1 && (|s.h| == 1 || h[1] != s.h[1]) then h[1].expire else s.armed)
  }

  function Acting(s: Timers, a: Action): Timers {
    match a
    case Add(expire, delay, repeat) => Adding(s, Timer(s.nextId, expire, delay, repeat))
    case Cancel(id) => if id in s.registered then s.(canceled := s.canceled + {id}) else s
    case Resume(id) => if id in s.registered then s.(canceled := s.canceled - {id}) else s
  }

  function ActingAll(s: Timers, actions: seq<Action>): (t: Timers)
    ensures t.expired == s.expired
    decreases |actions|
  {
    if actions == [] then s else ActingAll(Acting(s, actions[0]), actions[1..])
  }

  function Draining(s: Timers, now: int): Timers {
    var (left, expired) := Drain(s.h, now);
    s.(h := left, expired := s.expired + expired)
  }

  function ActionsAt(actions: seq<seq<Action>>, k: nat): seq<Action> {
    if k < |actions| then actions[k] else []
  }

  /** Runs the callbacks of the expired timers from the k-th on, where the callback of the k-th one takes the
      k-th list of actions; with the timers whose callback ran. */
  function Firing(s: Timers, k: nat, actions: seq<seq<Action>>): (Timers, seq<Timer>)
    decreases |s.expired| - k
  {
    if k >= |s.expired| then (s, [])
    else if s.expired[k].id in s.canceled then Firing(s, k + 1, actions)
    else
      var (t, ran) := Firing(ActingAll(s, ActionsAt(actions, k)), k + 1, actions);
      (t, [s.expired[k]] + ran)
  }

  /** The first expired timer goes back into the heap as y. */
  function Reinserting(s: Timers, y: Timer): Timers
    requires s.expired != []
  {
    s.(h := Insert(s.h, y), registered := s.registered[y.id := y], expired := s.expired[1..])
  }

  function Freeing(s: Timers, id: nat): Timers
    requires s.expired != []
  {
    s.(registered := s.registered - {id}, canceled := s.canceled - {id}, expired := s.expired[1..])
  }

  /** The first expired timer goes back into the heap or is freed. */
  function Returning(s: Timers, now: int): Timers
    requires s.expired != []
  {
    var x := s.expired[0];
    if x.repeat && x.id !in s.canceled then Reinserting(s, x.(expire := now + x.delay)) else Freeing(s, x.id)
  }

  function ReturningAll(s: Timers, now: int): Timers
    decreases |s.expired|
  {
    if s.expired == [] then s else ReturningAll(Returning(s, now), now)
  }

  function Arming(s: Timers): Timers {
    if |s.h| > 1 then s.(armed := s.h[1].expire) else s
  }

  function Timeout(s: Timers, now: int, actions: seq<seq<Action>>): (Timers, seq<Timer>) {
    if |s.h| == 1 then (s, [])
    else
      var (t, ran) := Firing(Draining(s, now), 0, actions);
      (Arming(ReturningAll(t, now)), ran)
  }

  // ---------- the invariant ----------

  function All(s: Timers): multiset<Timer> {
    Bag(s.h) + multiset(s.expired)
  }

  /** The bag and the map hold the same timers, each once. */
  ghost predicate Same(bag: multiset<Timer>, registered: map<nat, Timer>) {
    && (forall t :: t in bag ==> bag[t] == 1 && t.id in registered && registered[t.id] == t)
    && (forall id :: id in registered ==> registered[id].id == id && registered[id] in bag)
  }

  ghost predicate Inv(s: Timers) {
    && Ordered(s.h)
    && Same(All(s), s.registered)
    && (forall id :: id in s.canceled ==> id in s.registered)
    && (forall id :: id in s.registered ==> id < s.nextId)
  }

  /** The descriptor fires when the first timer expires. */
  ghost predicate Armed(s: Timers) {
    |s.h| > 1 ==> s.armed == s.h[1].expire
  }

  /** Between the calls of the event loop. */
  ghost predicate AtRest(s: Timers) {
    Inv(s) && Armed(s) && s.expired == []
  }

  lemma SameAdd(bag: multiset<Timer>, registered: map<nat, Timer>, t: Timer)
    requires Same(bag, registered) && t.id !in registered
    ensures Same(bag + multiset{t}, registered[t.id := t])
  {
    assert t !in bag;
  }

  lemma SameDrop(bag: multiset<Timer>, registered: map<nat, Timer>, t: Timer)
    requires Same(bag + multiset{t}, registered)
    ensures Same(bag, registered - {t.id}) && t.id in registered && registered[t.id] == t
  {
    var all := bag + multiset{t};
    assert t in all && all[t] == 1;
    forall x | x in bag ensures bag[x] == 1 && x.id != t.id && x.id in registered && registered[x.id] == x {
      assert x in all && all[x] == 1;
    }
    forall id | id in registered && id != t.id ensures registered[id] in bag {
      assert registered[id] in all;
    }
  }

  lemma SameReplace(bag: multiset<Timer>, registered: map<nat, Timer>, x: Timer, y: Timer)
    requires Same(bag + multiset{x}, registered) && y.id == x.id
    ensures Same(bag + multiset{y}, registered[x.id := y]) && x.id in registered
  {
    SameDrop(bag, registered, x);
    SameAdd(bag, registered - {x.id}, y);
    assert (registered - {x.id})[x.id := y] == registered[x.id := y];
  }

  lemma BagMoves(a: multiset<Timer>, b: multiset<Timer>, t: Timer)
    ensures a + multiset{t} + b == a + b + multiset{t} == a + (multiset{t} + b)
  {
  }

  /** Nothing already there is touched, except the flags. */
  ghost predicate Grown(s: Timers, t: Timers) {
    && t.expired == s.expired && Bag(s.h) <= Bag(t.h) && s.nextId <= t.nextId
    && (forall id :: id in s.registered ==> id in t.registered && t.registered[id] == s.registered[id])
    && (forall id :: id in t.registered && id !in s.registered ==> s.nextId <= id)
  }

  lemma AddingKeeps(s: Timers, t: Timer, u: Timers)
    requires Inv(s) && t.id == s.nextId && u == Adding(s, t)
    ensures Inv(u) && (Armed(s) ==> Armed(u)) && Grown(s, u)
  {
    InsertKeeps(s.h, t);
    BagMoves(Bag(s.h), multiset(s.expired), t);
    SameAdd(All(s), s.registered, t);
  }

  lemma ActingKeeps(s: Timers, a: Action)
    requires Inv(s)
    ensures Inv(Acting(s, a)) && (Armed(s) ==> Armed(Acting(s, a))) && Grown(s, Acting(s, a))
  {
    if a.Add? {
      AddingKeeps(s, Timer(s.nextId, a.expire, a.delay, a.repeat), Acting(s, a));
    }
  }

  lemma {:induction false} ActingAllKeeps(s: Timers, actions: seq<Action>)
    requires Inv(s)
    ensures var t := ActingAll(s, actions); Inv(t) && (Armed(s) ==> Armed(t)) && Grown(s, t)
    decreases |actions|
  {
    if actions != [] {
      ActingKeeps(s, actions[0]);
      ActingAllKeeps(Acting(s, actions[0]), actions[1..]);
    }
  }

  lemma DrainingKeeps(s: Timers, now: int)
    requires Inv(s)
    ensures Inv(Draining(s, now)) && All(Draining(s, now)) == All(s)
  {
    DrainExact(s.h, now);
    var (left, expired) := Drain(s.h, now);
    assert multiset(s.expired + expired) == multiset(s.expired) + multiset(expired);
    assert All(Draining(s, now)) == All(s);
  }

  lemma {:induction false} FiringKeeps(s: Timers, k: nat, actions: seq<seq<Action>>)
    requires Inv(s)
    ensures var t := Firing(s, k, actions).0; Inv(t) && Grown(s, t)
    decreases |s.expired| - k
  {
    if k < |s.expired| {
      if s.expired[k].id in s.canceled {
        FiringKeeps(s, k + 1, actions);
      } else {
        ActingAllKeeps(s, ActionsAt(actions, k));
        FiringKeeps(ActingAll(s, ActionsAt(actions, k)), k + 1, actions);
      }
    }
  }

  lemma HeadBag(ts: seq<Timer>)
    requires ts != []
    ensures multiset(ts) == multiset{ts[0]} + multiset(ts[1..])
  {
    assert ts == [ts[0]] + ts[1..];
  }

  lemma FreeingKeeps(s: Timers)
    requires Inv(s) && s.expired != []
    ensures Inv(Freeing(s, s.expired[0].id))
  {
    var x, t := s.expired[0], Freeing(s, s.expired[0].id);
    HeadBag(s.expired);
    BagMoves(Bag(s.h), multiset(t.expired), x);
    SameDrop(All(t), s.registered, x);
  }

  lemma ReinsertingKeeps(s: Timers, y: Timer, t: Timers)
    requires Inv(s) && s.expired != [] && y.id == s.expired[0].id && t == Reinserting(s, y)
    ensures Inv(t)
  {
    var x, rest := s.expired[0], multiset(s.expired[1..]);
    HeadBag(s.expired);
    BagMoves(Bag(s.h), rest, x);
    BagMoves(Bag(s.h), rest, y);
    SameReplace(Bag(s.h) + rest, s.registered, x, y);
    InsertKeeps(s.h, y);
  }

  lemma ReturningKeeps(s: Timers, now: int)
    requires Inv(s) && s.expired != []
    ensures Inv(Returning(s, now))
  {
    var x := s.expired[0];
    if x.repeat && x.id !in s.canceled {
      ReinsertingKeeps(s, x.(expire := now + x.delay), Returning(s, now));
    } else {
      FreeingKeeps(s);
    }
  }

  lemma ReturningKeepsBag(s: Timers, now: int)
    requires Ordered(s.h) && s.expired != []
    ensures Bag(s.h) <= Bag(Returning(s, now).h)
  {
    InsertKeeps(s.h, s.expired[0].(expire := now + s.expired[0].delay));
  }

  // ---------- what one timeout does ----------

  ghost predicate Never(actions: seq<seq<Action>>, a: Action) {
    forall k :: 0 <= k < |actions| ==> a !in actions[k]
  }

  lemma {:induction false} FlagStays(s: Timers, actions: seq<Action>, id: nat)
    requires id in s.registered
    ensures var t := ActingAll(s, actions);
            && id in t.registered
            && (Cancel(id) !in actions && id !in s.canceled ==> id !in t.canceled)
            && (Resume(id) !in actions && id in s.canceled ==> id in t.canceled)
    decreases |actions|
  {
    if actions != [] {
      var u := Acting(s, actions[0]);
      assert id in u.registered;
      FlagStays(u, actions[1..], id);
    }
  }

  /** A flag that no callback touches stays as it is. */
  ghost predicate Steady(s: Timers, t: Timers, actions: seq<seq<Action>>, id: nat) {
    && (Never(actions, Cancel(id)) && id !in s.canceled ==> id !in t.canceled)
    && (Never(actions, Resume(id)) && id in s.canceled ==> id in t.canceled)
  }

  lemma FlagStaysAt(s: Timers, k: nat, actions: seq<seq<Action>>, id: nat)
    requires id in s.registered
    ensures var t := ActingAll(s, ActionsAt(actions, k)); id in t.registered && Steady(s, t, actions, id)
  {
    FlagStays(s, ActionsAt(actions, k), id);
  }

  /** The state in which the callbacks reach the i-th timer after the one before. */
  function Turn(s: Timers, i: nat, actions: seq<seq<Action>>): (u: Timers)
    requires i < |s.expired|
    ensures u.expired == s.expired
    ensures Firing(s, i, actions).1 ==
      if s.expired[i].id in s.canceled then Firing(u, i + 1, actions).1 else [s.expired[i]] + Firing(u, i + 1, actions).1
  {
    if s.expired[i].id in s.canceled then s else ActingAll(s, ActionsAt(actions, i))
  }

  /** Some of the timers, in their order. */
  ghost predicate Picked(ran: seq<Timer>, from: seq<Timer>) {
    Sorted(ran) && multiset(ran) <= multiset(from)
  }

  lemma PickedMore(ran: seq<Timer>, from: seq<Timer>)
    requires from != [] && Sorted(from) && Picked(ran, from[1..])
    ensures Picked(ran, from) && Picked([from[0]] + ran, from)
  {
    HeadBag(from);
    forall x | x in ran ensures from[0].expire <= x.expire {
      assert x in multiset(ran) && x in multiset(from[1..]);
    }
    assert multiset([from[0]] + ran) == multiset{from[0]} + multiset(ran);
  }

  /** Callbacks run in the order of the expired timers, each at most once. */
  lemma {:induction false} FiringOnce(s: Timers, k: nat, actions: seq<seq<Action>>)
    requires k <= |s.expired| && Sorted(s.expired)
    ensures Picked(Firing(s, k, actions).1, s.expired[k..])
    decreases |s.expired| - k
  {
    if k < |s.expired| {
      var u := Turn(s, k, actions);
      FiringOnce(u, k + 1, actions);
      assert s.expired[k..][1..] == s.expired[k + 1..];
      PickedMore(Firing(u, k + 1, actions).1, s.expired[k..]);
    }
  }

  lemma {:induction false} FiringOthers(s: Timers, i: nat, actions: seq<seq<Action>>, x: Timer)
    requires i <= |s.expired| && x !in s.expired[i..]
    ensures x !in Firing(s, i, actions).1
    decreases |s.expired| - i
  {
    if i < |s.expired| {
      assert s.expired[i] in s.expired[i..] && s.expired[i + 1..] == s.expired[i..][1..];
      FiringOthers(Turn(s, i, actions), i + 1, actions, x);
    }
  }

  lemma TurnSteady(s: Timers, i: nat, actions: seq<seq<Action>>, id: nat)
    requires id in s.registered && i < |s.expired|
    ensures var u := Turn(s, i, actions); id in u.registered && Steady(s, u, actions, id)
  {
    FlagStaysAt(s, i, actions, id);
  }

  /** What the flag of a timer decides. */
  ghost predicate Decided(s: Timers, x: Timer, actions: seq<seq<Action>>, ran: seq<Timer>) {
    && (x.id !in s.canceled && Never(actions, Cancel(x.id)) ==> x in ran)
    && (x.id in s.canceled && Never(actions, Resume(x.id)) ==> x !in ran)
  }

  /** The state in which the callbacks, having reached the i-th timer, reach the k-th. */
  function ReachedAt(s: Timers, i: nat, k: nat, actions: seq<seq<Action>>): (u: Timers)
    requires k <= |s.expired|
    ensures u.expired == s.expired
    decreases k - i
  {
    if i >= k then s else ReachedAt(Turn(s, i, actions), i + 1, k, actions)
  }

  /** One turn before the k-th. */
  lemma TurnBefore(s: Timers, i: nat, k: nat, actions: seq<seq<Action>>) returns (u: Timers)
    requires i < k <= |s.expired|
    ensures u.expired == s.expired && ReachedAt(s, i, k, actions) == ReachedAt(u, i + 1, k, actions)
    ensures var ran, rest := Firing(s, i, actions).1, Firing(u, i + 1, actions).1;
            ran == rest || ran == [s.expired[i]] + rest
  {
    u := Turn(s, i, actions);
  }

  lemma FiringNow(s: Timers, k: nat, actions: seq<seq<Action>>)
    requires k < |s.expired| && s.expired[k] !in s.expired[k + 1..]
    ensures s.expired[k] in Firing(s, k, actions).1 <==> s.expired[k].id !in s.canceled
  {
    FiringOthers(Turn(s, k, actions), k + 1, actions, s.expired[k]);
  }

  ghost predicate OnlyOnce(expired: seq<Timer>, k: nat) {
    k < |expired| && forall j :: 0 <= j < |expired| && j != k ==> expired[j] != expired[k]
  }

  /** The callback of the k-th expired timer runs exactly if its flag is clear when its turn comes. */
  ghost predicate RunsExactly(s: Timers, i: nat, k: nat, actions: seq<seq<Action>>)
    requires k < |s.expired|
  {
    s.expired[k] in Firing(s, i, actions).1 <==> s.expired[k].id !in ReachedAt(s, i, k, actions).canceled
  }

  lemma ExactNow(s: Timers, k: nat, actions: seq<seq<Action>>)
    requires OnlyOnce(s.expired, k)
    ensures RunsExactly(s, k, k, actions)
  {
    assert s.expired[k] !in s.expired[k + 1..];
    FiringNow(s, k, actions);
  }

  lemma ExactBefore(s: Timers, i: nat, k: nat, actions: seq<seq<Action>>) returns (u: Timers)
    requires i < k && OnlyOnce(s.expired, k)
    ensures u.expired == s.expired && (RunsExactly(u, i + 1, k, actions) ==> RunsExactly(s, i, k, actions))
  {
    u := TurnBefore(s, i, k, actions);
    InFront(s.expired[i], s.expired[k], Firing(s, i, actions).1, Firing(u, i + 1, actions).1);
  }

  lemma {:induction false} FiringExact(s: Timers, i: nat, k: nat, actions: seq<seq<Action>>)
    requires i <= k && OnlyOnce(s.expired, k)
    ensures RunsExactly(s, i, k, actions)
    decreases |s.expired| - i
  {
    if i == k {
      ExactNow(s, k, actions);
    } else {
      var u := ExactBefore(s, i, k, actions);
      FiringExact(u, i + 1, k, actions);
    }
  }

  lemma InFront(y: Timer, x: Timer, ran: seq<Timer>, rest: seq<Timer>)
    requires y != x && (ran == rest || ran == [y] + rest)
    ensures x in ran <==> x in rest
  {
  }

  /** A flag that no callback touches is the same when the turn comes. */
  lemma {:induction false} ReachedSteady(s: Timers, i: nat, k: nat, actions: seq<seq<Action>>, id: nat)
    requires k <= |s.expired| && id in s.registered
    ensures Steady(s, ReachedAt(s, i, k, actions), actions, id)
    decreases k - i
  {
    if i < k {
      TurnSteady(s, i, actions, id);
      ReachedSteady(Turn(s, i, actions), i + 1, k, actions, id);
    }
  }

  lemma TwiceIn(e: seq<Timer>, i: nat, j: nat)
    requires i < j < |e| && e[i] == e[j]
    ensures multiset(e)[e[i]] >= 2
  {
    assert e == e[..j] + ([e[j]] + e[j + 1..]);
    assert e[..j][i] == e[i];
    assert multiset(e) == multiset(e[..j]) + (multiset{e[j]} + multiset(e[j + 1..]));
  }

  lemma ExpiredDistinct(s: Timers)
    requires Inv(s)
    ensures forall i, j :: 0 <= i < j < |s.expired| ==> s.expired[i].id != s.expired[j].id
    ensures forall i :: 0 <= i < |s.expired| ==> s.expired[i].id in s.registered && s.registered[s.expired[i].id] == s.expired[i]
  {
    forall i | 0 <= i < |s.expired| ensures s.expired[i].id in s.registered && s.registered[s.expired[i].id] == s.expired[i] {
      assert s.expired[i] in All(s);
    }
    forall i, j | 0 <= i < j < |s.expired| ensures s.expired[i] != s.expired[j] {
      assert All(s)[s.expired[i]] == 1;
      if s.expired[i] == s.expired[j] {
        TwiceIn(s.expired, i, j);
      }
    }
  }

  /** What becomes of an expired timer whose callback has had its turn. */
  ghost predicate Settled(s: Timers, x: Timer, now: int, t: Timers) {
    if x.repeat && x.id !in s.canceled then
      x.id in t.registered && t.registered[x.id] == x.(expire := now + x.delay) && t.registered[x.id] in Bag(t.h)
    else
      x.id !in t.registered
  }

  lemma ReturningSettles(s: Timers, now: int)
    requires Inv(s) && s.expired != []
    ensures Settled(s, s.expired[0], now, Returning(s, now))
    ensures forall id :: id in Returning(s, now).registered ==> id in s.registered
  {
    ExpiredDistinct(s);
    InsertKeeps(s.h, s.expired[0].(expire := now + s.expired[0].delay));
  }

  lemma {:induction false} ReturningAllKeeps(s: Timers, now: int)
    requires Inv(s)
    ensures var t := ReturningAll(s, now);
            && Inv(t) && t.expired == [] && Bag(s.h) <= Bag(t.h) && t.nextId == s.nextId
            && (forall id :: id in t.registered ==> id in s.registered)
    decreases |s.expired|
  {
    if s.expired != [] {
      ReturningKeeps(s, now);
      ReturningKeepsBag(s, now);
      ReturningSettles(s, now);
      ReturningAllKeeps(Returning(s, now), now);
    }
  }

  lemma SettledStays(s: Timers, x: Timer, now: int, u: Timers, t: Timers)
    requires Settled(s, x, now, u) && Same(All(t), t.registered) && Bag(u.h) <= Bag(t.h)
    requires forall id :: id in t.registered ==> id in u.registered
    ensures Settled(s, x, now, t)
  {
    if x.repeat && x.id !in s.canceled {
      assert u.registered[x.id] in Bag(t.h);
      assert u.registered[x.id] in All(t);
    }
  }

  lemma {:induction false} ReturningAllSettles(s: Timers, now: int, k: nat)
    requires Inv(s) && k < |s.expired|
    ensures Settled(s, s.expired[k], now, ReturningAll(s, now))
    decreases |s.expired|
  {
    var u := Returning(s, now);
    ReturningKeeps(s, now);
    if k == 0 {
      ReturningSettles(s, now);
      ReturningAllKeeps(u, now);
      SettledStays(s, s.expired[0], now, u, ReturningAll(s, now));
    } else {
      ExpiredDistinct(s);
      ReturningAllSettles(u, now, k - 1);
      SettledShift(s, u, s.expired[k], now, ReturningAll(u, now), s.expired[0].id);
    }
  }

  lemma SettledShift(s: Timers, u: Timers, x: Timer, now: int, t: Timers, id: nat)
    requires Settled(u, x, now, t) && x.id != id
    requires u.canceled == s.canceled || u.canceled == s.canceled - {id}
    ensures Settled(s, x, now, t)
  {
  }

  /** x is the k-th expired timer: its callback ran exactly if its flag was clear at its turn, and it is back in the heap
      exactly if it repeats and its flag is clear after all callbacks. */
  ghost predicate ItsTurn(d: Timers, k: nat, x: Timer, now: int, actions: seq<seq<Action>>, t: Timers, ran: seq<Timer>) {
    && k < |d.expired| && d.expired[k] == x
    && (x in ran <==> x.id !in ReachedAt(d, 0, k, actions).canceled)
    && Settled(Firing(d, 0, actions).0, x, now, t)
  }

  /** What a timeout at `now` does to one timer that was in the heap. */
  ghost predicate Handled(s: Timers, x: Timer, now: int, actions: seq<seq<Action>>, t: Timers, ran: seq<Timer>) {
    if x.expire > now then
      x in Bag(t.h) && x !in ran
    else
      && (exists k :: ItsTurn(Draining(s, now), k, x, now, actions, t, ran))
      && Decided(s, x, actions, ran)
      && (if x.id in t.registered then x.repeat && t.registered[x.id] == x.(expire := now + x.delay) else x !in Bag(t.h))
      && (x.id in t.registered ==> t.registered[x.id] in Bag(t.h))
      && (x.repeat && x.id !in s.canceled && Never(actions, Cancel(x.id)) ==> x.id in t.registered)
  }

  lemma ArmingRests(s: Timers)
    requires Inv(s) && s.expired == []
    ensures AtRest(Arming(s)) && Arming(s).nextId == s.nextId && Arming(s).registered == s.registered
  {
    assert All(Arming(s)) == All(s);
  }

  lemma TimeoutKeeps(s: Timers, now: int, actions: seq<seq<Action>>)
    requires AtRest(s)
    ensures var (t, ran) := Timeout(s, now, actions);
            && AtRest(t) && s.nextId <= t.nextId
            && (forall id :: id in t.registered ==> id in s.registered || s.nextId <= id)
  {
    if |s.h| > 1 {
      var d := Draining(s, now);
      DrainingKeeps(s, now);
      FiringKeeps(d, 0, actions);
      var f := Firing(d, 0, actions).0;
      ReturningAllKeeps(f, now);
      ArmingRests(ReturningAll(f, now));
    }
  }

  /** The callbacks that run are those of timers that have expired, once each, in the order of expiry. */
  lemma TimeoutRuns(s: Timers, now: int, actions: seq<seq<Action>>)
    requires AtRest(s)
    ensures var ran := Timeout(s, now, actions).1;
            && Sorted(ran) && multiset(ran) <= Bag(s.h)
            && forall x :: x in ran ==> x.expire <= now
  {
    if |s.h| > 1 {
      var d := Draining(s, now);
      DrainExact(s.h, now);
      assert [] + Drain(s.h, now).1 == d.expired == d.expired[0..];
      FiringOnce(d, 0, actions);
      forall x | x in Firing(d, 0, actions).1 ensures x in d.expired {
        assert x in multiset(Firing(d, 0, actions).1);
        assert x in multiset(d.expired[0..]);
      }
    }
  }

  /** From the first expired timer's turn to the end of the timeout. */
  lemma ExpiredHandled(d: Timers, k: nat, now: int, actions: seq<seq<Action>>)
    requires Inv(d) && k < |d.expired|
    ensures var (f, ran) := Firing(d, 0, actions); var x := d.expired[k];
            && (x in ran <==> x.id !in ReachedAt(d, 0, k, actions).canceled)
            && Decided(d, x, actions, ran) && f.expired == d.expired && Inv(f)
            && (x.id !in d.canceled && Never(actions, Cancel(x.id)) ==> x.id !in f.canceled)
  {
    ExpiredDistinct(d);
    FiringExact(d, 0, k, actions);
    ReachedSteady(d, 0, k, actions, d.expired[k].id);
    FiringKeeps(d, 0, actions);
    FiringSteady(d, 0, actions, d.expired[k].id);
  }

  lemma {:induction false} FiringSteady(s: Timers, i: nat, actions: seq<seq<Action>>, id: nat)
    requires id in s.registered
    ensures Steady(s, Firing(s, i, actions).0, actions, id)
    decreases |s.expired| - i
  {
    if i < |s.expired| {
      if s.expired[i].id in s.canceled {
        FiringSteady(s, i + 1, actions, id);
      } else {
        FlagStaysAt(s, i, actions, id);
        FiringSteady(ActingAll(s, ActionsAt(actions, i)), i + 1, actions, id);
      }
    }
  }

  lemma UnexpiredHandled(s: Timers, d: Timers, f: Timers, t: Timers, x: Timer, now: int)
    requires Inv(s) && x in Bag(s.h) && x.expire > now && d == Draining(s, now)
    requires Bag(d.h) <= Bag(f.h) <= Bag(t.h)
    ensures x in Bag(t.h)
  {
    DrainExact(s.h, now);
    var (left, expired) := Drain(s.h, now);
    assert x !in expired;
    assert x in Bag(left) + multiset(expired);
  }

  lemma ExpiredFound(s: Timers, x: Timer, now: int) returns (k: nat)
    requires AtRest(s) && x in Bag(s.h) && x.expire <= now
    ensures k < |Draining(s, now).expired| && Draining(s, now).expired[k] == x
  {
    DrainExact(s.h, now);
    var (left, expired) := Drain(s.h, now);
    assert Draining(s, now).expired == expired;
    assert x in Bag(left) + multiset(expired);
    assert x in expired;
    k :| 0 <= k < |expired| && expired[k] == x;
  }

  lemma SettledHandled(s: Timers, x: Timer, now: int, actions: seq<seq<Action>>, f: Timers, t: Timers, ran: seq<Timer>)
    requires x.expire <= now && Decided(s, x, actions, ran) && Settled(f, x, now, t) && Inv(t)
    requires x.id !in s.canceled && Never(actions, Cancel(x.id)) ==> x.id !in f.canceled
    requires exists k :: ItsTurn(Draining(s, now), k, x, now, actions, t, ran)
    ensures Handled(s, x, now, actions, t, ran)
  {
    assert x in Bag(t.h) ==> x in All(t);
  }

  /** A timeout is exact: every timer that was in the heap is handled as its expiry, its flag when its turn comes,
      its flag after all callbacks and `repeat` say. */
  lemma TimeoutExact(s: Timers, now: int, actions: seq<seq<Action>>, x: Timer)
    requires AtRest(s) && x in Bag(s.h)
    ensures var (t, ran) := Timeout(s, now, actions); Handled(s, x, now, actions, t, ran)
  {
    var d := Draining(s, now);
    var r := Firing(d, 0, actions);
    var t := ReturningAll(r.0, now);
    DrainingKeeps(s, now);
    TimeoutIs(s, x, now, actions, r, t);
    if x.expire > now {
      UnexpiredExact(s, d, r, t, now, actions, x);
    } else {
      ExpiredExact(s, d, r, t, now, actions, x);
    }
    ArmingHandled(s, x, now, actions, t, Arming(t), r.1);
  }

  lemma TimeoutIs(s: Timers, x: Timer, now: int, actions: seq<seq<Action>>, r: (Timers, seq<Timer>), t: Timers)
    requires AtRest(s) && x in Bag(s.h) && r == Firing(Draining(s, now), 0, actions) && t == ReturningAll(r.0, now)
    ensures Timeout(s, now, actions) == (Arming(t), r.1)
  {
    assert s.h[1..] != [];
  }

  /** Being handled does not depend on what is armed. */
  lemma ArmingHandled(s: Timers, x: Timer, now: int, actions: seq<seq<Action>>, t: Timers, u: Timers, ran: seq<Timer>)
    requires Handled(s, x, now, actions, t, ran) && u.h == t.h && u.registered == t.registered
    ensures Handled(s, x, now, actions, u, ran)
  {
    if x.expire <= now {
      var d := Draining(s, now);
      var k :| ItsTurn(d, k, x, now, actions, t, ran);
      assert ItsTurn(d, k, x, now, actions, u, ran);
    }
  }

  lemma UnexpiredExact(s: Timers, d: Timers, r: (Timers, seq<Timer>), t: Timers, now: int, actions: seq<seq<Action>>, x: Timer)
    requires AtRest(s) && x in Bag(s.h) && x.expire > now
    requires d == Draining(s, now) && Inv(d) && r == Firing(d, 0, actions) && t == ReturningAll(r.0, now)
    ensures Handled(s, x, now, actions, t, r.1)
  {
    FiringKeeps(d, 0, actions);
    ReturningAllKeeps(r.0, now);
    UnexpiredHandled(s, d, r.0, t, x, now);
    TimeoutIs(s, x, now, actions, r, t);
    TimeoutRuns(s, now, actions);
  }

  lemma ExpiredExact(s: Timers, d: Timers, r: (Timers, seq<Timer>), t: Timers, now: int, actions: seq<seq<Action>>, x: Timer)
    requires AtRest(s) && x in Bag(s.h) && x.expire <= now
    requires d == Draining(s, now) && Inv(d) && r == Firing(d, 0, actions) && t == ReturningAll(r.0, now)
    ensures Handled(s, x, now, actions, t, r.1)
  {
    var k := ExpiredFound(s, x, now);
    ExpiredHandled(d, k, now, actions);
    ReturningAllKeeps(r.0, now);
    ReturningAllSettles(r.0, now, k);
    assert ItsTurn(d, k, x, now, actions, t, r.1);
    SettledHandled(s, x, now, actions, r.0, t, r.1);
  }

  // ---------- runs ----------

  datatype Event = Act(action: Action) | Expire(now: int, actions: seq<seq<Action>>)

  function Step(s: Timers, e: Event): (Timers, seq<Timer>) {
    match e
    case Act(a) => (Acting(s, a), [])
    case Expire(now, actions) => Timeout(s, now, actions)
  }

  function Init(): Timers {
    Timers([Timer(0, 0, 0, false)], map[], {}, [], 0, 0)
  }

  /** The state reached, and the timers whose callbacks have run. */
  function Run(s: Timers, es: seq<Event>): (Timers, seq<Timer>)
    decreases |es|
  {
    if es == [] then (s, [])
    else
      var (t, ran) := Step(s, es[0]);
      var (u, more) := Run(t, es[1..]);
      (u, ran + more)
  }

  lemma StepKeeps(s: Timers, e: Event)
    requires AtRest(s)
    ensures var t := Step(s, e).0;
            && AtRest(t) && s.nextId <= t.nextId
            && (forall id :: id in t.registered ==> id in s.registered || s.nextId <= id)
  {
    match e
    case Act(a) => ActingKeeps(s, a);
    case Expire(now, actions) => TimeoutKeeps(s, now, actions);
  }

  /** A timer that does not repeat occurs once. */
  ghost predicate OnceOnly(ran: seq<Timer>) {
    forall i, j :: 0 <= i < j < |ran| && ran[i].id == ran[j].id ==> ran[i].repeat
  }

  ghost predicate KnownTo(ran: seq<Timer>, s: Timers) {
    forall i :: 0 <= i < |ran| ==> ran[i].id in s.registered || s.nextId <= ran[i].id
  }

  lemma StepRuns(s: Timers, e: Event)
    requires AtRest(s)
    ensures var (t, ran) := Step(s, e);
            && (forall i :: 0 <= i < |ran| ==> ran[i].id in s.registered)
            && (forall i, j :: 0 <= i < j < |ran| ==> ran[i].id != ran[j].id)
            && (forall i :: 0 <= i < |ran| && !ran[i].repeat ==> ran[i].id !in t.registered && ran[i].id < t.nextId)
  {
    if e.Expire? {
      var (t, ran) := Step(s, e);
      TimeoutKeeps(s, e.now, e.actions);
      TimeoutRuns(s, e.now, e.actions);
      forall i | 0 <= i < |ran|
        ensures ran[i] in All(s) && ran[i].id in s.registered
        ensures !ran[i].repeat ==> ran[i].id !in t.registered && ran[i].id < t.nextId
      {
        assert ran[i] in multiset(ran);
        assert ran[i] in Bag(s.h);
        TimeoutExact(s, e.now, e.actions, ran[i]);
      }
      forall i, j | 0 <= i < j < |ran| ensures ran[i].id != ran[j].id {
        assert All(s)[ran[i]] == 1;
        if ran[i] == ran[j] {
          TwiceIn(ran, i, j);
        }
      }
    }
  }

  lemma OnceJoin(ran: seq<Timer>, more: seq<Timer>, t: Timers)
    requires OnceOnly(more) && KnownTo(more, t)
    requires forall i, j :: 0 <= i < j < |ran| ==> ran[i].id != ran[j].id
    requires forall i :: 0 <= i < |ran| && !ran[i].repeat ==> ran[i].id !in t.registered && ran[i].id < t.nextId
    ensures OnceOnly(ran + more)
  {
  }

  lemma {:induction false} RunKeepsOnce(s: Timers, es: seq<Event>)
    requires AtRest(s)
    ensures var (t, ran) := Run(s, es); AtRest(t) && OnceOnly(ran) && KnownTo(ran, s)
    decreases |es|
  {
    if es != [] {
      var t := Step(s, es[0]).0;
      StepKeeps(s, es[0]);
      StepRuns(s, es[0]);
      RunKeepsOnce(t, es[1..]);
      OnceJoin(Step(s, es[0]).1, Run(t, es[1..]).1, t);
    }
  }

  /** In every run the heap and the map hold the same timers, the root's expiry is armed, and a timer that
      does not repeat runs its callback at most once. */
  lemma TimersSafe(es: seq<Event>)
    ensures var (t, ran) := Run(Init(), es); AtRest(t) && OnceOnly(ran)
  {
    assert Init().h[1..] == [];
    RunKeepsOnce(Init(), es);
  }
}
