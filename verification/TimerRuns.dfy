/** What becomes of one timer in a run of the event loop (ev/mqtt_timer.c:114-187,237-250): a timer that is added and not
    canceled fires at the first timeout that is late enough, and a canceled one does not fire. */
module TimerRuns {
  import opened TimerHeap
  import opened TimerQueue

  // ---------- single actions ----------

  /** Adding registers the timer with exactly these fields and puts it, alone, into the heap; its flag is clear. */
  lemma AddingAdds(s: Timers, expire: int, delay: nat, repeat: bool)
    requires Inv(s)
    ensures var x, u := Timer(s.nextId, expire, delay, repeat), Acting(s, Add(expire, delay, repeat));
            && x.id !in s.registered && u.registered == s.registered[x.id := x]
            && Bag(u.h) == Bag(s.h) + multiset{x}
            && u.canceled == s.canceled && x.id !in u.canceled
            && u.expired == s.expired && u.nextId == s.nextId + 1
  {
    InsertKeeps(s.h, Timer(s.nextId, expire, delay, repeat));
  }

  /** Canceling sets the flag of a registered timer and resuming clears it; nothing else changes. */
  lemma FlagActions(s: Timers, id: nat)
    ensures var u := Acting(s, Cancel(id));
            u == s.(canceled := u.canceled) && forall x: nat :: x in u.canceled <==> x in s.canceled || (x == id && id in s.registered)
    ensures var u := Acting(s, Resume(id));
            u == s.(canceled := u.canceled) && forall x: nat :: x in u.canceled <==> x in s.canceled && !(x == id && id in s.registered)
  {
  }

  // ---------- flags over a timeout ----------

  lemma {:induction false} ReturningAllFlags(s: Timers, now: int, id: nat)
    requires Inv(s)
    ensures var t := ReturningAll(s, now);
            && (id in t.canceled ==> id in s.canceled)
            && (id in s.canceled && id in t.registered ==> id in t.canceled)
    decreases |s.expired|
  {
    if s.expired != [] {
      var u := Returning(s, now);
      ReturningKeeps(s, now);
      ReturningFlags(s, now, id);
      ReturningAllKeeps(u, now);
      ReturningAllFlags(u, now, id);
    }
  }

  lemma ReturningFlags(s: Timers, now: int, id: nat)
    requires s.expired != []
    ensures var u := Returning(s, now);
            && (id in u.canceled ==> id in s.canceled)
            && (id in s.canceled && id !in u.canceled ==> id !in u.registered)
  {
  }

  /** Over a timeout a flag that no callback touches stays as it is, as long as the timer is registered. */
  lemma TimeoutFlag(s: Timers, now: int, actions: seq<seq<Action>>, id: nat)
    requires AtRest(s) && id in s.registered
    ensures var t := Timeout(s, now, actions).0;
            && (Never(actions, Cancel(id)) && id !in s.canceled ==> id !in t.canceled)
            && (Never(actions, Resume(id)) && id in s.canceled && id in t.registered ==> id in t.canceled)
  {
    if |s.h| > 1 {
      var d := Draining(s, now);
      DrainingKeeps(s, now);
      FiringKeeps(d, 0, actions);
      FiringSteady(d, 0, actions, id);
      ReturningAllFlags(Firing(d, 0, actions).0, now, id);
    }
  }

  // ---------- runs ----------

  /** Nobody, the callbacks included, does this in the run. */
  ghost predicate Nobody(es: seq<Event>, a: Action) {
    forall i :: 0 <= i < |es| ==> (if es[i].Act? then es[i].action != a else Never(es[i].actions, a))
  }

  /** Every timeout of the run comes before the given time. */
  ghost predicate Before(es: seq<Event>, time: int) {
    forall i :: 0 <= i < |es| && es[i].Expire? ==> es[i].now < time
  }

  /** The timer is in the heap and will fire. */
  ghost predicate Ticking(s: Timers, x: Timer) {
    AtRest(s) && x in Bag(s.h) && x.id !in s.canceled
  }

  lemma TickingRegistered(s: Timers, x: Timer)
    requires Ticking(s, x)
    ensures x.id in s.registered && s.registered[x.id] == x
  {
    assert x in All(s);
  }

  lemma ActFlag(s: Timers, a: Action, id: nat)
    ensures a != Cancel(id) && id !in s.canceled ==> id !in Acting(s, a).canceled
    ensures a != Resume(id) && id in s.canceled ==> id in Acting(s, a).canceled
  {
  }

  lemma TickingAct(s: Timers, x: Timer, a: Action, u: Timers)
    requires Ticking(s, x) && AtRest(u) && Grown(s, u) && x.id !in u.canceled
    ensures Ticking(u, x)
  {
  }

  lemma SilencedAct(s: Timers, id: nat, u: Timers)
    requires Silenced(s, id) && AtRest(u) && Grown(s, u) && (id in s.canceled ==> id in u.canceled)
    ensures Silenced(u, id)
  {
  }

  lemma TickingStep(s: Timers, x: Timer, e: Event)
    requires Ticking(s, x) && Nobody([e], Cancel(x.id)) && Before([e], x.expire)
    ensures Ticking(Step(s, e).0, x)
  {
    assert [e][0] == e;
    TickingRegistered(s, x);
    StepKeeps(s, e);
    match e
    case Act(a) =>
      ActingKeeps(s, a);
      ActFlag(s, a, x.id);
      TickingAct(s, x, a, Step(s, e).0);
    case Expire(now, actions) =>
      TimeoutExact(s, now, actions, x);
      TimeoutFlag(s, now, actions, x.id);
  }

  lemma {:induction false} TickingRun(s: Timers, x: Timer, es: seq<Event>)
    requires Ticking(s, x) && Nobody(es, Cancel(x.id)) && Before(es, x.expire)
    ensures Ticking(Run(s, es).0, x)
    decreases |es|
  {
    if es != [] {
      assert [es[0]][0] == es[0];
      TickingStep(s, x, es[0]);
      TickingRun(Step(s, es[0]).0, x, es[1..]);
    }
  }

  /** A timer that is added and not canceled runs its callback at the first timeout that is not before its expiry,
      whatever happens in between. */
  lemma FiresInTime(s: Timers, expire: int, delay: nat, repeat: bool, es: seq<Event>, now: int, actions: seq<seq<Action>>)
    requires AtRest(s) && Nobody(es, Cancel(s.nextId)) && Before(es, expire)
    requires now >= expire && Never(actions, Cancel(s.nextId))
    ensures var u := Run(Acting(s, Add(expire, delay, repeat)), es).0;
            Timer(s.nextId, expire, delay, repeat) in Timeout(u, now, actions).1
  {
    var x := Timer(s.nextId, expire, delay, repeat);
    AddingAdds(s, expire, delay, repeat);
    ActingKeeps(s, Add(expire, delay, repeat));
    var a := Acting(s, Add(expire, delay, repeat));
    TickingRun(a, x, es);
    TimeoutExact(Run(a, es).0, now, actions, x);
  }

  /** The timer is gone, or its flag is set. */
  ghost predicate Silenced(s: Timers, id: nat) {
    AtRest(s) && id < s.nextId && (id in s.registered ==> id in s.canceled)
  }

  lemma SilencedStep(s: Timers, id: nat, e: Event)
    requires Silenced(s, id) && Nobody([e], Resume(id))
    ensures Silenced(Step(s, e).0, id) && forall x :: x in Step(s, e).1 ==> x.id != id
  {
    assert [e][0] == e;
    StepKeeps(s, e);
    if e.Act? {
      ActingKeeps(s, e.action);
      ActFlag(s, e.action, id);
      SilencedAct(s, id, Step(s, e).0);
    } else {
      SilencedTimeout(s, id, e.now, e.actions);
    }
  }

  lemma SilencedTimeout(s: Timers, id: nat, now: int, actions: seq<seq<Action>>)
    requires Silenced(s, id) && Never(actions, Resume(id))
    ensures Silenced(Timeout(s, now, actions).0, id) && forall x :: x in Timeout(s, now, actions).1 ==> x.id != id
  {
    var (t, ran) := Timeout(s, now, actions);
    TimeoutKeeps(s, now, actions);
    TimeoutRuns(s, now, actions);
    if id in s.registered {
      TimeoutFlag(s, now, actions, id);
    }
    forall x | x in ran ensures x.id != id {
      assert x in multiset(ran);
      assert x in Bag(s.h);
      assert x in All(s);
      TimeoutExact(s, now, actions, x);
    }
  }

  /** After a timer has been canceled its callback does not run until somebody resumes it. */
  lemma {:induction false} CanceledIsSilent(s: Timers, id: nat, es: seq<Event>)
    requires Silenced(s, id) && Nobody(es, Resume(id))
    ensures forall x :: x in Run(s, es).1 ==> x.id != id
    decreases |es|
  {
    if es != [] {
      assert [es[0]][0] == es[0];
      SilencedStep(s, id, es[0]);
      CanceledIsSilent(Step(s, es[0]).0, id, es[1..]);
    }
  }

  /** In particular from the cancellation on. */
  lemma CancelSilences(s: Timers, id: nat, es: seq<Event>)
    requires AtRest(s) && id in s.registered && Nobody(es, Resume(id))
    ensures forall x :: x in Run(Acting(s, Cancel(id)), es).1 ==> x.id != id
  {
    ActingKeeps(s, Cancel(id));
    CanceledIsSilent(Acting(s, Cancel(id)), id, es);
  }
}
