/** The timer heap as the event loop keeps it (ev/mqtt_timer.c:65-187,237-250): an array that is shifted in
    place and doubled when full.  Every method is proved equal to its function in TimerHeap or TimerQueue. */
module EventTimers {
  import opened TimerHeap
  import opened TimerQueue

  const INITIAL_SIZE: nat := 16

  class EventTimers {
    var heap: array<Timer>   // slot 0 is not used, so cap is heap.Length - 1
    var size: nat
    var registered: map<nat, Timer>
    var canceled: set<nat>
    var expired: seq<Timer>
    var armed: int
    var nextId: nat

    ghost predicate Sized()
      reads this
    {
      size < heap.Length && 2 <= heap.Length
    }

    ghost function Timers(): seq<Timer>
      requires Sized()
      reads this, heap
    {
      heap[..size + 1]
    }

    ghost function View(): TimerQueue.Timers
      requires Sized()
      reads this, heap
    {
      TimerQueue.Timers(Timers(), registered, canceled, expired, armed, nextId)
    }

    constructor ()
      ensures Sized() && fresh(heap) && View() == Init() && AtRest(View())
    {
      heap := new Timer[INITIAL_SIZE + 1](_ => Timer(0, 0, 0, false));
      size, registered, canceled, expired, armed, nextId := 0, map[], {}, [], 0, 0;
      new;
      assert Timers() == Init().h;
      TimersSafe([]);
    }

    /** The array is the heap h but for a hole at i. */
    ghost predicate HoleAt(h: seq<Timer>, i: nat)
      requires Sized()
      reads this, heap
    {
      |h| == size + 1 && i <= size && forall k :: 0 <= k <= size && k != i ==> heap[k] == h[k]
    }

    /** Moves the hole at idx up, parents coming down, until the timer fits into it. */
    method TimerSwim(idx: nat)
      requires Sized() && 1 <= idx <= size
      modifies heap
      ensures Timers() == Swim(old(Timers()), idx)
    {
      var i, p, timer := idx, idx / 2, heap[idx];
      ghost var h := Timers();
      while p > 0 && timer.expire < heap[p].expire
        invariant 1 <= i <= size && p == i / 2
        invariant HoleAt(h, i) && h[i] == timer && Swim(h, i) == Swim(old(Timers()), idx)
        decreases i
      {
        SwimUp(h, i);
        MoveHole(h, i, p);
        h := Swap(h, i, p);
        i, p := p, p / 2;
      }
      SwimStays(h, i);
      heap[i] := timer;
      assert Timers() == h;
    }

    /** Moves the hole at idx down, the child that expires first coming up. */
    method TimerSink(idx: nat)
      requires Sized() && 1 <= idx <= size
      modifies heap
      ensures Timers() == Sink(old(Timers()), idx)
    {
      var i, timer := idx, heap[idx];
      ghost var h := Timers();
      while 2 * i <= size
        invariant 1 <= i <= size
        invariant HoleAt(h, i) && h[i] == timer && Sink(h, i) == Sink(old(Timers()), idx)
        decreases size - i
      {
        var child := FirstChild(i, h);
        if heap[child].expire < timer.expire {
          SinkDown(h, i);
          MoveHole(h, i, child);
          h := Swap(h, i, child);
        } else {
          break;
        }
        i := child;
      }
      SinkStays(h, i);
      heap[i] := timer;
      assert Timers() == h;
    }

    /** The timer at j comes to the hole at i, so that the hole is at j. */
    method MoveHole(ghost h: seq<Timer>, i: nat, j: nat)
      requires Sized() && 1 <= i <= size && 1 <= j <= size && i != j && HoleAt(h, i)
      modifies heap
      ensures HoleAt(Swap(h, i, j), j)
    {
      heap[i] := heap[j];
    }

    method FirstChild(i: nat, ghost h: seq<Timer>) returns (child: nat)
      requires Sized() && 1 <= i && 2 * i <= size && HoleAt(h, i)
      ensures child == Child(h, i)
    {
      child := 2 * i;
      var right := 2 * i + 1;
      if right <= size && heap[right].expire < heap[child].expire {
        child := right;
      }
    }

    method Grow()
      requires Sized()
      modifies this`heap
      ensures Sized() && fresh(heap) && heap.Length == 2 * old(heap).Length - 1 && View() == old(View())
    {
      var bigger := new Timer[2 * heap.Length - 1](_ => Timer(0, 0, 0, false));
      forall i | 0 <= i < heap.Length {
        bigger[i] := heap[i];
      }
      heap := bigger;
      assert Timers() == old(Timers());
    }

    method Append(timer: Timer)
      requires Sized()
      modifies this`heap, this`size, heap
      ensures Sized() && (heap == old(heap) || fresh(heap))
      ensures size == old(size) + 1 && Timers() == old(Timers()) + [timer]
    {
      ghost var h := Timers();
      if size == heap.Length - 1 {
        Grow();
      }
      assert Timers() == h;
      size := size + 1;
      heap[size] := timer;
      assert Timers() == h + [timer];
    }

    /** True when the root is another timer than before. */
    method HeapInsert(timer: Timer) returns (rootChanged: bool)
      requires Sized()
      modifies this`heap, this`size, heap
      ensures Sized() && (heap == old(heap) || fresh(heap))
      ensures size == old(size) + 1 && Timers() == Insert(old(Timers()), timer)
      ensures rootChanged == (old(size) == 0 || heap[1] != old(heap[1]))
    {
      var empty, top := size == 0, heap[1];
      Append(timer);
      TimerSwim(size);
      rootChanged := empty || heap[1] != top;
    }

    method AddTimer(expire: int, delay: nat, repeat: bool) returns (id: nat)
      requires Sized()
      modifies this, heap
      ensures Sized() && (heap == old(heap) || fresh(heap))
      ensures View() == Acting(old(View()), Add(expire, delay, repeat)) && id == old(nextId)
    {
      ghost var h := Timers();
      id := nextId;
      var timer := Timer(id, expire, delay, repeat);
      var rootChanged := HeapInsert(timer);
      assert heap[1] == Timers()[1];
      if rootChanged {
        armed := heap[1].expire;
      }
      nextId := nextId + 1;
      registered := registered[id := timer];
      assert Timers() == Insert(h, timer);
    }

    method CancelTimer(id: nat)
      requires Sized()
      modifies this`canceled
      ensures Sized() && View() == Acting(old(View()), Cancel(id))
    {
      if id in registered {
        canceled := canceled + {id};
      }
    }

    method ResumeTimer(id: nat) returns (found: bool)
      requires Sized()
      modifies this`canceled
      ensures Sized() && View() == Acting(old(View()), Resume(id)) && found == (id in registered)
    {
      found := id in registered;
      if found {
        canceled := canceled - {id};
      }
    }

    method HeapPop() returns (top: Timer)
      requires Sized() && size > 0
      modifies this`size, heap
      ensures Sized() && size == old(size) - 1 && top == old(Timers())[1] && View() == old(View()).(h := Pop(old(Timers())))
    {
      ghost var h := Timers();
      top := heap[1];
      heap[1] := heap[size];
      size := size - 1;
      assert Timers() == h[1 := h[|h| - 1]][..|h| - 1];
      if size > 1 {
        TimerSink(1);
      }
    }

    method DrainExpired(now: int)
      requires Sized() && size > 0
      modifies this`size, this`expired, heap
      ensures Sized() && View() == Draining(old(View()), now)
    {
      ghost var s := View();
      var top := heap[1];
      assert expired + [] == expired;
      while top.expire <= now
        invariant Sized() && size > 0 && top == heap[1]
        invariant registered == s.registered && canceled == s.canceled && armed == s.armed && nextId == s.nextId
        invariant Draining(View(), now) == Draining(s, now)
        decreases size
      {
        ghost var u := View();
        var x := HeapPop();
        expired := expired + [top];
        DrainStep(u, View(), now);
        if size == 0 {
          break;
        }
        top := heap[1];
      }
      DrainEnd(View(), now);
    }

    /** One thing a callback may do. */
    method Act(a: Action)
      requires Sized()
      modifies this, heap
      ensures Sized() && (heap == old(heap) || fresh(heap))
      ensures View() == Acting(old(View()), a)
    {
      match a
      case Add(expire, delay, repeat) => var id := AddTimer(expire, delay, repeat);
      case Cancel(id) => CancelTimer(id);
      case Resume(id) => var found := ResumeTimer(id);
    }

    method Callback(actions: seq<Action>)
      requires Sized()
      modifies this, heap
      ensures Sized() && (heap == old(heap) || fresh(heap))
      ensures View() == ActingAll(old(View()), actions)
    {
      var rest := actions;
      while rest != []
        invariant Sized() && (heap == old(heap) || fresh(heap))
        invariant ActingAll(View(), rest) == ActingAll(old(View()), actions)
        decreases |rest|
      {
        Act(rest[0]);
        rest := rest[1..];
      }
    }

    method RunCallbacks(actions: seq<seq<Action>>) returns (ran: seq<Timer>)
      requires Sized()
      modifies this, heap
      ensures Sized() && (heap == old(heap) || fresh(heap))
      ensures (View(), ran) == Firing(old(View()), 0, actions)
    {
      ran := [];
      ghost var s, k := View(), 0;
      var i: nat := 0;
      assert [] + Firing(s, 0, actions).1 == Firing(s, 0, actions).1;
      while i < |expired|
        invariant Sized() && (heap == old(heap) || fresh(heap))
        invariant expired == s.expired && i <= |expired|
        invariant Before(ran, Firing(View(), i, actions)) == Firing(s, 0, actions)
        decreases |s.expired| - i
      {
        if expired[i].id !in canceled {
          BeforeOne(ran, expired[i], Firing(ActingAll(View(), ActionsAt(actions, i)), i + 1, actions));
          ran := ran + [expired[i]];
          Callback(ActionsAt(actions, i));
        }
        i := i + 1;
      }
      assert ran + [] == ran;
    }

    method ReturnOne(i: nat, now: int)
      requires Sized() && i < |expired|
      modifies this, heap
      ensures Sized() && (heap == old(heap) || fresh(heap)) && expired == old(expired)
      ensures View().(expired := expired[i + 1..]) == Returning(old(View()).(expired := expired[i..]), now)
    {
      assert expired[i..][0] == expired[i] && expired[i..][1..] == expired[i + 1..];
      var x := expired[i];
      if x.repeat && x.id !in canceled {
        var y := x.(expire := now + x.delay);
        registered := registered[x.id := y];
        var rootChanged := HeapInsert(y);
      } else {
        registered := registered - {x.id};
        canceled := canceled - {x.id};
      }
    }

    method ReturnExpired(now: int)
      requires Sized()
      modifies this, heap
      ensures Sized() && (heap == old(heap) || fresh(heap))
      ensures View() == ReturningAll(old(View()), now)
    {
      ghost var s := View();
      var i: nat := 0;
      assert expired[0..] == expired;
      while i < |expired|
        invariant Sized() && (heap == old(heap) || fresh(heap))
        invariant expired == s.expired && i <= |expired|
        invariant ReturningAll(View().(expired := expired[i..]), now) == ReturningAll(s, now)
        decreases |s.expired| - i
      {
        ReturnOne(i, now);
        i := i + 1;
      }
      expired := [];
    }

    method Rearm()
      requires Sized()
      modifies this`armed
      ensures Sized() && View() == Arming(old(View()))
    {
      if size > 0 {
        armed := heap[1].expire;
      }
    }

    /** The handler of the timer descriptor. */
    method OnTimeout(now: int, actions: seq<seq<Action>>) returns (ran: seq<Timer>)
      requires Sized()
      modifies this, heap
      ensures Sized() && (heap == old(heap) || fresh(heap))
      ensures (View(), ran) == Timeout(old(View()), now, actions)
    {
      if size < 1 {
        return [];
      }
      DrainExpired(now);
      ran := RunCallbacks(actions);
      ReturnExpired(now);
      Rearm();
    }
  }

  function Before(ran: seq<Timer>, r: (Timers, seq<Timer>)): (Timers, seq<Timer>) {
    (r.0, ran + r.1)
  }

  lemma BeforeOne(ran: seq<Timer>, x: Timer, r: (Timers, seq<Timer>))
    ensures Before(ran, (r.0, [x] + r.1)) == Before(ran + [x], r)
  {
    assert ran + ([x] + r.1) == ran + [x] + r.1;
  }

  lemma DrainStep(u: Timers, t: Timers, now: int)
    requires |u.h| > 1 && u.h[1].expire <= now
    requires t == u.(h := Pop(u.h), expired := u.expired + [u.h[1]])
    ensures Draining(t, now) == Draining(u, now)
  {
    var rest := Drain(Pop(u.h), now).1;
    assert u.expired + ([u.h[1]] + rest) == u.expired + [u.h[1]] + rest;
  }

  lemma DrainEnd(s: Timers, now: int)
    requires |s.h| == 1 || s.h[1].expire > now
    ensures Draining(s, now) == s
  {
    assert s.expired + [] == s.expired;
  }
}
