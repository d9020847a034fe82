/** The binary heap of timers (ev/mqtt_timer.c:65-140).  Slot 0 is not used, so the parent of i is i / 2;
    a heap is the array up to its last timer.

    `Swim` and `Sink` exchange neighbours.  The loops of the program move a hole instead; EventTimers proves
    that they compute the same. */
module TimerHeap {

  /** `id` stands for the timer's address and registration time; times are in microseconds. */
  datatype Timer = Timer(id: nat, expire: int, delay: nat, repeat: bool)

  type Heap = h: seq<Timer> | |h| >= 1 witness [Timer(0, 0, 0, false)]

  /** The timers in the heap. */
  function Bag(h: Heap): multiset<Timer> {
    multiset(h[1..])
  }

  /** The timer at k does not expire before its parent. */
  ghost predicate InOrder(h: Heap, k: nat)
    requires k < |h|
  {
    h[k / 2].expire <= h[k].expire
  }

  /** The timer at k does not expire before the parent of its parent. */
  ghost predicate InOrderAbove(h: Heap, k: nat)
    requires k < |h|
  {
    h[k / 2 / 2].expire <= h[k].expire
  }

  ghost predicate Ordered(h: Heap) {
    forall k: nat :: 2 <= k < |h| ==> InOrder(h, k)
  }

  function Swap(h: Heap, i: nat, j: nat): Heap
    requires i < |h| && j < |h|
  {
    h[i := h[j]][j := h[i]]
  }

  function Swim(h: Heap, i: nat): Heap
    requires 1 <= i < |h|
    decreases i
  {
    if i / 2 > 0 && h[i].expire < h[i / 2].expire then Swim(Swap(h, i, i / 2), i / 2) else h
  }

  /** The child that is to come up, if any is: the one that expires first, the left one in a tie. */
  function Child(h: Heap, i: nat): nat
    requires 1 <= i && 2 * i < |h|
  {
    if 2 * i + 1 < |h| && h[2 * i + 1].expire < h[2 * i].expire then 2 * i + 1 else 2 * i
  }

  function Sink(h: Heap, i: nat): Heap
    requires 1 <= i < |h|
    decreases |h| - i
  {
    if 2 * i < |h| && h[Child(h, i)].expire < h[i].expire then Sink(Swap(h, i, Child(h, i)), Child(h, i)) else h
  }

  lemma SwimUp(h: Heap, i: nat)
    requires 2 <= i < |h| && h[i].expire < h[i / 2].expire
    ensures Swim(h, i) == Swim(Swap(h, i, i / 2), i / 2)
  {
  }

  lemma SwimStays(h: Heap, i: nat)
    requires 1 <= i < |h| && (i == 1 || h[i].expire >= h[i / 2].expire)
    ensures Swim(h, i) == h
  {
  }

  lemma SinkDown(h: Heap, i: nat)
    requires 1 <= i && 2 * i < |h| && h[Child(h, i)].expire < h[i].expire
    ensures Sink(h, i) == Sink(Swap(h, i, Child(h, i)), Child(h, i))
  {
  }

  lemma SinkStays(h: Heap, i: nat)
    requires 1 <= i < |h| && (2 * i >= |h| || h[Child(h, i)].expire >= h[i].expire)
    ensures Sink(h, i) == h
  {
  }

  function Insert(h: Heap, t: Timer): Heap {
    Swim(h + [t], |h|)
  }

  function Pop(h: Heap): Heap
    requires |h| > 1
  {
    var n := |h| - 1;
    var moved := h[1 := h[n]][..n];
    if n > 2 then Sink(moved, 1) else moved
  }

  // ---------- what they keep ----------

  lemma SwapBag(h: Heap, i: nat, j: nat)
    requires 1 <= i < |h| && 1 <= j < |h|
    ensures Bag(Swap(h, i, j)) == Bag(h)
  {
    var s := h[1..];
    assert Swap(h, i, j)[1..] == s[i - 1 := s[j - 1]][j - 1 := s[i - 1]];
  }

  lemma {:induction false} SwimBag(h: Heap, i: nat)
    requires 1 <= i < |h|
    ensures |Swim(h, i)| == |h| && Bag(Swim(h, i)) == Bag(h)
    decreases i
  {
    if i / 2 > 0 && h[i].expire < h[i / 2].expire {
      SwapBag(h, i, i / 2);
      SwimBag(Swap(h, i, i / 2), i / 2);
    }
  }

  lemma {:induction false} SinkBag(h: Heap, i: nat)
    requires 1 <= i < |h|
    ensures |Sink(h, i)| == |h| && Bag(Sink(h, i)) == Bag(h)
    decreases |h| - i
  {
    if 2 * i < |h| && h[Child(h, i)].expire < h[i].expire {
      SwapBag(h, i, Child(h, i));
      SinkBag(Swap(h, i, Child(h, i)), Child(h, i));
    }
  }

  /** Only the timer at i may expire before its parent. */
  ghost predicate OrderedBut(h: Heap, i: nat) {
    && (forall k: nat :: 2 <= k < |h| && k != i ==> InOrder(h, k))
    && (forall k: nat :: 4 <= k < |h| && k / 2 == i ==> InOrderAbove(h, k))
  }

  lemma SwimStep(h: Heap, i: nat)
    requires 2 <= i < |h| && OrderedBut(h, i) && h[i].expire < h[i / 2].expire
    ensures OrderedBut(Swap(h, i, i / 2), i / 2)
  {
    var g, p := Swap(h, i, i / 2), i / 2;
    forall k: nat | 2 <= k < |g| && k != p ensures InOrder(g, k) {
      assert k != i ==> InOrder(h, k);
      assert k / 2 == i ==> InOrderAbove(h, k);
    }
    forall k: nat | 4 <= k < |g| && k / 2 == p ensures InOrderAbove(g, k) {
      assert InOrder(h, p);
      assert k != i ==> InOrder(h, k);
    }
  }

  lemma {:induction false} SwimOrders(h: Heap, i: nat)
    requires 1 <= i < |h| && OrderedBut(h, i)
    ensures Ordered(Swim(h, i))
    decreases i
  {
    if i / 2 > 0 && h[i].expire < h[i / 2].expire {
      SwimStep(h, i);
      SwimOrders(Swap(h, i, i / 2), i / 2);
    }
  }

  /** Only the timer at i may expire after its children. */
  ghost predicate OrderedBelow(h: Heap, i: nat) {
    && (forall k: nat :: 2 <= k < |h| && k / 2 != i ==> InOrder(h, k))
    && (forall k: nat :: 4 <= k < |h| && k / 2 == i ==> InOrderAbove(h, k))
  }

  lemma SinkStep(h: Heap, i: nat)
    requires 1 <= i && 2 * i < |h| && OrderedBelow(h, i) && h[Child(h, i)].expire < h[i].expire
    ensures OrderedBelow(Swap(h, i, Child(h, i)), Child(h, i))
  {
    var c := Child(h, i);
    var g := Swap(h, i, c);
    forall k: nat | 2 <= k < |g| && k / 2 != c ensures InOrder(g, k) {
      assert k / 2 != i ==> InOrder(h, k);
      assert k == i ==> InOrderAbove(h, c);
      assert k / 2 == i ==> k == 2 * i || k == 2 * i + 1;
    }
    forall k: nat | 4 <= k < |g| && k / 2 == c ensures InOrderAbove(g, k) {
      assert InOrder(h, k);
    }
  }

  lemma {:induction false} SinkOrders(h: Heap, i: nat)
    requires 1 <= i < |h| && OrderedBelow(h, i)
    ensures Ordered(Sink(h, i))
    decreases |h| - i
  {
    if 2 * i < |h| && h[Child(h, i)].expire < h[i].expire {
      SinkStep(h, i);
      SinkOrders(Swap(h, i, Child(h, i)), Child(h, i));
    } else {
      forall k: nat | 2 <= k < |h| ensures InOrder(h, k) {
        assert k / 2 == i ==> k == 2 * i || k == 2 * i + 1;
      }
    }
  }

  /** The root expires first. */
  lemma {:induction false} RootFirst(h: Heap, k: nat)
    requires Ordered(h) && 1 <= k < |h|
    ensures h[1].expire <= h[k].expire
    decreases k
  {
    if k > 1 {
      assert InOrder(h, k);
      RootFirst(h, k / 2);
    }
  }

  lemma RootLeast(h: Heap)
    requires Ordered(h)
    ensures forall t :: t in Bag(h) ==> |h| > 1 && h[1].expire <= t.expire
  {
    forall t | t in Bag(h) ensures |h| > 1 && h[1].expire <= t.expire {
      var k :| 0 <= k < |h[1..]| && h[1..][k] == t;
      RootFirst(h, k + 1);
    }
  }

  lemma InsertKeeps(h: Heap, t: Timer)
    requires Ordered(h)
    ensures Ordered(Insert(h, t)) && |Insert(h, t)| == |h| + 1
    ensures Bag(Insert(h, t)) == Bag(h) + multiset{t}
  {
    var g := h + [t];
    SwimBag(g, |h|);
    assert g[1..] == h[1..] + [t];
    forall k: nat | 2 <= k < |h| ensures InOrder(g, k) {
      assert InOrder(h, k);
    }
    SwimOrders(g, |h|);
  }

  lemma MovedBag(h: Heap)
    requires |h| > 1
    ensures var n := |h| - 1; var moved := h[1 := h[n]][..n];
            Bag(h) == multiset{h[1]} + Bag(moved)
  {
    var n := |h| - 1;
    var moved := h[1 := h[n]][..n];
    if n > 1 {
      assert h[1..] == [h[1]] + h[2..n] + [h[n]];
      assert moved[1..] == [h[n]] + h[2..n];
    } else {
      assert h[1..] == [h[1]];
      assert moved[1..] == [];
    }
  }

  lemma PopKeeps(h: Heap)
    requires Ordered(h) && |h| > 1
    ensures Ordered(Pop(h)) && |Pop(h)| == |h| - 1
    ensures Bag(h) == multiset{h[1]} + Bag(Pop(h))
  {
    var n := |h| - 1;
    var moved := h[1 := h[n]][..n];
    MovedBag(h);
    if n > 2 {
      forall k: nat | 2 <= k < n && k / 2 != 1 ensures InOrder(moved, k) {
        assert InOrder(h, k);
      }
      SinkBag(moved, 1);
      SinkOrders(moved, 1);
    }
  }

  // ---------- draining ----------

  /** The loop that takes out what has expired: the heap left over, and the timers in the order taken. */
  function Drain(h: Heap, now: int): (Heap, seq<Timer>)
    decreases |h|
  {
    if |h| == 1 || h[1].expire > now then (h, [])
    else
      PopKeepsLength(h);
      var (left, expired) := Drain(Pop(h), now);
      (left, [h[1]] + expired)
  }

  lemma PopKeepsLength(h: Heap)
    requires |h| > 1
    ensures |Pop(h)| == |h| - 1
  {
    var n := |h| - 1;
    if n > 2 {
      SinkBag(h[1 := h[n]][..n], 1);
    }
  }

  ghost predicate Sorted(ts: seq<Timer>) {
    forall i, j :: 0 <= i < j < |ts| ==> ts[i].expire <= ts[j].expire
  }

  /** One timeout takes out precisely the timers that have expired, in the order of their expiry, and leaves
      a heap of all the others. */
  lemma {:induction false} DrainExact(h: Heap, now: int)
    requires Ordered(h)
    ensures var (left, expired) := Drain(h, now);
            && Ordered(left) && Sorted(expired)
            && Bag(left) + multiset(expired) == Bag(h)
            && (forall t :: t in expired ==> t.expire <= now)
            && (forall t :: t in Bag(left) ==> t.expire > now)
    decreases |h|
  {
    RootLeast(h);
    if |h| > 1 && h[1].expire <= now {
      PopKeeps(h);
      DrainExact(Pop(h), now);
      var (left, expired) := Drain(Pop(h), now);
      DrainFront(h[1], Bag(Pop(h)), Bag(left), expired);
    }
  }

  lemma DrainFront(top: Timer, popped: multiset<Timer>, left: multiset<Timer>, expired: seq<Timer>)
    requires left + multiset(expired) == popped && Sorted(expired)
    requires forall t :: t in popped ==> top.expire <= t.expire
    ensures Sorted([top] + expired) && left + multiset([top] + expired) == multiset{top} + popped
  {
    forall t | t in expired ensures top.expire <= t.expire {
      assert t in multiset(expired);
      assert t in popped;
    }
    assert multiset([top] + expired) == multiset{top} + multiset(expired);
  }
}
