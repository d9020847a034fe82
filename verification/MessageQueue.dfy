/** The two-list message queue of the thread pool (thrdpool/msgqueue.c): producers append to one list under
    `put_mutex`, a consumer takes from the other under `get_mutex`, and exchanges the lists when its own is
    empty.  The exchange redirects `get_head` to the producers' list BEFORE it locks `put_mutex`, so for a
    while both pointers lead to one list and producers go on appending to it. */
module MessageQueue {

  type Msg = int

  /** The link field behind the first `pos` messages of a list. */
  datatype Link = Link(list: nat, pos: nat)

  /** Where the one consumer that holds `get_mutex` is. */
  datatype Consumer =
    | Outside
    | Swapping(spare: nat)   // has redirected get_head; holds the address of its old, empty list
    | Taking(cnt: nat)       // has its answer: more than 0 means that a message is there

  datatype State = State(
    max: nat, nonblock: bool, msgCnt: nat,
    lists: seq<seq<Msg>>,          // head1 and head2
    getHead: nat, putHead: nat, putTail: Link,
    consumer: Consumer,
    put: seq<Msg>, got: seq<Msg>)  // histories

  function Init(max: nat): State {
    State(max, false, 0, [[], []], 0, 1, Link(1, 0), Outside, [], [])
  }

  datatype Event = Put(msg: Msg) | Begin | Swap | Take | SetNonblock | SetBlock

  /** `msg_cnt > msg_max - 1` on unsigned numbers, so that a maximum of 0 never blocks. */
  predicate Full(s: State) {
    s.max > 0 && s.msgCnt > s.max - 1
  }

  predicate Shaped(s: State) {
    |s.lists| == 2 && s.getHead < 2 && s.putHead < 2 && s.putTail.list < 2
    && s.putTail.pos <= |s.lists[s.putTail.list]| && (s.consumer.Swapping? ==> s.consumer.spare < 2)
  }

  /** Writing a link cuts off what was behind it. */
  function Linked(s: State, msg: Msg): State
    requires Shaped(s)
  {
    var t := s.putTail;
    s.(lists := s.lists[t.list := s.lists[t.list][..t.pos] + [msg]], putTail := Link(t.list, t.pos + 1),
       msgCnt := s.msgCnt + 1, put := s.put + [msg])
  }

  /** Steps that have to wait, or are not possible, leave the state as it is.  `FirstInFirstOut` shows that
      a consumer with a positive count always takes a message. */
  function Step(s: State, e: Event): (t: State)
    requires Shaped(s)
    ensures Shaped(t)
  {
    match e
    case Put(msg) => if Full(s) && !s.nonblock then s else Linked(s, msg)
    case Begin =>
      if s.consumer != Outside then s
      else if s.lists[s.getHead] != [] then s.(consumer := Taking(1))
      else s.(consumer := Swapping(s.getHead), getHead := s.putHead)
    case Swap =>
      if !s.consumer.Swapping? || (s.msgCnt == 0 && !s.nonblock) then s
      else s.(consumer := Taking(s.msgCnt), putHead := s.consumer.spare, putTail := Link(s.consumer.spare, 0), msgCnt := 0)
    case Take =>
      if !s.consumer.Taking? then s
      else if s.consumer.cnt == 0 || s.lists[s.getHead] == [] || s.getHead == s.putTail.list then s.(consumer := Outside)
      else s.(consumer := Outside, got := s.got + [s.lists[s.getHead][0]], lists := s.lists[s.getHead := s.lists[s.getHead][1..]])
    case SetNonblock => s.(nonblock := true)
    case SetBlock => s.(nonblock := false)
  }

  // ---------- first in, first out ----------

  /** The messages that wait, in the order in which they will be taken. */
  function Waiting(s: State): seq<Msg>
    requires Shaped(s)
  {
    if s.consumer.Swapping? then s.lists[s.putHead] else s.lists[s.getHead] + s.lists[s.putHead]
  }

  ghost predicate Pointers(s: State) {
    && Shaped(s)
    && s.putTail == Link(s.putHead, |s.lists[s.putHead]|) && s.msgCnt == |s.lists[s.putHead]|
    && (match s.consumer
        case Outside => s.getHead != s.putHead
        case Swapping(spare) => s.getHead == s.putHead && spare != s.putHead && s.lists[spare] == []
        case Taking(cnt) => s.getHead != s.putHead && (cnt > 0 <==> s.lists[s.getHead] != []))
  }

  ghost predicate Inv(s: State) {
    Pointers(s) && s.put == s.got + Waiting(s)
  }

  lemma Assoc(a: seq<Msg>, b: seq<Msg>, c: seq<Msg>)
    ensures a + (b + c) == a + b + c
  {
  }

  lemma PutKeeps(s: State, msg: Msg)
    requires Inv(s)
    ensures Inv(Linked(s, msg)) && Waiting(Linked(s, msg)) == Waiting(s) + [msg]
  {
    var t := Linked(s, msg);
    var p := s.lists[s.putHead];
    assert p[..|p|] == p;
    assert t.lists[s.putHead] == p + [msg];
    if !s.consumer.Swapping? {
      Assoc(s.lists[s.getHead], p, [msg]);
    }
    assert Waiting(t) == Waiting(s) + [msg];
    Assoc(s.got, Waiting(s), [msg]);
  }

  lemma SwapKeeps(s: State)
    requires Inv(s) && s.consumer.Swapping?
    ensures Inv(Step(s, Swap))
  {
    var p := s.lists[s.putHead];
    assert p + [] == p;
  }

  lemma TakeKeeps(s: State)
    requires Inv(s) && s.consumer.Taking?
    ensures Inv(Step(s, Take))
    ensures s.consumer.cnt > 0 ==> Step(s, Take).got == s.got + [Waiting(s)[0]]
  {
    if s.consumer.cnt > 0 {
      var g, p, t := s.lists[s.getHead], s.lists[s.putHead], Step(s, Take);
      assert g == [g[0]] + g[1..];
      Assoc([g[0]], g[1..], p);
      assert Waiting(s) == [g[0]] + Waiting(t);
      Assoc(s.got, [g[0]], Waiting(t));
    }
  }

  lemma StepKeeps(s: State, e: Event)
    requires Inv(s)
    ensures Inv(Step(s, e))
  {
    match e
    case Put(msg) => PutKeeps(s, msg);
    case Begin =>
      if s.lists[s.getHead] == [] {
        assert [] + s.lists[s.putHead] == s.lists[s.putHead];
      }
    case Swap => if s.consumer.Swapping? { SwapKeeps(s); }
    case Take => if s.consumer.Taking? { TakeKeeps(s); }
    case SetNonblock =>
    case SetBlock =>
  }

  function Run(s: State, es: seq<Event>): (t: State)
    requires Shaped(s)
    ensures Shaped(t)
    decreases |es|
  {
    if es == [] then s else Run(Step(s, es[0]), es[1..])
  }

  lemma {:induction false} RunKeeps(s: State, es: seq<Event>)
    requires Inv(s)
    ensures Inv(Run(s, es))
    decreases |es|
  {
    if es != [] {
      StepKeeps(s, es[0]);
      RunKeeps(Step(s, es[0]), es[1..]);
    }
  }

  lemma InitInv(max: nat)
    ensures Inv(Init(max))
  {
    assert Waiting(Init(max)) == [];
  }

  /** For every interleaving of producers and consumers, in both modes, messages come out in put order, each
      once, and the rest is waiting; and a consumer that was promised a message finds it in its own list. */
  lemma FirstInFirstOut(max: nat, es: seq<Event>)
    ensures var s := Run(Init(max), es);
            && s.put == s.got + Waiting(s) && s.got <= s.put
            && (s.consumer.Taking? && s.consumer.cnt > 0 ==>
                  s.lists[s.getHead] != [] && Step(s, Take).got == s.got + [Waiting(s)[0]])
  {
    InitInv(max);
    RunKeeps(Init(max), es);
    var s := Run(Init(max), es);
    if s.consumer.Taking? {
      TakeKeeps(s);
    }
  }

  /** In every reachable state a producer adds its message behind all that wait, unless the queue blocks and the
      producers' list has reached the maximum. */
  lemma PutsUnlessFull(max: nat, es: seq<Event>, msg: Msg)
    ensures var s := Run(Init(max), es); var t := Step(s, Put(msg));
            if s.nonblock || s.max == 0 || |s.lists[s.putHead]| < s.max then
              t.put == s.put + [msg] && Waiting(t) == Waiting(s) + [msg]
            else t == s
  {
    InitInv(max);
    RunKeeps(Init(max), es);
    PutKeeps(Run(Init(max), es), msg);
  }

  /** A whole get, undisturbed, in every reachable state: the oldest message that waits is taken.  If there is none, a
      queue that does not block answers so, and otherwise the consumer waits. */
  lemma WholeGet(max: nat, es: seq<Event>)
    requires Run(Init(max), es).consumer == Outside
    ensures var s := Run(Init(max), es); var t := Step(Step(Step(s, Begin), Swap), Take);
            && t.put == s.put
            && (if Waiting(s) != [] then t.consumer == Outside && t.got == s.got + [Waiting(s)[0]]
                else t.got == s.got && t.consumer.Outside? == s.nonblock)
  {
    InitInv(max);
    RunKeeps(Init(max), es);
    var s := Run(Init(max), es);
    StepKeeps(s, Begin);
    var u := Step(Step(s, Begin), Swap);
    StepKeeps(Step(s, Begin), Swap);
    WaitingStays(s, Begin);
    WaitingStays(Step(s, Begin), Swap);
    if u.consumer.Taking? {
      TakeKeeps(u);
    }
  }

  /** The consumer's way to its list changes neither what waits nor the histories. */
  lemma WaitingStays(s: State, e: Event)
    requires Inv(s) && (e == Begin || e == Swap)
    ensures var t := Step(s, e); Waiting(t) == Waiting(s) && t.put == s.put && t.got == s.got
  {
    var p := s.lists[s.putHead];
    assert [] + p == p == p + [];
  }

  // ---------- the bound ----------

  ghost predicate Blocking(es: seq<Event>) {
    SetNonblock !in es
  }

  ghost predicate Bounded(s: State, max: nat) {
    && Pointers(s) && !s.nonblock && s.max == max > 0
    && |s.lists[s.getHead]| <= max && |s.lists[s.putHead]| <= max
    && (s.consumer.Taking? ==> s.consumer.cnt > 0)
  }

  lemma StepBounded(s: State, e: Event, max: nat)
    requires Inv(s) && Bounded(s, max) && e != SetNonblock
    ensures Bounded(Step(s, e), max)
  {
    StepKeeps(s, e);
  }

  lemma {:induction false} RunBounded(s: State, es: seq<Event>, max: nat)
    requires Inv(s) && Bounded(s, max) && Blocking(es)
    ensures Bounded(Run(s, es), max)
    decreases |es|
  {
    if es != [] {
      StepKeeps(s, es[0]);
      StepBounded(s, es[0], max);
      RunBounded(Step(s, es[0]), es[1..], max);
    }
  }

  predicate CanPut(s: State) {
    s.nonblock || !Full(s)
  }

  predicate CanGet(s: State)
    requires Shaped(s)
  {
    s.consumer.Taking? || (s.consumer.Outside? && s.lists[s.getHead] != []) || (s.consumer.Swapping? && s.msgCnt > 0)
  }

  /** In blocking mode at most 2 * maxlen messages wait, and never are the producers and the consumer both
      held up: where no message may be put, the consumer can go on or begin.  A consumer never leaves without a
      message. */
  lemma AtMostTwice(max: nat, es: seq<Event>)
    requires max >= 1 && Blocking(es)
    ensures var s := Run(Init(max), es);
            && |Waiting(s)| <= 2 * max && (CanPut(s) || CanGet(s) || CanGet(Step(s, Begin)))
            && (s.consumer.Taking? ==> Waiting(s) != [] && Step(s, Take).got == s.got + [Waiting(s)[0]])
  {
    InitInv(max);
    RunBounded(Init(max), es, max);
    RunKeeps(Init(max), es);
    var s := Run(Init(max), es);
    if s.consumer.Taking? {
      TakeKeeps(s);
    }
  }

  function Puts(n: nat): seq<Event> {
    if n == 0 then [] else Puts(n - 1) + [Put(n)]
  }

  lemma {:induction false} RunAppend(s: State, a: seq<Event>, b: seq<Event>)
    requires Shaped(s)
    ensures Run(s, a + b) == Run(Run(s, a), b)
    decreases |a|
  {
    if a == [] {
      assert a + b == b;
    } else {
      assert (a + b)[1..] == a[1..] + b;
      RunAppend(Step(s, a[0]), a[1..], b);
    }
  }

  lemma RunOne(s: State, e: Event)
    requires Shaped(s)
    ensures Run(s, [e]) == Step(s, e)
  {
    assert [e][1..] == [];
  }

  /** n messages are put where there is room for them. */
  lemma {:induction false} RunPuts(s: State, n: nat)
    requires Inv(s) && s.msgCnt + n <= s.max
    ensures var t := Run(s, Puts(n));
            Inv(t) && t.msgCnt == s.msgCnt + n && |Waiting(t)| == |Waiting(s)| + n
            && t == s.(lists := t.lists, putTail := t.putTail, msgCnt := t.msgCnt, put := t.put)
            && (s.getHead != s.putHead ==> t.lists[s.getHead] == s.lists[s.getHead])
  {
    if n > 0 {
      RunPuts(s, n - 1);
      RunAppend(s, Puts(n - 1), [Put(n)]);
      var t := Run(s, Puts(n - 1));
      RunOne(t, Put(n));
      PutKeeps(t, n);
      assert |t.put| + 1 == |Linked(t, n).put|;
    }
  }

  /** The bound is reached: a full list is exchanged, and before its first message is taken the other one
      is filled. */
  lemma TwiceIsReached(max: nat)
    requires max >= 1
    ensures var s := Run(Init(max), Puts(max) + ([Begin] + ([Swap] + Puts(max))));
            |Waiting(s)| == 2 * max
  {
    var s0 := Init(max);
    InitInv(max);
    RunAppend(s0, Puts(max), [Begin] + ([Swap] + Puts(max)));
    RunPuts(s0, max);
    var s1 := Run(s0, Puts(max));
    RunAppend(s1, [Begin], [Swap] + Puts(max));
    RunOne(s1, Begin);
    var s2 := Step(s1, Begin);
    StepKeeps(s1, Begin);
    RunAppend(s2, [Swap], Puts(max));
    RunOne(s2, Swap);
    StepKeeps(s2, Swap);
    RunPuts(Step(s2, Swap), max);
  }

  // ---------- the queue ----------

  /** Each method is one atomic step: what a thread does under one of the locks. */
  class MsgQueue {
    const max: nat
    var nonblock: bool
    var msgCnt: nat
    var lists: seq<seq<Msg>>
    var getHead: nat
    var putHead: nat
    var putTail: Link
    var consumer: Consumer
    ghost var put: seq<Msg>
    ghost var got: seq<Msg>

    ghost function View(): State
      reads this
    {
      State(max, nonblock, msgCnt, lists, getHead, putHead, putTail, consumer, put, got)
    }

    ghost predicate Valid()
      reads this
    {
      Inv(View())
    }

    constructor (maxlen: nat)
      ensures Valid() && View() == Init(maxlen)
    {
      max, nonblock, msgCnt, lists := maxlen, false, 0, [[], []];
      getHead, putHead, putTail, consumer := 0, 1, Link(1, 0), Outside;
      put, got := [], [];
      new;
      InitInv(maxlen);
    }

    /** A producer whose waiting is over. */
    method PutMessage(msg: Msg)
      requires Valid() && (nonblock || max == 0 || msgCnt <= max - 1)
      modifies this
      ensures Valid() && View() == Step(old(View()), Put(msg)) && put == old(put) + [msg]
    {
      StepKeeps(View(), Put(msg));
      var l := putTail.list;
      lists := lists[l := lists[l][..putTail.pos] + [msg]];
      putTail := Link(l, putTail.pos + 1);
      msgCnt := msgCnt + 1;
      put := put + [msg];
    }

    method BeginGet()
      requires Valid() && consumer == Outside
      modifies this
      ensures Valid() && View() == Step(old(View()), Begin) && consumer != Outside
    {
      StepKeeps(View(), Begin);
      if lists[getHead] != [] {
        consumer := Taking(1);
      } else {
        consumer := Swapping(getHead);
        getHead := putHead;
      }
    }

    /** The exchange, once there is a message or the queue does not block. */
    method SwapLists()
      requires Valid() && consumer.Swapping? && (msgCnt > 0 || nonblock)
      modifies this
      ensures Valid() && View() == Step(old(View()), Swap) && consumer == Taking(old(msgCnt))
    {
      StepKeeps(View(), Swap);
      var cnt, spare := msgCnt, consumer.spare;
      putHead, putTail, msgCnt := spare, Link(spare, 0), 0;
      consumer := Taking(cnt);
    }

    /** The end of `msgqueue_get`: the oldest message that waits, or NULL. */
    method TakeMessage() returns (r: seq<Msg>)
      requires Valid() && consumer.Taking?
      modifies this
      ensures Valid() && View() == Step(old(View()), Take) && consumer == Outside
      ensures r == if old(consumer.cnt) > 0 then [old(Waiting(View()))[0]] else []
      ensures got == old(got) + r
    {
      TakeKeeps(View());
      if consumer.cnt > 0 {
        var g := lists[getHead];
        r := [g[0]];
        lists := lists[getHead := g[1..]];
        got := got + r;
      } else {
        r := [];
      }
      consumer := Outside;
    }
  }
}
