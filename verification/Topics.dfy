/** The topic tree as a mutable object (mqtt/mqtt_topic.c), against two flat maps: who subscribes to
    which filter with which QoS, and which message is retained for which topic. */
module Topics {
  import opened Wrappers
  import opened TopicNames
  import opened TopicTree

  /** The QoS that the tree records for a filter and a client. */
  function QosAt(n: Node, f: Levels, c: Client): Option<nat> {
    var s := SubscribersAt(n, f);
    if s.Some? && c in s.value then Some(s.value[c]) else None
  }

  function Lookup<K, V>(m: map<K, V>, k: K): Option<V> {
    if k in m then Some(m[k]) else None
  }

  ghost predicate SameSubscriptions(n: Node, flat: map<(Levels, Client), nat>) {
    forall f: Levels, c: Client :: QosAt(n, f, c) == Lookup(flat, (f, c))
  }

  ghost predicate SameRetained(n: Node, flat: map<Levels, Retained>) {
    forall t: Levels :: RetainedAt(n, t) == Lookup(flat, t)
  }

  /** A hit hands the message to client c with QoS q because of filter f. */
  ghost predicate Reaches(hits: seq<Hit>, f: Levels, c: Client, q: nat) {
    exists s :: Hit(f, s) in hits && c in s && s[c] == q
  }

  lemma HitsAreMatches(n: Node, flat: map<(Levels, Client), nat>, t: Levels, retain: Option<Retained>,
                       f: Levels, c: Client, q: nat)
    requires Shaped(n) && Literal(t) && SameSubscriptions(n, flat)
    ensures Reaches(Match(n, false, t, retain).1, f, c, q) <==> Lookup(flat, (f, c)) == Some(q) && Matches(f, t)
  {
    assert QosAt(n, f, c) == Lookup(flat, (f, c));
    var s := SubscribersAt(n, f);
    if s.Some? {
      MatchExact(n, t, retain, f, s.value);
    }
    forall s' | Hit(f, s') in Match(n, false, t, retain).1 ensures s == Some(s') && Matches(f, t) {
      MatchExact(n, t, retain, f, s');
    }
  }

  /** The two walks agree: for a filter that has subscribers, a publish to topic t visits its node if
      and only if the filter matches t, which is the condition under which a subscribe returns the
      message retained for t. */
  lemma TraversalsAgree(n: Node, f: Levels, x: Found)
    requires Shaped(n) && SubscribersAt(n, f).Some? && Literal(x.topic)
    ensures Wanted(n, [], f, x) <==>
            && RetainedAt(n, x.topic) == Some(x.retained)
            && Hit(f, SubscribersAt(n, f).value) in Match(n, false, x.topic, None).1
  {
    MatchExact(n, x.topic, None, f, SubscribersAt(n, f).value);
    assert x.topic[0..] == x.topic;
  }

  class Topics {
    var root: Node
    ghost var subscriptions: map<(Levels, Client), nat>
    ghost var retained: map<Levels, Retained>

    ghost predicate Valid()
      reads this
    {
      && Shaped(root)
      && SameSubscriptions(root, subscriptions)
      && SameRetained(root, retained)
      && forall t :: t in retained ==> Literal(t)
    }

    constructor ()
      ensures Valid() && subscriptions == map[] && retained == map[]
    {
      root, subscriptions, retained := EMPTY_NODE, map[], map[];
      new;
      forall f ensures SubscribersAt(EMPTY_NODE, f) == None && RetainedAt(EMPTY_NODE, f) == None {
        EmptyAt(f);
      }
    }

    /** add_topic_or_find without creating nodes. */
    method Find(path: Levels) returns (node: Option<Node>)
      ensures node == At(root, path)
    {
      var cur, i := root, 0;
      assert path[0..] == path;
      while i < |path|
        invariant 0 <= i <= |path|
        invariant At(cur, path[i..]) == At(root, path)
      {
        assert path[i..][0] == path[i] && path[i..][1..] == path[i + 1..];
        if path[i] !in cur.children {
          return None;
        }
        cur, i := cur.children[path[i]], i + 1;
      }
      node := Some(cur);
    }

    method Publish(topic: string, payload: string, qos: nat, retain: bool) returns (hits: seq<Hit>)
      requires Valid() && Literal(Split(topic))
      modifies this
      ensures Valid() && subscriptions == old(subscriptions)
      ensures retained == if retain then old(retained)[Split(topic) := Retained(topic, payload, qos)] else old(retained)
      ensures Once(hits)
      ensures forall f, c, q: nat :: Reaches(hits, f, c, q) <==> Lookup(subscriptions, (f, c)) == Some(q) && Matches(f, Split(topic))
    {
      var levels := SplitTopic(topic);
      var m := Retained(topic, payload, qos);
      var r := Match(root, false, levels, if retain then Some(m) else None);
      MatchOnce(root, levels, if retain then Some(m) else None);
      forall f, c, q: nat ensures Reaches(r.1, f, c, q) <==> Lookup(subscriptions, (f, c)) == Some(q) && Matches(f, levels) {
        HitsAreMatches(root, subscriptions, levels, if retain then Some(m) else None, f, c, q);
      }
      hits := r.1;
      if retain {
        Stored(levels, Message(m));
        MatchRetains(root, levels, m);
        retained := retained[levels := m];
      } else {
        MatchReads(root, false, levels);
      }
      root := r.0;
    }

    /** What storing an entry does to the two flat maps. */
    lemma Stored(path: Levels, e: Entry)
      requires Valid() && HashLast(path)
      ensures Shaped(Put(root, path, e))
      ensures SameSubscriptions(Put(root, path, e),
                                if e.Subscription? then subscriptions[(path, e.client) := e.qos] else subscriptions)
      ensures SameRetained(Put(root, path, e), if e.Message? then retained[path := e.retained] else retained)
    {
      PutShaped(root, path, e);
      forall f, c ensures QosAt(Put(root, path, e), f, c) ==
                          if e.Subscription? && f == path && c == e.client then Some(e.qos) else QosAt(root, f, c)
      {
        PutAt(root, path, e, f);
      }
      forall f ensures RetainedAt(Put(root, path, e), f) == if f == path && e.Message? then Some(e.retained) else RetainedAt(root, f) {
        PutAt(root, path, e, f);
      }
    }

    method AddSubscription(filter: string, client: Client, qos: nat) returns (found: seq<Found>)
      requires Valid() && HashLast(Split(filter))
      modifies this
      ensures Valid() && retained == old(retained) && Distinct(found)
      ensures filter == "" ==> subscriptions == old(subscriptions) && found == []
      ensures filter != "" ==> subscriptions == old(subscriptions)[(Split(filter), client) := qos]
      ensures filter != "" ==>
                forall x :: x in found <==> Lookup(retained, x.topic) == Some(x.retained) && Matches(Split(filter), x.topic)
    {
      if filter == "" {
        return [];
      }
      var levels := SplitTopic(filter);
      Stored(levels, Subscription(client, qos));
      root := Put(root, levels, Subscription(client, qos));
      subscriptions := subscriptions[(levels, client) := qos];
      found := RetainedFor(levels);
      forall x ensures Wanted(root, [], levels, x) <==>
                       Lookup(retained, x.topic) == Some(x.retained) && Matches(levels, x.topic)
      {
        assert x.topic[0..] == x.topic;
      }
    }

    /** The second half of tmq_topics_add_subscription: follows the literal levels at the front of
        the filter, then searches. */
    method RetainedFor(levels: Levels) returns (found: seq<Found>)
      requires Valid() && levels != [] && HashLast(levels) && At(root, levels).Some?
      ensures Distinct(found)
      ensures forall x :: x in found <==> Wanted(root, [], levels, x)
    {
      var i := 0;
      while i < |levels| && !IsWildcard(levels[i])
        invariant 0 <= i <= |levels| && Literal(levels[..i])
      {
        i := i + 1;
      }
      PrefixExists(root, levels, i);
      var node := At(root, levels[..i]).value;
      if i == |levels| && node.retained.Some? {
        found := [Found(levels[..i], node.retained.value)];
        forall x ensures x in found <==> Wanted(node, levels[..i], [], x) {
          WantedAtEnd(node, levels[..i], x);
        }
      } else {
        found := FindRetained(node, levels[..i], levels[i..]);
      }
      forall x ensures Wanted(root, [], levels, x) <==> Wanted(node, levels[..i], levels[i..], x) {
        WantedPrefix(root, [], levels, i, x);
        assert [] + levels[..i] == levels[..i];
      }
    }

    /** The end node must be absent or have subscribers: the code reads its subscriber map unasked. */
    method RemoveSubscription(filter: string, client: Client)
      requires Valid() && (At(root, Split(filter)).Some? ==> SubscribersAt(root, Split(filter)).Some?)
      modifies this
      ensures Valid() && retained == old(retained)
      ensures subscriptions == old(subscriptions) - {(Split(filter), client)}
    {
      var levels := SplitTopic(filter);
      var node := Find(levels);
      if node.None? {
        assert QosAt(root, levels, client) == None;
        assert subscriptions - {(levels, client)} == subscriptions;
        return;
      }
      var left := node.value.subscribers.value - {client};
      ghost var before := root;
      root := SetSubscribers(root, levels, if left == map[] then None else Some(left));
      PruneIsUnsubscribe(before, levels, client);
      root := RemoveTopic(root, levels);
      Forgotten(before, subscriptions, retained, levels, client);
      subscriptions := subscriptions - {(levels, client)};
    }
  }

  /** The precondition of RemoveSubscription is not always met: after subscribing to "a/b", unsubscribing from
      "a" finds a node without subscribers. */
  lemma UnaskedNode(c: Client, qos: nat)
    ensures var n := Put(EMPTY_NODE, Split("a/b"), Subscription(c, qos));
            At(n, Split("a")).Some? && SubscribersAt(n, Split("a")) == None
  {
    var f, g := ["a", "b"], ["a"];
    SplitInverse("", f);
    SplitInverse("", g);
    assert f[1..] == ["b"] && g[1..] == [];
    assert Join(f) == "a" + "/" + "b" == "a/b";
    assert Split("a/b") == f && Split("a") == g;
    PutAt(EMPTY_NODE, f, Subscription(c, qos), g);
    assert |f| != |g|;
    EmptyAt(g);
  }

  lemma {:induction false} PrefixExists(n: Node, path: Levels, k: nat)
    requires At(n, path).Some? && k <= |path|
    ensures At(n, path[..k]).Some?
    decreases path
  {
    if k > 0 {
      assert path[..k][1..] == path[1..][..k - 1];
      PrefixExists(n.children[path[0]], path[1..], k - 1);
    }
  }

  /** Pruning keeps both flat maps, except for the subscription that is taken back. */
  lemma Forgotten(n: Node, subs: map<(Levels, Client), nat>, kept: map<Levels, Retained>, path: Levels, c: Client)
    requires Shaped(n) && At(n, path).Some? && SameSubscriptions(n, subs) && SameRetained(n, kept)
    ensures var m := Unsubscribe(n, path, c);
            Shaped(m) && SameSubscriptions(m, subs - {(path, c)}) && SameRetained(m, kept)
  {
    var m := Unsubscribe(n, path, c);
    UnsubscribeShaped(n, path, c);
    forall f, d ensures QosAt(m, f, d) == Lookup(subs - {(path, c)}, (f, d)) {
      UnsubscribeAt(n, path, c, f);
      assert QosAt(n, f, d) == Lookup(subs, (f, d));
      var s := SubscribersAt(n, f);
      if s.Some? && d in s.value && d != c {
        assert d in s.value - {c};
      }
    }
    forall t ensures RetainedAt(m, t) == Lookup(kept, t) {
      UnsubscribeAt(n, path, c, t);
    }
  }
}
