/** The topic tree (mqtt/mqtt_topic.c): subscriptions and retained messages in a trie whose edges are
    topic levels, `+` and `#` among them.

    A node is a value and a child map holds nodes; the tree as a whole is the mutable field of
    `Topics`.  Two walks read it, `Match` for a publish and `FindRetained` for a subscribe; both are
    related to the flat rule `TopicNames.Matches`. */
module TopicTree {
  import opened Wrappers
  import opened TopicNames

  type Client = string
  type Subscribers = map<Client, nat>

  datatype Retained = Retained(topic: string, payload: string, qos: nat)

  datatype Node = Node(children: map<Level, Node>, subscribers: Option<Subscribers>, retained: Option<Retained>)

  const EMPTY_NODE := Node(map[], None, None)

  function At(n: Node, path: Levels): Option<Node>
    decreases path
  {
    if path == [] then Some(n)
    else if path[0] in n.children then At(n.children[path[0]], path[1..])
    else None
  }

  function SubscribersAt(n: Node, path: Levels): Option<Subscribers> {
    var x := At(n, path);
    if x.Some? then x.value.subscribers else None
  }

  function RetainedAt(n: Node, path: Levels): Option<Retained> {
    var x := At(n, path);
    if x.Some? then x.value.retained else None
  }

  /** What an operation stores at the end of a path. */
  datatype Entry = Subscription(client: Client, qos: nat) | Message(retained: Retained)

  function Enter(n: Node, e: Entry): Node {
    match e
    case Subscription(c, q) =>
      n.(subscribers := Some((if n.subscribers.Some? then n.subscribers.value else map[])[c := q]))
    case Message(m) => n.(retained := Some(m))
  }

  function ChildOr(n: Node, l: Level): Node {
    if l in n.children then n.children[l] else EMPTY_NODE
  }

  /** Walks the path, creating the nodes that are missing, and stores the entry at its end. */
  function Put(n: Node, path: Levels, e: Entry): Node
    decreases path
  {
    if path == [] then Enter(n, e)
    else n.(children := n.children[path[0] := Put(ChildOr(n, path[0]), path[1..], e)])
  }

  /** No subscribers, no sub-topics and no retained message. */
  predicate Vacant(n: Node) {
    n.subscribers.None? && n.children == map[] && n.retained.None?
  }

  /** Every node below n serves a purpose, and nothing hangs below a `#`. */
  ghost predicate Shaped(n: Node) {
    && (n.subscribers.Some? ==> n.subscribers.value != map[])
    && ("#" in n.children ==> n.children["#"].children == map[])
    && forall l :: l in n.children ==> !Vacant(n.children[l]) && Shaped(n.children[l])
  }

  // ---------- what Put does ----------

  lemma {:induction false} PutAt(n: Node, path: Levels, e: Entry, f: Levels)
    ensures SubscribersAt(Put(n, path, e), f) ==
            if f == path && e.Subscription? then
              Some((if SubscribersAt(n, path).Some? then SubscribersAt(n, path).value else map[])[e.client := e.qos])
            else SubscribersAt(n, f)
    ensures RetainedAt(Put(n, path, e), f) == if f == path && e.Message? then Some(e.retained) else RetainedAt(n, f)
    decreases path
  {
    if path != [] && f != [] && f[0] == path[0] {
      var c := ChildOr(n, path[0]);
      PutAt(c, path[1..], e, f[1..]);
      assert f == path <==> f[1..] == path[1..] by {
        assert f == [f[0]] + f[1..] && path == [path[0]] + path[1..];
      }
      if path[0] !in n.children {
        EmptyAt(f[1..]);
        EmptyAt(path[1..]);
      }
    }
  }

  lemma EmptyAt(f: Levels)
    ensures SubscribersAt(EMPTY_NODE, f) == None && RetainedAt(EMPTY_NODE, f) == None
  {
  }

  lemma {:induction false} PutShaped(n: Node, path: Levels, e: Entry)
    requires Shaped(n) && HashLast(path)
    ensures Shaped(Put(n, path, e)) && !Vacant(Put(n, path, e))
    decreases path
  {
    if path == [] {
      assert e.Subscription? ==> e.client in Put(n, path, e).subscribers.value;
    } else {
      assert path[0] in Put(n, path, e).children;
      var c := ChildOr(n, path[0]);
      assert HashLast(path[1..]);
      PutShaped(c, path[1..], e);
      if path[0] == "#" {
        assert path[1..] == [];
      }
    }
  }

  // ---------- publish: matching ----------

  /** One call of client_on_match: the filter of the node, and its subscribers. */
  datatype Hit = Hit(filter: Levels, subscribers: Subscribers)

  function Visit(n: Node): seq<Hit> {
    if n.subscribers.Some? then [Hit([], n.subscribers.value)] else []
  }

  /** The hits of a walk that starts at the child of the given level. */
  function Under(l: Level, hits: seq<Hit>): seq<Hit> {
    seq(|hits|, i requires 0 <= i < |hits| => Hit([l] + hits[i].filter, hits[i].subscribers))
  }

  /** match(): the node afterwards (a retained message is stored along the literal path) and the hits.
      `rest` are the levels that are still to be matched. */
  function Match(n: Node, multi: bool, rest: Levels, retain: Option<Retained>): (Node, seq<Hit>)
    decreases rest
  {
    if rest == [] || multi then
      var n' := if rest == [] && retain.Some? then n.(retained := retain) else n;
      (n', Visit(n) + if rest == [] && "#" in n.children then Under("#", Visit(n.children["#"])) else [])
    else
      var literal :=
        if rest[0] in n.children || retain.Some? then Match(ChildOr(n, rest[0]), false, rest[1..], retain)
        else (EMPTY_NODE, []);
      var n' := if rest[0] in n.children || retain.Some? then n.(children := n.children[rest[0] := literal.0]) else n;
      var single := if "+" in n'.children then Match(n'.children["+"], false, rest[1..], None).1 else [];
      var multiple := if "#" in n'.children then Match(n'.children["#"], true, rest[1..], None).1 else [];
      (n', Under(rest[0], literal.1) + Under("+", single) + Under("#", multiple))
  }

  /** Without a retained message the tree is only read. */
  lemma {:induction false} MatchReads(n: Node, multi: bool, rest: Levels)
    ensures Match(n, multi, rest, None).0 == n
    decreases rest
  {
    if rest != [] && !multi && rest[0] in n.children {
      MatchReads(n.children[rest[0]], false, rest[1..]);
      assert n.children[rest[0] := n.children[rest[0]]] == n.children;
    }
  }

  /** With one it is stored at the topic's node, created if necessary, and nowhere else. */
  lemma {:induction false} MatchRetains(n: Node, rest: Levels, m: Retained)
    ensures Match(n, false, rest, Some(m)).0 == Put(n, rest, Message(m))
    decreases rest
  {
    if rest != [] {
      MatchRetains(ChildOr(n, rest[0]), rest[1..], m);
    }
  }

  lemma InUnder(l: Level, hits: seq<Hit>, f: Levels, s: Subscribers)
    ensures Hit(f, s) in Under(l, hits) <==> f != [] && f[0] == l && Hit(f[1..], s) in hits
  {
    var u := Under(l, hits);
    if f != [] && f[0] == l && Hit(f[1..], s) in hits {
      var i :| 0 <= i < |hits| && hits[i] == Hit(f[1..], s);
      assert u[i] == Hit(f, s) by { assert [l] + f[1..] == f; }
    }
    if Hit(f, s) in u {
      var i :| 0 <= i < |u| && u[i] == Hit(f, s);
      assert f == [l] + hits[i].filter;
      assert hits[i] == Hit(f[1..], s);
    }
  }

  lemma InVisit(n: Node, f: Levels, s: Subscribers)
    ensures Hit(f, s) in Visit(n) <==> f == [] && n.subscribers == Some(s)
  {
  }

  /** A childless node: nothing is found below it. */
  lemma Childless(n: Node, f: Levels)
    requires n.children == map[]
    ensures SubscribersAt(n, f) == if f == [] then n.subscribers else None
  {
  }

  /** The end of the topic: the node itself, and `#` below it, which includes its parent. */
  lemma MatchEnd(n: Node, retain: Option<Retained>, f: Levels, s: Subscribers)
    requires Shaped(n)
    ensures Hit(f, s) in Match(n, false, [], retain).1 <==> SubscribersAt(n, f) == Some(s) && Matches(f, [])
  {
    InVisit(n, f, s);
    if "#" in n.children {
      var c := n.children["#"];
      InUnder("#", Visit(c), f, s);
      if f != [] {
        InVisit(c, f[1..], s);
        Childless(c, f[1..]);
      }
    }
  }

  /** The three branches of one level of the walk. */
  lemma MatchBranches(n: Node, rest: Levels, retain: Option<Retained>) returns (a: seq<Hit>, b: seq<Hit>, c: seq<Hit>)
    requires Shaped(n) && rest != [] && Literal(rest)
    ensures Match(n, false, rest, retain).1 == Under(rest[0], a) + Under("+", b) + Under("#", c)
    ensures a == if rest[0] in n.children || retain.Some? then Match(ChildOr(n, rest[0]), false, rest[1..], retain).1 else []
    ensures b == if "+" in n.children then Match(n.children["+"], false, rest[1..], None).1 else []
    ensures c == if "#" in n.children then Visit(n.children["#"]) else []
  {
    assert !IsWildcard(rest[0]);
    a := if rest[0] in n.children || retain.Some? then Match(ChildOr(n, rest[0]), false, rest[1..], retain).1 else [];
    b := if "+" in n.children then Match(n.children["+"], false, rest[1..], None).1 else [];
    c := if "#" in n.children then Visit(n.children["#"]) else [];
    if "#" in n.children {
      var h := n.children["#"];
      assert h.children == map[];
      assert Match(h, true, rest[1..], None).1 == Visit(h) + [] == Visit(h);
    }
  }

  /** One level of the walk, seen from the first level of a filter. */
  lemma MatchStep(n: Node, rest: Levels, retain: Option<Retained>, f: Levels, s: Subscribers,
                  a: seq<Hit>, b: seq<Hit>, c: seq<Hit>)
    requires rest != [] && !IsWildcard(rest[0])
    requires Match(n, false, rest, retain).1 == Under(rest[0], a) + Under("+", b) + Under("#", c)
    ensures Hit(f, s) in Match(n, false, rest, retain).1 <==>
            f != [] && (if f[0] == rest[0] then Hit(f[1..], s) in a
                        else if f[0] == "+" then Hit(f[1..], s) in b
                        else f[0] == "#" && Hit(f[1..], s) in c)
  {
    InUnder(rest[0], a, f, s);
    InUnder("+", b, f, s);
    InUnder("#", c, f, s);
  }

  /** The same seen from the tree and the flat rule. */
  lemma FlatStep(n: Node, rest: Levels, f: Levels, s: Subscribers, c: seq<Hit>)
    requires Shaped(n) && rest != [] && !IsWildcard(rest[0])
    requires c == if "#" in n.children then Visit(n.children["#"]) else []
    ensures SubscribersAt(n, f) == Some(s) && Matches(f, rest) <==>
            f != [] && (if f[0] == rest[0] then SubscribersAt(ChildOr(n, f[0]), f[1..]) == Some(s) && Matches(f[1..], rest[1..])
                        else if f[0] == "+" then f[0] in n.children && SubscribersAt(n.children["+"], f[1..]) == Some(s)
                                                 && Matches(f[1..], rest[1..])
                        else f[0] == "#" && Hit(f[1..], s) in c)
  {
    if f != [] {
      EmptyAt(f[1..]);
      if f[0] == "#" && "#" in n.children {
        InVisit(n.children["#"], f[1..], s);
        Childless(n.children["#"], f[1..]);
      }
    }
  }

  /** Publish matching is exact: a walk hits the subscribers of a filter if and only if the filter
      matches the topic. */
  lemma {:induction false} MatchExact(n: Node, rest: Levels, retain: Option<Retained>, f: Levels, s: Subscribers)
    requires Shaped(n) && Literal(rest)
    ensures Hit(f, s) in Match(n, false, rest, retain).1 <==> SubscribersAt(n, f) == Some(s) && Matches(f, rest)
    decreases rest
  {
    if rest == [] {
      MatchEnd(n, retain, f, s);
    } else {
      var a, b, c := MatchBranches(n, rest, retain);
      assert !IsWildcard(rest[0]) && Literal(rest[1..]);
      MatchStep(n, rest, retain, f, s, a, b, c);
      FlatStep(n, rest, f, s, c);
      if f != [] && f[0] == rest[0] {
        MatchExact(ChildOr(n, f[0]), rest[1..], retain, f[1..], s);
        EmptyAt(f[1..]);
      } else if f != [] && f[0] == "+" && "+" in n.children {
        MatchExact(n.children["+"], rest[1..], None, f[1..], s);
      }
    }
  }

  ghost predicate Once(hits: seq<Hit>) {
    forall i, j :: 0 <= i < j < |hits| ==> hits[i].filter != hits[j].filter
  }

  ghost predicate StartWith(l: Level, hits: seq<Hit>) {
    forall i :: 0 <= i < |hits| ==> hits[i].filter != [] && hits[i].filter[0] == l
  }

  lemma UnderOnce(l: Level, hits: seq<Hit>)
    requires Once(hits)
    ensures Once(Under(l, hits)) && StartWith(l, Under(l, hits))
  {
    var u := Under(l, hits);
    forall i, j | 0 <= i < j < |u| ensures u[i].filter != u[j].filter {
      assert u[i].filter[1..] == hits[i].filter && u[j].filter[1..] == hits[j].filter;
    }
  }

  lemma OnceApart(l: Level, a: seq<Hit>, m: Level, b: seq<Hit>, k: Level, c: seq<Hit>)
    requires l != m && m != k && l != k
    requires Once(a) && Once(b) && Once(c) && StartWith(l, a) && StartWith(m, b) && StartWith(k, c)
    ensures Once(a + b + c)
  {
  }

  /** Every node is visited at most once. */
  lemma {:induction false} MatchOnce(n: Node, rest: Levels, retain: Option<Retained>)
    requires Shaped(n) && Literal(rest)
    ensures Once(Match(n, false, rest, retain).1)
    decreases rest
  {
    if rest == [] {
      if "#" in n.children {
        UnderOnce("#", Visit(n.children["#"]));
      }
    } else {
      var a, b, c := MatchBranches(n, rest, retain);
      assert !IsWildcard(rest[0]) && Literal(rest[1..]);
      MatchOnce(ChildOr(n, rest[0]), rest[1..], retain);
      if "+" in n.children {
        MatchOnce(n.children["+"], rest[1..], None);
      }
      UnderOnce(rest[0], a);
      UnderOnce("+", b);
      UnderOnce("#", c);
      OnceApart(rest[0], Under(rest[0], a), "+", Under("+", b), "#", Under("#", c));
    }
  }

  // ---------- subscribe: looking for retained messages ----------

  /** A retained message and the topic of its node. */
  datatype Found = Found(topic: Levels, retained: Retained)

  ghost predicate Distinct(out: seq<Found>) {
    forall i, j :: 0 <= i < j < |out| ==> out[i].topic != out[j].topic
  }

  /** The message retained at topic t of the subtree n that hangs at `path`. */
  ghost predicate Holds(n: Node, path: Levels, x: Found) {
    path <= x.topic && Literal(x.topic[|path|..]) && RetainedAt(n, x.topic[|path|..]) == Some(x.retained)
  }

  /** The message, if any, of the node itself. */
  method OwnRetained(n: Node, path: Levels) returns (out: seq<Found>)
    ensures Distinct(out)
    ensures forall x :: x in out <==> x.topic == path && n.retained == Some(x.retained)
  {
    out := if n.retained.Some? then [Found(path, n.retained.value)] else [];
  }

  lemma HoldsBelow(n: Node, path: Levels, x: Found)
    requires path < x.topic
    ensures var l := x.topic[|path|];
            Holds(n, path, x) <==> !IsWildcard(l) && l in n.children && Holds(n.children[l], path + [l], x)
  {
    var l, t := x.topic[|path|], x.topic[|path|..];
    assert t[0] == l && t[1..] == x.topic[|path| + 1..];
    assert path + [l] <= x.topic;
    assert Literal(t) <==> !IsWildcard(l) && Literal(t[1..]) by {
      assert forall i :: 0 <= i < |t| - 1 ==> t[1..][i] == t[i + 1];
      assert forall i :: 1 <= i < |t| ==> t[i] == t[1..][i - 1];
    }
  }

  lemma HoldsHere(n: Node, x: Found)
    ensures Holds(n, x.topic, x) <==> n.retained == Some(x.retained)
  {
    assert x.topic[|x.topic|..] == [];
  }

  /** What a walk for filter f is to find in the subtree n that hangs at `path`. */
  ghost predicate Wanted(n: Node, path: Levels, f: Levels, x: Found) {
    Holds(n, path, x) && Matches(f, x.topic[|path|..])
  }

  /** Part of it: the node itself, and the children whose level is not in `todo`. */
  ghost predicate WantedBut(n: Node, path: Levels, f: Levels, todo: set<Level>, x: Found) {
    Wanted(n, path, f, x) && (x.topic == path || x.topic[|path|] !in todo)
  }

  lemma ExtendResults(path: Levels, l: Level, todo: set<Level>, out: seq<Found>, sub: seq<Found>)
    requires Distinct(out) && Distinct(sub) && l in todo
    requires forall x :: x in out ==> path <= x.topic && (x.topic == path || x.topic[|path|] !in todo)
    requires forall x :: x in sub ==> path + [l] <= x.topic
    ensures Distinct(out + sub)
  {
    var r := out + sub;
    forall i, j | 0 <= i < j < |r| ensures r[i].topic != r[j].topic {
      if i < |out| <= j {
        assert out[i] in out && sub[j - |out|] in sub;
        assert path + [l] <= r[j].topic;
        assert r[j].topic[|path|] == l;
      }
    }
  }

  /** For a walk that treats child l with filter g: one more level is done. */
  lemma WantedStep(n: Node, path: Levels, f: Levels, g: Levels, todo: set<Level>, l: Level, x: Found)
    requires l in todo && l in n.children && !IsWildcard(l)
    requires (f != [] && (f[0] == "+" || f[0] == l) && g == f[1..]) || (f == ["#"] && g == ["#"])
    ensures WantedBut(n, path, f, todo - {l}, x) <==>
            WantedBut(n, path, f, todo, x) || Wanted(n.children[l], path + [l], g, x)
  {
    if path < x.topic {
      HoldsBelow(n, path, x);
      var t := x.topic[|path|..];
      assert t[1..] == x.topic[|path| + 1..] && t[0] == x.topic[|path|];
      if Wanted(n.children[l], path + [l], g, x) {
        assert x.topic[|path|] == (path + [l])[|path|];
      }
    }
  }

  /** A wildcard child never holds a topic. */
  lemma WantedSkip(n: Node, path: Levels, f: Levels, todo: set<Level>, l: Level, x: Found)
    requires IsWildcard(l)
    ensures WantedBut(n, path, f, todo - {l}, x) <==> WantedBut(n, path, f, todo, x)
  {
    if path < x.topic {
      HoldsBelow(n, path, x);
    }
  }

  /** get_all_retain: the node and every literal child, whatever the order of the child map. */
  method GetAllRetained(n: Node, path: Levels) returns (out: seq<Found>)
    ensures Distinct(out)
    ensures forall x :: x in out <==> Wanted(n, path, ["#"], x)
    decreases n
  {
    out := OwnRetained(n, path);
    var todo := n.children.Keys;
    forall x ensures x in out <==> WantedBut(n, path, ["#"], todo, x) {
      WantedAtStart(n, path, ["#"], x);
    }
    while todo != {}
      invariant todo <= n.children.Keys && Distinct(out)
      invariant forall x :: x in out <==> WantedBut(n, path, ["#"], todo, x)
    {
      var l :| l in todo;
      if !IsWildcard(l) {
        var sub := GetAllRetained(n.children[l], path + [l]);
        ExtendResults(path, l, todo, out, sub);
        forall x ensures WantedBut(n, path, ["#"], todo - {l}, x) <==> x in out + sub {
          WantedStep(n, path, ["#"], ["#"], todo, l, x);
        }
        out := out + sub;
      } else {
        forall x ensures WantedBut(n, path, ["#"], todo - {l}, x) <==> WantedBut(n, path, ["#"], todo, x) {
          WantedSkip(n, path, ["#"], todo, l, x);
        }
      }
      todo := todo - {l};
    }
  }

  lemma WantedAtStart(n: Node, path: Levels, f: Levels, x: Found)
    ensures WantedBut(n, path, f, n.children.Keys, x) <==>
            x.topic == path && n.retained == Some(x.retained) && Matches(f, [])
  {
    if x.topic == path {
      HoldsHere(n, x);
      assert x.topic[|path|..] == [];
    } else if path < x.topic {
      HoldsBelow(n, path, x);
    }
  }

  /** find_retain_messages: follows the filter through the tree. */
  method FindRetained(n: Node, path: Levels, f: Levels) returns (out: seq<Found>)
    requires HashLast(f)
    ensures Distinct(out)
    ensures forall x :: x in out <==> Wanted(n, path, f, x)
    decreases f
  {
    if f == [] {
      out := OwnRetained(n, path);
      forall x ensures x in out <==> Wanted(n, path, f, x) {
        WantedAtEnd(n, path, x);
      }
    } else if f[0] == "+" {
      out := [];
      var todo := n.children.Keys;
      forall x ensures !WantedBut(n, path, f, todo, x) {
        WantedAtStart(n, path, f, x);
      }
      while todo != {}
        invariant todo <= n.children.Keys && Distinct(out)
        invariant forall x :: x in out <==> WantedBut(n, path, f, todo, x)
      {
        var l :| l in todo;
        if !IsWildcard(l) {
          var sub := FindRetained(n.children[l], path + [l], f[1..]);
          ExtendResults(path, l, todo, out, sub);
          forall x ensures WantedBut(n, path, f, todo - {l}, x) <==> x in out + sub {
            WantedStep(n, path, f, f[1..], todo, l, x);
          }
          out := out + sub;
        } else {
          forall x ensures WantedBut(n, path, f, todo - {l}, x) <==> WantedBut(n, path, f, todo, x) {
            WantedSkip(n, path, f, todo, l, x);
          }
        }
        todo := todo - {l};
      }
    } else if f[0] == "#" {
      assert f == ["#"];
      out := GetAllRetained(n, path);
    } else {
      out := [];
      if f[0] in n.children {
        out := FindRetained(n.children[f[0]], path + [f[0]], f[1..]);
      }
      forall x ensures x in out <==> Wanted(n, path, f, x) {
        WantedLiteral(n, path, f, x);
      }
    }
  }

  lemma WantedAtEnd(n: Node, path: Levels, x: Found)
    ensures Wanted(n, path, [], x) <==> x.topic == path && n.retained == Some(x.retained)
  {
    if x.topic == path {
      HoldsHere(n, x);
    }
  }

  lemma WantedLiteral(n: Node, path: Levels, f: Levels, x: Found)
    requires f != [] && !IsWildcard(f[0])
    ensures Wanted(n, path, f, x) <==>
            f[0] in n.children && Wanted(n.children[f[0]], path + [f[0]], f[1..], x)
  {
    if path < x.topic {
      HoldsBelow(n, path, x);
      var t := x.topic[|path|..];
      assert t[1..] == x.topic[|path| + 1..] && t[0] == x.topic[|path|];
      if f[0] in n.children && Wanted(n.children[f[0]], path + [f[0]], f[1..], x) {
        assert x.topic[|path|] == (path + [f[0]])[|path|];
      }
    } else if x.topic == path {
      assert x.topic[|path|..] == [];
    }
  }

  /** Following a literal prefix of the filter first changes nothing. */
  lemma {:induction false} WantedPrefix(n: Node, path: Levels, f: Levels, k: nat, x: Found)
    requires k <= |f| && Literal(f[..k]) && At(n, f[..k]).Some?
    ensures Wanted(n, path, f, x) <==> Wanted(At(n, f[..k]).value, path + f[..k], f[k..], x)
    decreases k
  {
    if k == 0 {
      assert path + f[..0] == path && f[0..] == f;
    } else {
      assert f[..k][0] == f[0] && f[..k][1..] == f[1..][..k - 1];
      var g := f[1..][..k - 1];
      assert forall i :: 0 <= i < |g| ==> g[i] == f[..k][i + 1];
      WantedLiteral(n, path, f, x);
      WantedPrefix(n.children[f[0]], path + [f[0]], f[1..], k - 1, x);
      assert path + [f[0]] + f[1..][..k - 1] == path + f[..k];
      assert f[1..][k - 1..] == f[k..];
    }
  }

  // ---------- unsubscribe: pruning ----------

  /** The subscribers of a node without one client; an emptied map is dropped. */
  function Forget(s: Option<Subscribers>, c: Client): Option<Subscribers> {
    if s.None? || s.value - {c} == map[] then None else Some(s.value - {c})
  }

  /** The tree after an unsubscribe: every node that has become vacant is gone. */
  function Unsubscribe(n: Node, path: Levels, c: Client): Node
    requires At(n, path).Some?
    decreases path
  {
    if path == [] then n.(subscribers := Forget(n.subscribers, c))
    else
      var child := Unsubscribe(n.children[path[0]], path[1..], c);
      if Vacant(child) then n.(children := n.children - {path[0]})
      else n.(children := n.children[path[0] := child])
  }

  lemma {:induction false} UnsubscribeAt(n: Node, path: Levels, c: Client, f: Levels)
    requires At(n, path).Some?
    ensures SubscribersAt(Unsubscribe(n, path, c), f) ==
            if f == path then Forget(SubscribersAt(n, f), c) else SubscribersAt(n, f)
    ensures RetainedAt(Unsubscribe(n, path, c), f) == RetainedAt(n, f)
    decreases path
  {
    if path != [] && f != [] && f[0] == path[0] {
      UnsubscribeAt(n.children[path[0]], path[1..], c, f[1..]);
      assert f == path <==> f[1..] == path[1..] by {
        assert f == [f[0]] + f[1..] && path == [path[0]] + path[1..];
      }
    }
  }

  lemma {:induction false} UnsubscribeShaped(n: Node, path: Levels, c: Client)
    requires Shaped(n) && At(n, path).Some?
    ensures Shaped(Unsubscribe(n, path, c))
    decreases path
  {
    if path != [] {
      UnsubscribeShaped(n.children[path[0]], path[1..], c);
      if path[0] == "#" {
        assert n.children["#"].children == map[] && path[1..] == [];
      }
    }
  }

  // The code removes the subscriber at the end node and then climbs: each vacant node is erased
  // from its parent until a node is kept or the root is reached.

  function SetSubscribers(n: Node, path: Levels, s: Option<Subscribers>): Node
    requires At(n, path).Some?
    decreases path
  {
    if path == [] then n.(subscribers := s)
    else n.(children := n.children[path[0] := SetSubscribers(n.children[path[0]], path[1..], s)])
  }

  /** Erases child l of the node at the end of the path. */
  function EraseChild(n: Node, path: Levels, l: Level): Node
    requires At(n, path).Some?
    decreases path
  {
    if path == [] then n.(children := n.children - {l})
    else n.(children := n.children[path[0] := EraseChild(n.children[path[0]], path[1..], l)])
  }

  /** Erasing the vacant nodes along a path, from its end upwards. */
  function PruneUp(n: Node, path: Levels): Node
    requires At(n, path).Some?
    decreases path
  {
    if path == [] then n
    else
      var child := PruneUp(n.children[path[0]], path[1..]);
      if Vacant(child) then n.(children := n.children - {path[0]})
      else n.(children := n.children[path[0] := child])
  }

  lemma {:induction false} SetAt(n: Node, path: Levels, s: Option<Subscribers>)
    requires At(n, path).Some?
    ensures At(SetSubscribers(n, path, s), path) == Some(At(n, path).value.(subscribers := s))
    decreases path
  {
    if path != [] {
      SetAt(n.children[path[0]], path[1..], s);
    }
  }

  lemma {:induction false} PruneIsUnsubscribe(n: Node, path: Levels, c: Client)
    requires At(n, path).Some?
    ensures var m := SetSubscribers(n, path, Forget(At(n, path).value.subscribers, c));
            At(m, path).Some? && PruneUp(m, path) == Unsubscribe(n, path, c)
    decreases path
  {
    var s := Forget(At(n, path).value.subscribers, c);
    SetAt(n, path, s);
    if path != [] {
      var child := n.children[path[0]];
      PruneIsUnsubscribe(child, path[1..], c);
      var m := SetSubscribers(n, path, s);
      assert m.children[path[0]] == SetSubscribers(child, path[1..], s);
      assert m.children - {path[0]} == n.children - {path[0]};
    }
  }

  /** One turn of the climb. */
  lemma {:induction false} PruneTurn(n: Node, path: Levels, l: Level)
    requires At(n, path + [l]).Some? && Vacant(At(n, path + [l]).value)
    ensures At(n, path).Some? && At(EraseChild(n, path, l), path).Some?
    ensures PruneUp(n, path + [l]) == PruneUp(EraseChild(n, path, l), path)
    decreases path
  {
    if path == [] {
      assert [l][1..] == [] && path + [l] == [l];
    } else {
      var p := path + [l];
      assert p[0] == path[0] && p[1..] == path[1..] + [l];
      PruneTurn(n.children[path[0]], path[1..], l);
      var m := EraseChild(n, path, l);
      assert m.children[path[0]] == EraseChild(n.children[path[0]], path[1..], l);
      assert m.children - {path[0]} == n.children - {path[0]};
    }
  }

  /** A node that is kept keeps everything above it. */
  lemma {:induction false} PruneStops(n: Node, path: Levels)
    requires At(n, path).Some? && !Vacant(At(n, path).value)
    ensures PruneUp(n, path) == n && (path != [] ==> !Vacant(n))
    decreases path
  {
    if path != [] {
      PruneStops(n.children[path[0]], path[1..]);
      assert n.children[path[0] := n.children[path[0]]] == n.children;
      assert path[0] in n.children;
    }
  }

  method RemoveTopic(root: Node, path: Levels) returns (r: Node)
    requires path != [] && At(root, path).Some?
    ensures r == PruneUp(root, path)
  {
    r := root;
    var k := |path|;
    assert path[..k] == path;
    while k > 0 && Vacant(At(r, path[..k]).value)
      invariant 0 <= k <= |path|
      invariant At(r, path[..k]).Some? && PruneUp(r, path[..k]) == PruneUp(root, path)
    {
      assert path[..k] == path[..k - 1] + [path[k - 1]];
      PruneTurn(r, path[..k - 1], path[k - 1]);
      r := EraseChild(r, path[..k - 1], path[k - 1]);
      k := k - 1;
    }
    if k > 0 {
      PruneStops(r, path[..k]);
    }
  }
}
