/** Topic names and topic filters as level lists (mqtt/mqtt_topic.c:16-50), and the matching rule
    of section 4.7.1 of MQTT Version 3.1.1 as a flat reference. */
module TopicNames {
  type Level = string
  type Levels = seq<Level>

  predicate IsWildcard(l: Level) {
    l == "+" || l == "#"
  }

  /** A topic name: no wildcard levels. */
  predicate Literal(t: Levels) {
    forall i :: 0 <= i < |t| ==> !IsWildcard(t[i])
  }

  /** A topic filter: `#` is the last level or absent. */
  predicate HashLast(f: Levels) {
    forall i :: 0 <= i < |f| - 1 ==> f[i] != "#"
  }

  /** Section 4.7.1: `+` stands for one level, `#` for the parent level and all levels below. */
  predicate Matches(f: Levels, t: Levels) {
    if f == [] then t == []
    else if f[0] == "#" then |f| == 1
    else t != [] && (f[0] == "+" || f[0] == t[0]) && Matches(f[1..], t[1..])
  }

  // ---------- splitting ----------

  /** Index of the first separator at or after `from`, or the length. */
  function Separator(s: string, from: nat): (i: nat)
    requires from <= |s|
    ensures from <= i <= |s|
    ensures i < |s| ==> s[i] == '/'
    ensures forall k :: from <= k < i ==> s[k] != '/'
    decreases |s| - from
  {
    if from == |s| || s[from] == '/' then from else Separator(s, from + 1)
  }

  /** The levels of the part of s that starts at `from`. */
  function LevelsFrom(s: string, from: nat): (r: Levels)
    requires from <= |s|
    ensures r != []
    decreases |s| - from
  {
    var i := Separator(s, from);
    if i == |s| then [s[from..]] else [s[from..i]] + LevelsFrom(s, i + 1)
  }

  function Split(s: string): Levels {
    LevelsFrom(s, 0)
  }

  function Join(ls: Levels): string {
    if ls == [] then "" else if |ls| == 1 then ls[0] else ls[0] + "/" + Join(ls[1..])
  }

  predicate SlashFree(l: Level) {
    forall i :: 0 <= i < |l| ==> l[i] != '/'
  }

  lemma {:induction false} LevelsSlashFree(s: string, from: nat)
    requires from <= |s|
    ensures forall k :: 0 <= k < |LevelsFrom(s, from)| ==> SlashFree(LevelsFrom(s, from)[k])
    decreases |s| - from
  {
    var i := Separator(s, from);
    assert SlashFree(s[from..i]);
    if i < |s| {
      LevelsSlashFree(s, i + 1);
    } else {
      assert s[from..i] == s[from..];
    }
  }

  lemma {:induction false} JoinLevels(s: string, from: nat)
    requires from <= |s|
    ensures Join(LevelsFrom(s, from)) == s[from..]
    decreases |s| - from
  {
    var i := Separator(s, from);
    if i < |s| {
      JoinLevels(s, i + 1);
      JoinCons(s[from..i], LevelsFrom(s, i + 1));
      CutAtSeparator(s, from, i);
    }
  }

  lemma CutAtSeparator(s: string, from: nat, i: nat)
    requires from <= i < |s| && s[i] == '/'
    ensures s[from..] == s[from..i] + "/" + s[i + 1..]
  {
  }

  lemma JoinCons(first: Level, rest: Levels)
    requires rest != []
    ensures Join([first] + rest) == first + "/" + Join(rest)
  {
    assert ([first] + rest)[1..] == rest;
  }

  /** From the given position on, s consists of the levels with separators between them. */
  ghost predicate Spells(s: string, from: nat, ls: Levels)
    requires ls != []
    decreases |ls|
  {
    var end := from + |ls[0]|;
    && end <= |s| && s[from..end] == ls[0]
    && if |ls| == 1 then end == |s| else end < |s| && s[end] == '/' && Spells(s, end + 1, ls[1..])
  }

  lemma {:induction false} JoinSpells(s: string, from: nat, ls: Levels)
    requires ls != [] && from <= |s| && s[from..] == Join(ls)
    ensures Spells(s, from, ls)
    decreases |ls|
  {
    var t, n := s[from..], |ls[0]|;
    assert t[..n] == ls[0] && s[from..from + n] == t[..n];
    if |ls| > 1 {
      assert t[n] == s[from + n] == '/';
      assert s[from + n + 1..] == t[n + 1..] == Join(ls[1..]);
      JoinSpells(s, from + n + 1, ls[1..]);
    }
  }

  lemma SeparatorAt(s: string, from: nat, end: nat)
    requires from <= end <= |s| && SlashFree(s[from..end]) && (end < |s| ==> s[end] == '/')
    ensures Separator(s, from) == end
  {
    assert forall k :: from <= k < end ==> s[k] == s[from..end][k - from];
  }

  lemma {:induction false} SpelledLevels(s: string, from: nat, ls: Levels)
    requires ls != [] && Spells(s, from, ls) && forall k :: 0 <= k < |ls| ==> SlashFree(ls[k])
    ensures LevelsFrom(s, from) == ls
    decreases |ls|
  {
    var end := from + |ls[0]|;
    SeparatorAt(s, from, end);
    if |ls| > 1 {
      SpelledLevels(s, end + 1, ls[1..]);
    } else {
      assert s[from..end] == s[from..];
    }
  }

  /** Splitting and joining are inverse to each other: "/a/b", "a/b" and "a/b/" have different levels. */
  lemma SplitInverse(s: string, ls: Levels)
    requires ls != [] && forall k :: 0 <= k < |ls| ==> SlashFree(ls[k])
    ensures Join(Split(s)) == s && Split(Join(ls)) == ls
    ensures forall k :: 0 <= k < |Split(s)| ==> SlashFree(Split(s)[k])
  {
    LevelsSlashFree(s, 0);
    JoinLevels(s, 0);
    assert s[0..] == s;
    assert Join(ls)[0..] == Join(ls);
    JoinSpells(Join(ls), 0, ls);
    SpelledLevels(Join(ls), 0, ls);
  }

  /** The inner loop of tmq_topic_split and of add_topic_or_find: the end of the level at lp. */
  method EndOfLevel(str: string, lp: nat) returns (rp: nat)
    requires lp <= |str|
    ensures rp == Separator(str, lp)
  {
    rp := lp;
    while rp < |str| && str[rp] != '/'
      invariant lp <= rp <= |str|
      invariant Separator(str, rp) == Separator(str, lp)
    {
      rp := rp + 1;
    }
  }

  /** tmq_topic_split: two pointers over the string. */
  method SplitTopic(str: string) returns (levels: Levels)
    ensures levels == Split(str)
  {
    levels := [];
    var lp := 0;
    ghost var rest := Split(str);
    while true
      invariant lp <= |str|
      invariant rest == LevelsFrom(str, lp) && levels + rest == Split(str)
      decreases |str| - lp
    {
      var rp := EndOfLevel(str, lp);
      var level := if rp == lp then "" else str[lp..rp];
      assert rest[0] == level;
      Push(levels, level, rest);
      levels := levels + [level];
      if rp == |str| {
        return;
      }
      lp := rp + 1;
      rest := rest[1..];
      if lp == |str| {
        assert rest == LevelsFrom(str, lp) && Separator(str, lp) == |str| && str[lp..] == "";
        levels := levels + [""];
        return;
      }
    }
  }

  lemma Push(levels: Levels, l: Level, rest: Levels)
    requires rest != [] && rest[0] == l
    ensures levels + rest == levels + [l] + rest[1..]
    ensures |rest| == 1 ==> levels + rest == levels + [l]
  {
  }
}
