/** The chained hash map (base/mqtt_map.c): an array of buckets whose length is a power of two, so that masking
    a hash gives its bucket.  A chain is a sequence of entries, the newest first. */
module HashMap {
  import opened Wrappers
  import opened Bits

  // ---------- capacities and buckets ----------

  const WORD: nat := 0x1_0000_0000
  const LARGEST: nat := 0x8000_0000   // the largest power of two in 32 bits

  /** UINT32_MAX divided by the factor. */
  function Most(factor: nat): nat {
    if factor == 2 then 0x7FFF_FFFF else 0xFFFF_FFFF
  }

  /** The grow factor is 1 for a new map and 2 for one that grows. */
  function Wanted(cap: nat, factor: nat): (v: nat)
    requires factor == 1 || factor == 2
    ensures v >= 8 && (cap >= 8 ==> v == cap * factor)
  {
    if cap < 8 then 8 else if factor == 1 then cap else 2 * cap
  }

  /** The capacity that is allocated: None when the wish does not fit into 32 bits; a wish above 2^31 is rounded up
      to 2^32, which wraps to 0. */
  function Capacity(cap: nat, factor: nat): (c: Option<nat>)
    requires factor == 1 || factor == 2
  {
    if cap > Most(factor) then None
    else
      var r := RoundUp(Wanted(cap, factor));
      Some(if r < WORD then r else 0)
  }

  lemma WishFits(cap: nat, factor: nat)
    requires (factor == 1 || factor == 2) && cap <= Most(factor)
    ensures Wanted(cap, factor) < WORD
  {
  }

  lemma CapacityFits(cap: nat, factor: nat)
    requires (factor == 1 || factor == 2) && cap <= Most(factor)
    ensures var v, c := if cap < 8 then 8 else cap * factor, Capacity(cap, factor).value;
            if v <= LARGEST then PowerOfTwo(c) && v <= c < 2 * v else c == 0
  {
    var v := Wanted(cap, factor);
    WishFits(cap, factor);
    if v > LARGEST {
      PowerIs();
      SamePower(v, 32);
    }
  }

  lemma TwofoldFits(cap: nat)
    requires PowerOfTwo(cap) && cap < LARGEST
    ensures PowerOfTwo(2 * cap) && 2 * cap <= LARGEST
  {
    var k: nat :| cap == Power(k);
    PowerIs();
    assert Power(k + 1) == 2 * cap;
    if k + 1 < 31 {
      PowerGrows(k + 1, 31);
    } else if k > 31 {
      PowerGrows(31, k);
    }
  }

  /** Growing doubles the capacity, up to 2^31. */
  lemma GrowsTwofold(cap: nat)
    requires PowerOfTwo(cap) && 8 <= cap <= LARGEST
    ensures Capacity(cap, 2) == if cap == LARGEST then None else Some(2 * cap)
    ensures cap < LARGEST ==> PowerOfTwo(2 * cap) && 2 * cap <= LARGEST
  {
    if cap < LARGEST {
      TwofoldFits(cap);
      var k: nat :| 2 * cap == Power(k);
      RoundUpPower(k);
    }
  }

  /** tmq_map_alloc_buckets, without the allocation. */
  method AllocCapacity(cap: nat, factor: nat) returns (c: Option<nat>)
    requires factor == 1 || factor == 2
    ensures c == Capacity(cap, factor)
  {
    if cap > Most(factor) {
      return None;
    }
    WishFits(cap, factor);
    var v: nat := Wanted(cap, factor) - 1;
    v := SmearBits(v);
    PowerIs();
    SmearRoundsUp(Wanted(cap, factor), v);
    c := Some(if v + 1 < WORD then v + 1 else 0);
  }

  method NewCapacity(cap: nat) returns (c: nat)
    requires cap <= LARGEST
    ensures PowerOfTwo(c) && 8 <= c <= LARGEST && cap <= c < 2 * (if cap < 8 then 8 else cap)
  {
    var r := AllocCapacity(cap, 1);
    CapacityFits(cap, 1);
    PowerIs();
    c := r.value;
    NotAbove(c, 31);
  }

  method TwiceCapacity(cap: nat) returns (c: Option<nat>)
    requires PowerOfTwo(cap) && 8 <= cap <= LARGEST
    ensures c == if cap == LARGEST then None else Some(2 * cap)
    ensures c.Some? ==> PowerOfTwo(c.value) && c.value <= LARGEST
  {
    c := AllocCapacity(cap, 2);
    GrowsTwofold(cap);
  }

  lemma NotAbove(c: nat, k: nat)
    requires PowerOfTwo(c) && c < 2 * Power(k)
    ensures c <= Power(k)
  {
    var j: nat :| c == Power(j);
    if j > k {
      PowerGrows(k, j);
    } else if j < k {
      PowerGrows(j, k);
    }
  }

  /** The size from which on the map grows. */
  function Threshold(cap: nat, loadFactor: nat): nat {
    cap * loadFactor / 100
  }

  lemma ThresholdIs(cap: nat, loadFactor: nat)
    ensures 100 * Threshold(cap, loadFactor) <= cap * loadFactor < 100 * Threshold(cap, loadFactor) + 100
  {
  }

  /** Growing makes room for more. */
  lemma ThresholdGrows(cap: nat, loadFactor: nat)
    requires cap >= 8 && loadFactor >= 25
    ensures Threshold(2 * cap, loadFactor) > Threshold(cap, loadFactor) >= 2
  {
    ThresholdIs(cap, loadFactor);
    ThresholdIs(2 * cap, loadFactor);
    AtLeast(cap, loadFactor);
    assert 2 * cap * loadFactor == 2 * (cap * loadFactor);
  }

  lemma AtLeast(cap: nat, loadFactor: nat)
    requires cap >= 8 && loadFactor >= 25
    ensures cap * loadFactor >= 200
  {
    assert cap * loadFactor == (cap - 8) * loadFactor + 8 * loadFactor;
  }

  /** v |= v >> i for i = 1, 2, 4, 8, 16. */
  method SmearBits(v: nat) returns (y: nat)
    ensures Smeared(v, y, 32)
  {
    y := v;
    var i := 1;
    NotSmeared(v);
    while i < 32
      invariant i == 1 || i == 2 || i == 4 || i == 8 || i == 16 || i == 32
      invariant Smeared(v, y, i)
      decreases 32 - i
    {
      SmearMore(v, y, i);
      y := BitOr(y, Shift(y, i));
      i := i * 2;
    }
  }

  /** The bucket of a hash. */
  function Slot(h: nat, cap: nat): (b: nat)
    requires cap > 0
    ensures b < cap
  {
    BelowMask(h, cap - 1);
    BitAnd(h, cap - 1)
  }

  /** Every capacity is a power of two, so the bucket is the hash modulo the capacity. */
  lemma SlotIsRemainder(h: nat, cap: nat)
    requires PowerOfTwo(cap)
    ensures cap > 0 && Slot(h, cap) == h % cap
  {
    var k: nat :| cap == Power(k);
    MaskIsRemainder(h, k);
    Remainder(h, cap, Shift(h, k), BitAnd(h, cap - 1));
  }

  // ---------- chains and tables ----------

  datatype Entry<K, V> = Entry(hash: nat, key: K, value: V)

  ghost predicate HasKey<K, V>(chain: seq<Entry<K, V>>, k: K) {
    exists i :: 0 <= i < |chain| && chain[i].key == k
  }

  ghost predicate Distinct<K, V>(chain: seq<Entry<K, V>>) {
    forall i, j :: 0 <= i < j < |chain| ==> chain[i].key != chain[j].key
  }

  /** An entry of bucket b stands for a binding of m. */
  ghost predicate Stands<K, V>(hash: K -> nat, cap: nat, e: Entry<K, V>, b: nat, m: map<K, V>)
    requires cap > 0
  {
    e.hash == hash(e.key) && Slot(e.hash, cap) == b && e.key in m && m[e.key] == e.value
  }

  /** The chain of bucket b holds exactly the bindings of m that belong there, each once. */
  ghost predicate Holds<K, V>(hash: K -> nat, cap: nat, chain: seq<Entry<K, V>>, b: nat, m: map<K, V>)
    requires cap > 0
  {
    && (forall i :: 0 <= i < |chain| ==> Stands(hash, cap, chain[i], b, m))
    && Distinct(chain)
    && (forall k :: k in m && Slot(hash(k), cap) == b ==> HasKey(chain, k))
  }

  ghost predicate Table<K, V>(hash: K -> nat, cap: nat, chains: seq<seq<Entry<K, V>>>, m: map<K, V>) {
    && cap == |chains| > 0
    && forall b :: 0 <= b < |chains| ==> Holds(hash, cap, chains[b], b, m)
  }

  lemma HoldsOther<K, V>(hash: K -> nat, cap: nat, chain: seq<Entry<K, V>>, b: nat, m: map<K, V>, m': map<K, V>, k: K)
    requires cap > 0 && Holds(hash, cap, chain, b, m) && Slot(hash(k), cap) != b
    requires m' - {k} == m - {k}
    ensures Holds(hash, cap, chain, b, m')
  {
    forall i | 0 <= i < |chain| ensures Stands(hash, cap, chain[i], b, m') {
      assert Stands(hash, cap, chain[i], b, m);
      assert chain[i].key in m - {k} && (m - {k})[chain[i].key] == chain[i].value;
      assert chain[i].key in m' - {k} && (m' - {k})[chain[i].key] == chain[i].value;
    }
    forall x | x in m' && Slot(hash(x), cap) == b ensures HasKey(chain, x) {
      assert x in m' - {k};
      assert x in m - {k};
    }
  }

  /** A key has a binding exactly if it stands in its chain. */
  lemma FoundInTable<K, V>(hash: K -> nat, cap: nat, chains: seq<seq<Entry<K, V>>>, m: map<K, V>, k: K)
    requires Table(hash, cap, chains, m)
    ensures HasKey(chains[Slot(hash(k), cap)], k) <==> k in m
  {
    var b := Slot(hash(k), cap);
    assert Holds(hash, cap, chains[b], b, m);
    if HasKey(chains[b], k) {
      var i :| 0 <= i < |chains[b]| && chains[b][i].key == k;
      assert Stands(hash, cap, chains[b][i], b, m);
    }
  }

  lemma HoldsFront<K, V>(hash: K -> nat, cap: nat, chain: seq<Entry<K, V>>, b: nat, m: map<K, V>, k: K, v: V)
    requires cap > 0 && Holds(hash, cap, chain, b, m) && k !in m && Slot(hash(k), cap) == b
    ensures Holds(hash, cap, [Entry(hash(k), k, v)] + chain, b, m[k := v])
  {
    var c, m' := [Entry(hash(k), k, v)] + chain, m[k := v];
    forall i | 0 <= i < |c| ensures Stands(hash, cap, c[i], b, m') {
      if i > 0 {
        assert c[i] == chain[i - 1] && Stands(hash, cap, chain[i - 1], b, m);
      }
    }
    forall i, j | 0 <= i < j < |c| ensures c[i].key != c[j].key {
      assert c[j] == chain[j - 1] && Stands(hash, cap, chain[j - 1], b, m);
      assert i > 0 ==> c[i] == chain[i - 1];
    }
    forall x | x in m' && Slot(hash(x), cap) == b ensures HasKey(c, x) {
      if x == k {
        assert c[0].key == k;
      } else {
        assert HasKey(chain, x);
        var i :| 0 <= i < |chain| && chain[i].key == x;
        assert c[i + 1].key == x;
      }
    }
  }

  /** A new key goes to the front of its chain. */
  lemma PutNew<K, V>(hash: K -> nat, cap: nat, chains: seq<seq<Entry<K, V>>>, m: map<K, V>, k: K, v: V)
    requires Table(hash, cap, chains, m) && k !in m
    ensures var b := Slot(hash(k), cap);
            Table(hash, cap, chains[b := [Entry(hash(k), k, v)] + chains[b]], m[k := v])
  {
    var b := Slot(hash(k), cap);
    HoldsFront(hash, cap, chains[b], b, m, k, v);
    forall c | 0 <= c < |chains| && c != b ensures Holds(hash, cap, chains[c], c, m[k := v]) {
      HoldsOther(hash, cap, chains[c], c, m, m[k := v], k);
    }
  }

  lemma HoldsReplaced<K, V>(hash: K -> nat, cap: nat, chain: seq<Entry<K, V>>, b: nat, m: map<K, V>, i: nat, v: V)
    requires cap > 0 && Holds(hash, cap, chain, b, m) && i < |chain|
    ensures Holds(hash, cap, chain[i := chain[i].(value := v)], b, m[chain[i].key := v])
  {
    var k := chain[i].key;
    var c, m' := chain[i := chain[i].(value := v)], m[k := v];
    assert Stands(hash, cap, chain[i], b, m);
    forall j | 0 <= j < |c| ensures Stands(hash, cap, c[j], b, m') && c[j].key == chain[j].key {
      assert Stands(hash, cap, chain[j], b, m);
      assert j < i ==> chain[j].key != chain[i].key;
      assert i < j ==> chain[i].key != chain[j].key;
    }
    forall x | x in m' && Slot(hash(x), cap) == b ensures HasKey(c, x) {
      assert x in m;
      assert HasKey(chain, x);
      var j :| 0 <= j < |chain| && chain[j].key == x;
      assert c[j].key == x;
    }
  }

  /** The value of a key that is there is replaced in its entry. */
  lemma PutOld<K, V>(hash: K -> nat, cap: nat, chains: seq<seq<Entry<K, V>>>, m: map<K, V>, b: nat, i: nat, v: V)
    requires Table(hash, cap, chains, m) && b < |chains| && i < |chains[b]|
    ensures var k := chains[b][i].key;
            k in m && Table(hash, cap, chains[b := chains[b][i := chains[b][i].(value := v)]], m[k := v])
  {
    var k := chains[b][i].key;
    assert Stands(hash, cap, chains[b][i], b, m);
    HoldsReplaced(hash, cap, chains[b], b, m, i, v);
    forall c | 0 <= c < |chains| && c != b ensures Holds(hash, cap, chains[c], c, m[k := v]) {
      HoldsOther(hash, cap, chains[c], c, m, m[k := v], k);
    }
  }

  lemma HoldsErased<K, V>(hash: K -> nat, cap: nat, chain: seq<Entry<K, V>>, b: nat, m: map<K, V>, i: nat)
    requires cap > 0 && Holds(hash, cap, chain, b, m) && i < |chain|
    ensures Holds(hash, cap, chain[..i] + chain[i + 1..], b, m - {chain[i].key})
  {
    var k := chain[i].key;
    var c, m' := chain[..i] + chain[i + 1..], m - {k};
    forall j | 0 <= j < |c| ensures Stands(hash, cap, c[j], b, m') {
      var j' := if j < i then j else j + 1;
      assert c[j] == chain[j'] && Stands(hash, cap, chain[j'], b, m);
      assert chain[j'].key != k;
    }
    forall x | x in m' && Slot(hash(x), cap) == b ensures HasKey(c, x) {
      assert HasKey(chain, x);
      var j :| 0 <= j < |chain| && chain[j].key == x;
      assert c[if j < i then j else j - 1].key == x;
    }
  }

  lemma EraseEntry<K, V>(hash: K -> nat, cap: nat, chains: seq<seq<Entry<K, V>>>, m: map<K, V>, b: nat, i: nat)
    requires Table(hash, cap, chains, m) && b < |chains| && i < |chains[b]|
    ensures var k := chains[b][i].key;
            k in m && Table(hash, cap, chains[b := chains[b][..i] + chains[b][i + 1..]], m - {k})
  {
    var k := chains[b][i].key;
    assert Stands(hash, cap, chains[b][i], b, m);
    HoldsErased(hash, cap, chains[b], b, m, i);
    forall c | 0 <= c < |chains| && c != b ensures Holds(hash, cap, chains[c], c, m - {k}) {
      HoldsOther(hash, cap, chains[c], c, m, m - {k}, k);
    }
  }

  // ---------- going through a table ----------

  ghost predicate Passed<K, V>(chains: seq<seq<Entry<K, V>>>, slot: nat, b: nat, i: nat, k: K) {
    slot < b || (slot == b < |chains| && i <= |chains[b]| && HasKey(chains[b][..i], k))
  }

  /** `part` has the bindings of m met before entry i of bucket b. */
  ghost predicate Part<K, V>(hash: K -> nat, cap: nat, chains: seq<seq<Entry<K, V>>>, m: map<K, V>, b: nat, i: nat, part: map<K, V>)
    requires cap > 0
  {
    && (forall k :: k in part ==> k in m && part[k] == m[k])
    && (forall k :: k in m ==> (k in part <==> Passed(chains, Slot(hash(k), cap), b, i, k)))
  }

  lemma PassedOne<K, V>(chains: seq<seq<Entry<K, V>>>, slot: nat, b: nat, i: nat, k: K)
    requires b < |chains| && i < |chains[b]|
    ensures Passed(chains, slot, b, i + 1, k) <==> Passed(chains, slot, b, i, k) || (slot == b && chains[b][i].key == k)
  {
    var c := chains[b];
    assert c[..i + 1] == c[..i] + [c[i]];
    if HasKey(c[..i], k) {
      var j :| 0 <= j < i && c[..i][j].key == k;
      assert c[..i + 1][j].key == k;
    }
    if c[i].key == k {
      assert c[..i + 1][i].key == k;
    }
  }

  lemma PartOne<K, V>(hash: K -> nat, cap: nat, chains: seq<seq<Entry<K, V>>>, m: map<K, V>, b: nat, i: nat, part: map<K, V>)
    requires Table(hash, cap, chains, m) && b < |chains| && i < |chains[b]| && Part(hash, cap, chains, m, b, i, part)
    ensures var e := chains[b][i];
            && e.key !in part && e.hash == hash(e.key) && e.key in m && m[e.key] == e.value
            && Part(hash, cap, chains, m, b, i + 1, part[e.key := e.value])
  {
    var e := chains[b][i];
    assert Holds(hash, cap, chains[b], b, m) && Stands(hash, cap, e, b, m);
    forall j | 0 <= j < i ensures chains[b][..i][j].key != e.key {
      assert chains[b][j].key != chains[b][i].key;
    }
    forall k | k in m ensures k in part[e.key := e.value] <==> Passed(chains, Slot(hash(k), cap), b, i + 1, k) {
      PassedOne(chains, Slot(hash(k), cap), b, i, k);
    }
  }

  /** At the end of a chain its whole bucket has been met. */
  lemma PartNext<K, V>(hash: K -> nat, cap: nat, chains: seq<seq<Entry<K, V>>>, m: map<K, V>, b: nat, part: map<K, V>)
    requires Table(hash, cap, chains, m) && b < |chains| && Part(hash, cap, chains, m, b, |chains[b]|, part)
    ensures Part(hash, cap, chains, m, b + 1, 0, part)
  {
    assert Holds(hash, cap, chains[b], b, m);
    assert chains[b][..|chains[b]|] == chains[b];
  }

  lemma PartStart<K, V>(hash: K -> nat, cap: nat, chains: seq<seq<Entry<K, V>>>, m: map<K, V>)
    requires cap > 0
    ensures Part(hash, cap, chains, m, 0, 0, map[])
  {
  }

  lemma PartEnd<K, V>(hash: K -> nat, cap: nat, chains: seq<seq<Entry<K, V>>>, m: map<K, V>, part: map<K, V>)
    requires cap == |chains| > 0 && Part(hash, cap, chains, m, cap, 0, part)
    ensures part == m
  {
    forall k | k in m ensures k in part {
      assert Passed(chains, Slot(hash(k), cap), cap, 0, k);
    }
  }

  lemma {:induction false} PartSkip<K, V>(hash: K -> nat, cap: nat, chains: seq<seq<Entry<K, V>>>, m: map<K, V>, b: nat, c: nat, part: map<K, V>)
    requires Table(hash, cap, chains, m) && b <= c <= |chains| && Part(hash, cap, chains, m, b, 0, part)
    requires forall x :: b <= x < c ==> chains[x] == []
    ensures Part(hash, cap, chains, m, c, 0, part)
    decreases c - b
  {
    if b < c {
      PartNext(hash, cap, chains, m, b, part);
      PartSkip(hash, cap, chains, m, b + 1, c, part);
    }
  }

  /** A list of bindings without repetition. */
  ghost predicate Lists<K, V>(visited: seq<(K, V)>, m: map<K, V>) {
    && (forall i :: 0 <= i < |visited| ==> visited[i].0 in m && m[visited[i].0] == visited[i].1)
    && (forall i, j :: 0 <= i < j < |visited| ==> visited[i].0 != visited[j].0)
    && (forall k :: k in m ==> (k, m[k]) in visited)
  }

  lemma ListsMore<K, V>(visited: seq<(K, V)>, m: map<K, V>, k: K, v: V)
    requires Lists(visited, m) && k !in m
    ensures Lists(visited + [(k, v)], m[k := v])
  {
    var more, m' := visited + [(k, v)], m[k := v];
    assert more[|visited|] == (k, v);
    forall x | x in m' ensures (x, m'[x]) in more {
      assert x != k ==> (x, m[x]) in visited;
    }
  }

  datatype Iterator = At(bucket: nat, pos: nat) | End

  /** The iterator stands at an entry and `part` is what came before it, or it has met everything. */
  ghost predicate Reached<K, V>(hash: K -> nat, chains: seq<seq<Entry<K, V>>>, m: map<K, V>, it: Iterator, part: map<K, V>)
    requires |chains| > 0
  {
    match it
    case At(b, i) => b < |chains| && i < |chains[b]| && Part(hash, |chains|, chains, m, b, i, part)
    case End => part == m
  }

  lemma SkipTo<K, V>(hash: K -> nat, chains: seq<seq<Entry<K, V>>>, m: map<K, V>, b: nat, it: Iterator, part: map<K, V>)
    requires Table(hash, |chains|, chains, m) && b <= |chains| && Part(hash, |chains|, chains, m, b, 0, part)
    requires it.At? ==> b <= it.bucket < |chains| && it.pos == 0 && chains[it.bucket] != []
    requires forall x :: b <= x < (if it.At? then it.bucket else |chains|) ==> chains[x] == []
    ensures Reached(hash, chains, m, it, part)
  {
    PartSkip(hash, |chains|, chains, m, b, if it.At? then it.bucket else |chains|, part);
    if it.End? {
      PartEnd(hash, |chains|, chains, m, part);
    }
  }

  // ---------- the map ----------

  /** The capacity is a power of two, and while it can grow the size is at most the threshold. */
  ghost predicate Roomy(cap: nat, loadFactor: nat, threshold: nat, size: nat) {
    && PowerOfTwo(cap) && 8 <= cap <= LARGEST
    && 25 <= loadFactor <= 95 && threshold == Threshold(cap, loadFactor)
    && (cap < LARGEST ==> size <= threshold)
  }

  /** There is room for one more, at the latest after growing. */
  lemma RoomAfterGrowing(cap: nat, loadFactor: nat, threshold: nat, size: nat)
    requires Roomy(cap, loadFactor, threshold, size)
    ensures size < threshold ==> Roomy(cap, loadFactor, threshold, size + 1)
    ensures cap < LARGEST ==> Roomy(2 * cap, loadFactor, Threshold(2 * cap, loadFactor), size + 1)
    ensures cap == LARGEST ==> Roomy(cap, loadFactor, threshold, size + 1)
  {
    ThresholdGrows(cap, loadFactor);
    if cap < LARGEST {
      TwofoldFits(cap);
    }
  }

  class HashMap<K(==), V> {
    const hash: K -> nat
    const loadFactor: nat
    var buckets: array<seq<Entry<K, V>>>
    var size: nat
    var threshold: nat
    ghost var contents: map<K, V>

    ghost predicate Valid()
      reads this, buckets
    {
      && Table(hash, buckets.Length, buckets[..], contents)
      && size == |contents| && Roomy(buckets.Length, loadFactor, threshold, size)
    }

    /** As long as the array can grow, the entries fill at most the load factor's share of the buckets. */
    lemma LoadIsBounded()
      requires Valid()
      ensures buckets.Length < LARGEST ==> 100 * |contents| <= buckets.Length * loadFactor
    {
      ThresholdIs(buckets.Length, loadFactor);
    }

    constructor (hash: K -> nat, cap: nat, loadFactor: nat)
      requires cap <= LARGEST && 25 <= loadFactor <= 95
      ensures Valid() && fresh(buckets) && contents == map[]
      ensures this.hash == hash
      ensures PowerOfTwo(buckets.Length) && 8 <= buckets.Length && cap <= buckets.Length < 2 * (if cap < 8 then 8 else cap)
    {
      var c := NewCapacity(cap);
      this.hash, this.loadFactor := hash, loadFactor;
      buckets := new seq<Entry<K, V>>[c](_ => []);
      threshold := Threshold(c, loadFactor);
      size := 0;
      contents := map[];
    }

    /** The place of a key: its bucket, and its position in the chain if it is there. */
    method FindEntry(key: K) returns (b: nat, found: Option<nat>)
      requires Valid()
      ensures b == Slot(hash(key), buckets.Length)
      ensures found.Some? ==> found.value < |buckets[b]| && buckets[b][found.value].key == key
      ensures found.Some? <==> key in contents
    {
      var h := hash(key);
      b := Slot(h, buckets.Length);
      FoundInTable(hash, buckets.Length, buckets[..], contents, key);
      assert Holds(hash, buckets.Length, buckets[..][b], b, contents);
      var i := 0;
      while i < |buckets[b]|
        invariant i <= |buckets[b]|
        invariant forall j :: 0 <= j < i ==> buckets[b][j].key != key
      {
        assert Stands(hash, buckets.Length, buckets[b][i], b, contents);
        if h == buckets[b][i].hash && buckets[b][i].key == key {
          return b, Some(i);
        }
        i := i + 1;
      }
      found := None;
    }

    method Get(key: K) returns (value: Option<V>)
      requires Valid()
      ensures value == if key in contents then Some(contents[key]) else None
    {
      var b, found := FindEntry(key);
      if found.None? {
        return None;
      }
      assert Holds(hash, buckets.Length, buckets[..][b], b, contents);
      assert Stands(hash, buckets.Length, buckets[b][found.value], b, contents);
      value := Some(buckets[b][found.value].value);
    }

    method Erase(key: K)
      requires Valid()
      modifies this`size, this`contents, buckets
      ensures Valid() && contents == old(contents) - {key}
    {
      var b, found := FindEntry(key);
      if found.None? {
        assert contents - {key} == contents;
        return;
      }
      ghost var chains := buckets[..];
      var i := found.value;
      EraseEntry(hash, buckets.Length, chains, contents, b, i);
      buckets[b] := buckets[b][..i] + buckets[b][i + 1..];
      assert buckets[..] == chains[b := chains[b][..i] + chains[b][i + 1..]];
      size := size - 1;
      contents := contents - {key};
      assert old(contents).Keys == contents.Keys + {key};
    }

    method Clear()
      requires Valid()
      modifies this`size, this`contents, buckets
      ensures Valid() && contents == map[]
    {
      for i := 0 to buckets.Length
        invariant forall b :: 0 <= b < i ==> buckets[b] == []
      {
        buckets[i] := [];
      }
      size := 0;
      contents := map[];
    }

    /** Doubles the bucket array and moves every entry, unless the array cannot be doubled. */
    method Grow()
      requires Valid()
      modifies this`buckets, this`threshold
      ensures Valid() && (buckets == old(buckets) || fresh(buckets))
      ensures buckets.Length == old(buckets.Length) * if old(buckets.Length) == LARGEST then 1 else 2
      ensures Roomy(buckets.Length, loadFactor, threshold, size + 1)
    {
      RoomAfterGrowing(buckets.Length, loadFactor, threshold, size);
      var c := TwiceCapacity(buckets.Length);
      if c.None? {
        return;
      }
      buckets := MoveAll(c.value);
      threshold := Threshold(buckets.Length, loadFactor);
    }

    method MoveAll(cap: nat) returns (bigger: array<seq<Entry<K, V>>>)
      requires Table(hash, buckets.Length, buckets[..], contents) && cap > 0
      ensures fresh(bigger) && bigger.Length == cap && Table(hash, cap, bigger[..], contents)
    {
      bigger := new seq<Entry<K, V>>[cap](_ => []);
      ghost var chains, part: map<K, V> := buckets[..], map[];
      PartStart(hash, |chains|, chains, contents);
      var b: nat := 0;
      while b < buckets.Length
        invariant b <= buckets.Length && buckets[..] == chains
        invariant Part(hash, |chains|, chains, contents, b, 0, part)
        invariant Table(hash, cap, bigger[..], part)
      {
        part := MoveChain(b, bigger, part);
        b := b + 1;
      }
      PartEnd(hash, |chains|, chains, contents, part);
    }

    method MoveChain(b: nat, bigger: array<seq<Entry<K, V>>>, ghost part0: map<K, V>) returns (ghost part: map<K, V>)
      requires Table(hash, buckets.Length, buckets[..], contents) && b < buckets.Length && bigger != buckets
      requires Part(hash, buckets.Length, buckets[..], contents, b, 0, part0)
      requires Table(hash, bigger.Length, bigger[..], part0)
      modifies bigger
      ensures Part(hash, buckets.Length, buckets[..], contents, b + 1, 0, part)
      ensures Table(hash, bigger.Length, bigger[..], part)
    {
      part := part0;
      var i: nat := 0;
      ghost var chains := buckets[..];
      while i < |buckets[b]|
        invariant i <= |buckets[b]| && buckets[..] == chains
        invariant Part(hash, |chains|, chains, contents, b, i, part)
        invariant Table(hash, bigger.Length, bigger[..], part)
      {
        part := MoveEntry(chains, b, i, bigger, part);
        i := i + 1;
      }
      PartNext(hash, |chains|, chains, contents, b, part);
    }

    method MoveEntry(ghost chains: seq<seq<Entry<K, V>>>, b: nat, i: nat, bigger: array<seq<Entry<K, V>>>, ghost part0: map<K, V>)
      returns (ghost part: map<K, V>)
      requires buckets[..] == chains && bigger != buckets && b < |chains| && i < |chains[b]|
      requires Table(hash, |chains|, chains, contents) && Part(hash, |chains|, chains, contents, b, i, part0)
      requires Table(hash, bigger.Length, bigger[..], part0)
      modifies bigger
      ensures Part(hash, |chains|, chains, contents, b, i + 1, part)
      ensures Table(hash, bigger.Length, bigger[..], part)
    {
      var e := buckets[b][i];
      PartOne(hash, |chains|, chains, contents, b, i, part0);
      PutNew(hash, bigger.Length, bigger[..], part0, e.key, e.value);
      InsertEntry(bigger, e);
      part := part0[e.key := e.value];
    }

    method InsertEntry(into: array<seq<Entry<K, V>>>, e: Entry<K, V>)
      requires into.Length > 0
      modifies into
      ensures var b := Slot(e.hash, into.Length); into[..] == old(into[..])[b := [e] + old(into[..])[b]]
    {
      var b := Slot(e.hash, into.Length);
      into[b] := [e] + into[b];
    }

    method Put(key: K, value: V)
      requires Valid()
      modifies this, buckets
      ensures Valid() && (buckets == old(buckets) || fresh(buckets))
      ensures contents == old(contents)[key := value]
    {
      var b, found := FindEntry(key);
      if found.Some? {
        ghost var chains := buckets[..];
        var i := found.value;
        PutOld(hash, buckets.Length, chains, contents, b, i, value);
        var e := Entry(buckets[b][i].hash, key, value);
        buckets[b] := buckets[b][i := e];
        assert buckets[..] == chains[b := chains[b][i := e]];
        contents := contents[key := value];
        assert contents.Keys == old(contents).Keys;
        return;
      }
      RoomAfterGrowing(buckets.Length, loadFactor, threshold, size);
      if size >= threshold {
        Grow();
      }
      PutNew(hash, buckets.Length, buckets[..], contents, key, value);
      InsertEntry(buckets, Entry(hash(key), key, value));
      size := size + 1;
      contents := contents[key := value];
      assert contents.Keys == old(contents).Keys + {key};
    }

    /** The first bucket from cur on that is not empty. */
    method NextBucket(cur: nat) returns (it: Iterator)
      ensures match it
              case At(b, i) =>
                && cur <= b < buckets.Length && i == 0 && buckets[b] != []
                && forall c :: cur <= c < b ==> buckets[c] == []
              case End => forall c :: cur <= c < buckets.Length ==> buckets[c] == []
    {
      var b := cur;
      while b < buckets.Length
        invariant cur <= b && forall c :: cur <= c < b && c < buckets.Length ==> buckets[c] == []
      {
        if buckets[b] != [] {
          return At(b, 0);
        }
        b := b + 1;
      }
      it := End;
    }

    /** From the entry that the iterator is at to the next one. */
    method NextEntry(it: Iterator, ghost part: map<K, V>) returns (next: Iterator)
      requires Valid() && it.At? && it.bucket < buckets.Length && it.pos < |buckets[it.bucket]|
      requires Part(hash, buckets.Length, buckets[..], contents, it.bucket, it.pos + 1, part)
      ensures Reached(hash, buckets[..], contents, next, part)
      ensures next.End? || next.bucket > it.bucket || (next.bucket == it.bucket && next.pos == it.pos + 1)
    {
      ghost var chains := buckets[..];
      var b := it.bucket;
      if it.pos + 1 < |buckets[b]| {
        next := At(b, it.pos + 1);
      } else {
        PartNext(hash, |chains|, chains, contents, b, part);
        next := NextBucket(b + 1);
        SkipTo(hash, chains, contents, b + 1, next, part);
      }
    }

    /** A full iteration: each binding once. */
    method VisitAll() returns (visited: seq<(K, V)>)
      requires Valid()
      ensures Lists(visited, contents)
    {
      visited := [];
      ghost var chains, part: map<K, V> := buckets[..], map[];
      PartStart(hash, |chains|, chains, contents);
      var it := NextBucket(0);
      SkipTo(hash, chains, contents, 0, it, part);
      while !it.End?
        invariant Reached(hash, chains, contents, it, part)
        invariant Lists(visited, part)
        decreases it.At?, if it.At? then |chains| - it.bucket else 0, if it.At? then |chains[it.bucket]| - it.pos else 0
      {
        var e := buckets[it.bucket][it.pos];
        PartOne(hash, |chains|, chains, contents, it.bucket, it.pos, part);
        ListsMore(visited, part, e.key, e.value);
        visited := visited + [(e.key, e.value)];
        part := part[e.key := e.value];
        it := NextEntry(it, part);
      }
    }
  }

  /** tmq_map_new_: a load factor out of range gives no map. */
  method NewMap<K(==), V>(hash: K -> nat, cap: nat, loadFactor: nat) returns (m: HashMap?<K, V>)
    requires cap <= LARGEST
    ensures m == null <==> loadFactor < 25 || loadFactor > 95
    ensures m != null ==> fresh(m) && fresh(m.buckets) && m.Valid() && m.contents == map[] && m.hash == hash
  {
    if loadFactor > 95 || loadFactor < 25 {
      return null;
    }
    m := new HashMap(hash, cap, loadFactor);
  }
}
