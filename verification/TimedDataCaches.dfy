/** TimedDataCacheBase: a list in expiry order with a two-level index of nodes into it,
    refining a plain sequence of entries. */
module TimedDataCaches {
  import opened LinkedLists

  datatype CacheEntry<K> = CacheEntry(time: int, keyvalue: K, classid: int) {
    function Pair(): (int, K) {
      (classid, keyvalue)
    }
  }

  // ---- the reference: a plain sequence ----

  /** The entries without the given (class, key) pairs, in their order. */
  ghost function Drop<K(!new)>(s: seq<CacheEntry<K>>, gone: set<(int, K)>): seq<CacheEntry<K>> {
    if s == [] then []
    else (if s[0].Pair() in gone then [] else [s[0]]) + Drop(s[1..], gone)
  }

  /** The entries of other classes, in their order. */
  ghost function OutsideClass<K(!new)>(s: seq<CacheEntry<K>>, classid: int): seq<CacheEntry<K>> {
    if s == [] then []
    else (if s[0].classid == classid then [] else [s[0]]) + OutsideClass(s[1..], classid)
  }

  ghost predicate Holds<K(!new)>(s: seq<CacheEntry<K>>, classid: int, keyvalue: K) {
    exists e :: e in s && e.Pair() == (classid, keyvalue)
  }

  /** What the listener looks at, the first entry, is not in the cache any more. */
  ghost predicate FirstGoes<K(!new)>(before: seq<CacheEntry<K>>, after: seq<CacheEntry<K>>) {
    before != [] && before[0] !in after
  }

  /** The order of the keys of an inner map. */
  ghost predicate StrictOrder<K(!new)>(less: (K, K) -> bool) {
    && (forall a, b :: less(a, b) ==> !less(b, a))
    && (forall a, b, c :: less(a, b) && less(b, c) ==> less(a, c))
    && (forall a, b :: a == b || less(a, b) || less(b, a))
  }

  ghost predicate Ascending<K(!new)>(keys: seq<K>, less: (K, K) -> bool) {
    forall i, j :: 0 <= i < j < |keys| ==> less(keys[i], keys[j])
  }

  ghost predicate IsLeast<K(!new)>(keys: set<K>, k: K, less: (K, K) -> bool) {
    k in keys && forall x :: x in keys ==> x == k || less(k, x)
  }

  /** `keys` are the keys that are not left, in ascending order and below those left. */
  ghost predicate LeastFirst<K(!new)>(all: set<K>, left: set<K>, keys: seq<K>, less: (K, K) -> bool) {
    && Ascending(keys, less)
    && (forall k :: k in all <==> k in left || k in keys)
    && (forall i, k :: 0 <= i < |keys| && k in left ==> less(keys[i], k))
  }

  lemma LeastNext<K(!new)>(all: set<K>, left: set<K>, keys: seq<K>, k: K, less: (K, K) -> bool)
    requires LeastFirst(all, left, keys, less) && IsLeast(left, k, less)
    ensures LeastFirst(all, left - {k}, keys + [k], less)
  {
  }

  lemma {:induction false} LeastExists<K(!new)>(keys: set<K>, less: (K, K) -> bool)
    requires StrictOrder(less) && keys != {}
    ensures exists m :: m in keys && forall k :: k in keys ==> k == m || less(m, k)
    decreases |keys|
  {
    HasMember(keys);
    var x :| x in keys;
    var rest := keys - {x};
    assert forall k :: k in keys ==> k == x || k in rest;
    if rest == {} {
      assert forall k :: k in keys ==> k == x;
    } else {
      LeastExists(rest, less);
      var m :| m in rest && forall k :: k in rest ==> k == m || less(m, k);
      var least := if less(x, m) then x else m;
      assert least in keys && forall k :: k in keys ==> k == least || less(least, k);
    }
  }

  lemma HasMember<K>(keys: set<K>)
    ensures keys == {} || exists k :: k in keys
  {
    if forall k :: k !in keys {
      assert keys == {};
    }
  }

  ghost predicate DistinctPairs<K(!new)>(s: seq<CacheEntry<K>>) {
    forall i, j :: 0 <= i < j < |s| ==> s[i].Pair() != s[j].Pair()
  }

  lemma {:induction false} DropNothing<K(!new)>(s: seq<CacheEntry<K>>, gone: set<(int, K)>)
    requires forall e :: e in s ==> e.Pair() !in gone
    ensures Drop(s, gone) == s
  {
    if s != [] {
      DropNothing(s[1..], gone);
    }
  }

  lemma {:induction false} DropTwice<K(!new)>(s: seq<CacheEntry<K>>, a: set<(int, K)>, b: set<(int, K)>)
    ensures Drop(Drop(s, a), b) == Drop(s, a + b)
  {
    if s != [] {
      DropTwice(s[1..], a, b);
      if s[0].Pair() in a {
        assert [] + Drop(s[1..], a) == Drop(s[1..], a);
      } else {
        assert ([s[0]] + Drop(s[1..], a))[1..] == Drop(s[1..], a);
      }
    }
  }

  lemma {:induction false} DropClass<K(!new)>(s: seq<CacheEntry<K>>, classid: int, gone: set<(int, K)>)
    requires forall e :: e in s ==> (e.Pair() in gone <==> e.classid == classid)
    ensures Drop(s, gone) == OutsideClass(s, classid)
  {
    if s != [] {
      DropClass(s[1..], classid, gone);
    }
  }

  /** Erasing the one entry of a pair is dropping the pair. */
  lemma {:induction false} EraseIsDrop<K(!new)>(s: seq<CacheEntry<K>>, k: nat)
    requires k < |s| && DistinctPairs(s)
    ensures s[..k] + s[k + 1..] == Drop(s, {s[k].Pair()})
  {
    if k == 0 {
      forall e | e in s[1..] ensures e.Pair() !in {s[0].Pair()} {
        var i :| 0 <= i < |s[1..]| && s[1..][i] == e;
        assert s[0].Pair() != s[i + 1].Pair();
      }
      DropNothing(s[1..], {s[0].Pair()});
    } else {
      EraseIsDrop(s[1..], k - 1);
      assert s[..k] + s[k + 1..] == [s[0]] + (s[1..][..k - 1] + s[1..][k..]);
    }
  }

  // ---- the index ----

  type Index<!K> = map<int, map<K, Node<CacheEntry<K>>>>

  ghost function Vals<K>(nodes: seq<Node<CacheEntry<K>>>): seq<CacheEntry<K>> {
    seq(|nodes|, i requires 0 <= i < |nodes| => nodes[i].val)
  }

  /** The index has exactly the nodes of the list, each under its pair, and no empty map. */
  ghost predicate Indexed<K(!new)>(classmap: Index<K>, nodes: seq<Node<CacheEntry<K>>>) {
    && (forall c :: c in classmap ==> classmap[c] != map[])
    && (forall c, k :: c in classmap && k in classmap[c] ==>
          classmap[c][k] in nodes && classmap[c][k].val.Pair() == (c, k))
    && (forall n :: n in nodes ==>
          n.val.classid in classmap && n.val.keyvalue in classmap[n.val.classid] &&
          classmap[n.val.classid][n.val.keyvalue] == n)
  }

  lemma IndexedPairs<K(!new)>(classmap: Index<K>, nodes: seq<Node<CacheEntry<K>>>)
    requires Indexed(classmap, nodes) && Distinct(nodes)
    ensures DistinctPairs(Vals(nodes))
  {
    forall i, j | 0 <= i < j < |nodes| ensures Vals(nodes)[i].Pair() != Vals(nodes)[j].Pair() {
      var x, y := nodes[i].val, nodes[j].val;
      assert classmap[x.classid][x.keyvalue] == nodes[i];
      assert classmap[y.classid][y.keyvalue] == nodes[j];
    }
  }

  ghost function KeysOf<K>(classmap: Index<K>, c: int): set<K> {
    if c in classmap then classmap[c].Keys else {}
  }

  function WithPair<K(!new)>(classmap: Index<K>, n: Node<CacheEntry<K>>): Index<K> {
    var c := n.val.classid;
    var inner: map<K, Node<CacheEntry<K>>> := if c in classmap then classmap[c] else map[];
    classmap[c := inner[n.val.keyvalue := n]]
  }

  /** The pair leaves the index, and its class with the last of its pairs. */
  function WithoutPair<K>(classmap: Index<K>, c: int, k: K): Index<K>
    requires c in classmap
  {
    var rest := classmap[c] - {k};
    if rest == map[] then classmap - {c} else classmap[c := rest]
  }

  lemma WithoutPairKeys<K>(classmap: Index<K>, c: int, k: K)
    requires c in classmap
    ensures var r := WithoutPair(classmap, c, k);
            forall x :: c in r && x in r[c] <==> x in classmap[c] && x != k
  {
    var rest := classmap[c] - {k};
    forall x ensures x in rest <==> x in classmap[c] && x != k {
    }
    if rest == map[] {
      assert forall x :: x !in rest;
    }
  }

  lemma IndexErase<K(!new)>(classmap: Index<K>, nodes: seq<Node<CacheEntry<K>>>, n: Node<CacheEntry<K>>,
                            rest: seq<Node<CacheEntry<K>>>)
    requires Indexed(classmap, nodes) && n in nodes && forall x :: x in rest <==> x in nodes && x != n
    ensures Indexed(WithoutPair(classmap, n.val.classid, n.val.keyvalue), rest)
  {
    var c, k := n.val.classid, n.val.keyvalue;
    var r := WithoutPair(classmap, c, k);
    forall x | x in rest
      ensures x.val.classid in r && x.val.keyvalue in r[x.val.classid] && r[x.val.classid][x.val.keyvalue] == x
    {
      if x.val.classid == c {
        assert x.val.keyvalue != k;
        assert x.val.keyvalue in classmap[c] - {k};
      }
    }
  }

  lemma EraseNodes<V>(nodes: seq<Node<V>>, i: nat)
    requires i < |nodes| && Distinct(nodes)
    ensures forall x :: x in nodes[..i] + nodes[i + 1..] <==> x in nodes && x != nodes[i]
  {
    var r := nodes[..i] + nodes[i + 1..];
    forall x | x in nodes && x != nodes[i] ensures x in r {
      var j :| 0 <= j < |nodes| && nodes[j] == x;
      assert r[if j < i then j else j - 1] == x;
    }
  }

  lemma IndexAppend<K(!new)>(classmap: Index<K>, nodes: seq<Node<CacheEntry<K>>>, n: Node<CacheEntry<K>>)
    requires Indexed(classmap, nodes) && n !in nodes
    requires n.val.classid in classmap ==> n.val.keyvalue !in classmap[n.val.classid]
    ensures Indexed(WithPair(classmap, n), nodes + [n])
  {
    assert n.val.keyvalue in WithPair(classmap, n)[n.val.classid];
  }

  lemma ValsSplice<K(!new)>(nodes: seq<Node<CacheEntry<K>>>, i: nat)
    requires i < |nodes|
    ensures Vals(nodes[..i] + nodes[i + 1..]) == Vals(nodes)[..i] + Vals(nodes)[i + 1..]
  {
    var l, r := Vals(nodes[..i] + nodes[i + 1..]), Vals(nodes)[..i] + Vals(nodes)[i + 1..];
    assert |l| == |r|;
    forall j | 0 <= j < |l| ensures l[j] == r[j] {
      assert l[j] == nodes[if j < i then j else j + 1].val;
    }
  }

  lemma ValsErase<K(!new)>(classmap: Index<K>, nodes: seq<Node<CacheEntry<K>>>, i: nat)
    requires Indexed(classmap, nodes) && i < |nodes| && Distinct(nodes)
    ensures Vals(nodes[..i] + nodes[i + 1..]) == Drop(Vals(nodes), {nodes[i].val.Pair()})
  {
    IndexedPairs(classmap, nodes);
    EraseIsDrop(Vals(nodes), i);
    ValsSplice(nodes, i);
  }

  /** A node that leaves the list and the index takes its pair out of the sequence. */
  lemma NodeLeaves<K(!new)>(classmap: Index<K>, nodes: seq<Node<CacheEntry<K>>>, i: nat, rest: seq<Node<CacheEntry<K>>>)
    requires Indexed(classmap, nodes) && i < |nodes| && Distinct(nodes)
    requires rest == nodes[..i] + nodes[i + 1..]
    ensures nodes[i].val.classid in classmap && |rest| == |nodes| - 1
    ensures Indexed(WithoutPair(classmap, nodes[i].val.classid, nodes[i].val.keyvalue), rest)
    ensures Vals(rest) == Drop(Vals(nodes), {nodes[i].val.Pair()})
  {
    EraseNodes(nodes, i);
    assert nodes[i] in nodes;
    IndexErase(classmap, nodes, nodes[i], rest);
    ValsErase(classmap, nodes, i);
  }

  lemma HoldsIndexed<K(!new)>(classmap: Index<K>, nodes: seq<Node<CacheEntry<K>>>, c: int, k: K)
    requires Indexed(classmap, nodes)
    ensures Holds(Vals(nodes), c, k) <==> c in classmap && k in classmap[c]
  {
    if c in classmap && k in classmap[c] {
      var i :| 0 <= i < |nodes| && nodes[i] == classmap[c][k];
      assert Vals(nodes)[i] == classmap[c][k].val;
    }
    if Holds(Vals(nodes), c, k) {
      var e :| e in Vals(nodes) && e.Pair() == (c, k);
      var i :| 0 <= i < |nodes| && Vals(nodes)[i] == e;
      assert nodes[i] in nodes;
    }
  }

  // ---- the cache ----

  datatype Reply<+K> = Terminated | WaitForEntry | WaitFor(seconds: int) | Expired(classid: int, keyvalue: K)

  class TimedDataCache<K(!new, ==)> {
    const cache: List<CacheEntry<K>>
    var classmap: Index<K>
    var size: int
    var term: bool

    ghost function Contents(): seq<CacheEntry<K>>
      reads cache
    {
      Vals(cache.nodes)
    }

    ghost predicate Valid()
      reads this, cache, cache.Repr
    {
      this !in cache.Repr && cache.Valid() && Indexed(classmap, cache.nodes) && size == |cache.nodes|
    }

    constructor (any: K)
      ensures Valid() && Contents() == [] && !term && fresh(cache.Repr)
    {
      cache := new List(CacheEntry(0, any, 0));
      classmap, size, term := map[], 0, false;
    }

    /** Erases a node from the list and from both levels of the index. */
    method Remove(n: Node<CacheEntry<K>>)
      requires Valid() && n in cache.nodes
      modifies `classmap, `size, cache.Repr
      ensures Valid() && cache.Repr == old(cache.Repr) && size == old(size) - 1
      ensures Contents() == Drop(old(Contents()), {n.val.Pair()})
      ensures classmap == WithoutPair(old(classmap), n.val.classid, n.val.keyvalue)
    {
      ghost var nodes := cache.nodes;
      ghost var i := cache.Erase(n);
      NodeLeaves(classmap, nodes, i, cache.nodes);
      classmap := WithoutPair(classmap, n.val.classid, n.val.keyvalue);
      size := size - 1;
    }

    /** Adds a pair that is not in the cache at the end of the list and to the index. */
    method Append(keyvalue: K, classid: int, now: int)
      requires Valid() && (classid in classmap ==> keyvalue !in classmap[classid])
      modifies `classmap, `size, cache.Repr
      ensures Valid() && fresh(cache.Repr - old(cache.Repr))
      ensures Contents() == old(Contents()) + [CacheEntry(now, keyvalue, classid)]
    {
      ghost var nodes := cache.nodes;
      var n := cache.PushBack(CacheEntry(now, keyvalue, classid));
      IndexAppend(classmap, nodes, n);
      size := size + 1;
      classmap := WithPair(classmap, n);
      assert Vals(nodes + [n]) == Vals(nodes) + [n.val];
    }

    /** A pair that is in the cache moves to the end with a new time. */
    method Refresh(keyvalue: K, classid: int, now: int) returns (signal: bool)
      requires Valid() && classid in classmap && keyvalue in classmap[classid]
      modifies `classmap, `size, cache.Repr
      ensures Valid() && fresh(cache.Repr - old(cache.Repr))
      ensures Contents() == Drop(old(Contents()), {(classid, keyvalue)}) + [CacheEntry(now, keyvalue, classid)]
      ensures old(Contents()) != [] && (signal <==> old(Contents())[0].Pair() == (classid, keyvalue))
    {
      var n := classmap[classid][keyvalue];
      var first := cache.First();
      signal := n == first;
      FirstPair(classmap, cache.nodes, n);
      Remove(n);
      Append(keyvalue, classid, now);
    }

    /** Returns 0 if the pair is stored - at the end, whether it was in the cache or not - and
        -1, with nothing changed, if the cache is full. The listener is signalled exactly if
        the first entry is a different one now. */
    method Set(keyvalue: K, classid: int, now: int, maxSize: int) returns (rc: int, signal: bool)
      requires Valid()
      modifies `classmap, `size, cache.Repr
      ensures Valid() && fresh(cache.Repr - old(cache.Repr))
      ensures rc == if !Holds(old(Contents()), classid, keyvalue) && 0 <= maxSize <= |old(Contents())| then -1 else 0
      ensures rc == -1 ==> Contents() == old(Contents()) && !signal
      ensures rc == 0 ==>
        Contents() == Drop(old(Contents()), {(classid, keyvalue)}) + [CacheEntry(now, keyvalue, classid)]
      ensures rc == 0 ==> (signal <==> old(Contents()) == [] || old(Contents())[0].Pair() == (classid, keyvalue))
    {
      HoldsIndexed(classmap, cache.nodes, classid, keyvalue);
      if classid in classmap && keyvalue in classmap[classid] {
        signal := Refresh(keyvalue, classid, now);
        return 0, signal;
      }
      NotHeld(Contents(), classid, keyvalue);
      if maxSize >= 0 && size >= maxSize {
        return -1, false;
      }
      NoClassNoEntry(classmap, cache.nodes);
      signal := classid !in classmap && size == 0;
      Append(keyvalue, classid, now);
      return 0, signal;
    }

    method DeleteKey(keyvalue: K, classid: int) returns (signal: bool)
      requires Valid()
      modifies `classmap, `size, cache.Repr
      ensures Valid() && fresh(cache.Repr - old(cache.Repr))
      ensures Contents() == Drop(old(Contents()), {(classid, keyvalue)})
      ensures signal <==> old(Contents()) != [] && old(Contents())[0].Pair() == (classid, keyvalue)
    {
      HoldsIndexed(classmap, cache.nodes, classid, keyvalue);
      if classid !in classmap || keyvalue !in classmap[classid] {
        NotHeld(Contents(), classid, keyvalue);
        return false;
      }
      var n := classmap[classid][keyvalue];
      var first := cache.First();
      signal := n == first;
      FirstPair(classmap, cache.nodes, n);
      Remove(n);
    }

    /** Removes the entry of a class with the least key; `first` if it is the first entry of the cache. */
    method PurgeLeast(classid: int, less: (K, K) -> bool) returns (k: K, first: bool)
      requires Valid() && classid in classmap && StrictOrder(less)
      modifies `classmap, `size, cache.Repr
      ensures Valid() && cache.Repr == old(cache.Repr) && size == old(size) - 1
      ensures IsLeast(KeysOf(old(classmap), classid), k, less)
      ensures KeysOf(classmap, classid) == KeysOf(old(classmap), classid) - {k}
      ensures classid in classmap <==> KeysOf(classmap, classid) != {}
      ensures Contents() == Drop(old(Contents()), {(classid, k)})
      ensures old(Contents()) != [] && (first <==> old(Contents())[0].Pair() == (classid, k))
    {
      HasKey(classmap[classid]);
      LeastExists(classmap[classid].Keys, less);
      k :| k in classmap[classid].Keys && forall x :: x in classmap[classid].Keys ==> x == k || less(k, x);
      WithoutPairKeys(classmap, classid, k);
      assert KeysOf(WithoutPair(classmap, classid, k), classid) == KeysOf(classmap, classid) - {k};
      var n := classmap[classid][k];
      var head := cache.First();
      first := n == head;
      FirstPair(classmap, cache.nodes, n);
      Remove(n);
    }

    /** Removes the entries of a class in the order of their keys; `first` if the first entry was among them. */
    method PurgeKeys(classid: int, less: (K, K) -> bool) returns (keys: seq<K>, first: bool)
      requires Valid() && classid in classmap && StrictOrder(less)
      modifies `classmap, `size, cache.Repr
      ensures Valid() && cache.Repr == old(cache.Repr)
      ensures Contents() == Drop(old(Contents()), PairsOf(classid, keys))
      ensures LeastFirst(KeysOf(old(classmap), classid), {}, keys, less)
      ensures old(Contents()) != [] && (first <==> old(Contents())[0].Pair() in PairsOf(classid, keys))
    {
      ghost var before, all := Contents(), KeysOf(classmap, classid);
      NoClassNoEntry(classmap, cache.nodes);
      keys, first := [], false;
      DropNothing(before, PairsOf(classid, keys));
      while classid in classmap
        invariant Valid() && cache.Repr == old(cache.Repr)
        invariant Contents() == Drop(before, PairsOf(classid, keys))
        invariant first <==> before[0].Pair() in PairsOf(classid, keys)
        invariant LeastFirst(all, KeysOf(classmap, classid), keys, less)
        decreases size
      {
        ghost var now, left := Contents(), KeysOf(classmap, classid);
        var k, head := PurgeLeast(classid, less);
        PurgeStep(before, classid, keys, k, now);
        LeastNext(all, left, keys, k, less);
        first := first || head;
        keys := keys + [k];
      }
    }

    /** Removes all entries of a class and returns their keys in ascending order. The code works out whether
        the first entry went, `first`, and signals nobody: `signal`. */
    method PurgeClass(classid: int, less: (K, K) -> bool) returns (keys: seq<K>, first: bool, signal: bool)
      requires Valid() && StrictOrder(less)
      modifies `classmap, `size, cache.Repr
      ensures Valid() && cache.Repr == old(cache.Repr)
      ensures Contents() == OutsideClass(old(Contents()), classid)
      ensures forall k :: k in keys <==> Holds(old(Contents()), classid, k)
      ensures Ascending(keys, less)
      ensures first <==> FirstGoes(old(Contents()), Contents())
      ensures first <==> old(Contents()) != [] && old(Contents())[0].classid == classid
      ensures !signal
    {
      ghost var before := Contents();
      forall k { HoldsIndexed(classmap, cache.nodes, classid, k); }
      PurgedFirst(before, classid);
      if classid !in classmap {
        NoneOfClass(before, classid);
        return [], false, false;
      }
      keys, first := PurgeKeys(classid, less);
      PurgedClass(before, classid, PairsOf(classid, keys));
      signal := false;
    }

    /** One pass of getEvent: the first entry if its delay is over, or how long to wait. */
    method GetEvent(now: int, delay: int) returns (r: Reply<K>)
      requires Valid()
      modifies `classmap, `size, cache.Repr
      ensures Valid() && cache.Repr == old(cache.Repr)
      ensures r.Terminated? <==> term
      ensures r.WaitForEntry? <==> !term && old(Contents()) == []
      ensures r.WaitFor? ==> r.seconds > 0 && now + r.seconds == old(Contents())[0].time + delay
      ensures r.Expired? <==> !term && old(Contents()) != [] && old(Contents())[0].time + delay <= now
      ensures r.Expired? ==> (r.classid, r.keyvalue) == old(Contents())[0].Pair()
      ensures Contents() == if r.Expired? then old(Contents())[1..] else old(Contents())
    {
      if term {
        return Terminated;
      }
      var none := cache.Empty();
      if none {
        return WaitForEntry;
      }
      var n := cache.First();
      var diff := n.val.time + delay - now;
      if diff > 0 {
        return WaitFor(diff);
      }
      ghost var before := Contents();
      IndexedPairs(classmap, cache.nodes);
      EraseIsDrop(before, 0);
      assert before[..0] + before[1..] == before[1..];
      Remove(n);
      return Expired(n.val.classid, n.val.keyvalue);
    }
  }

  lemma NoneOfClass<K(!new)>(s: seq<CacheEntry<K>>, classid: int)
    requires forall k :: !Holds(s, classid, k)
    ensures OutsideClass(s, classid) == s
  {
    forall e | e in s ensures e.classid != classid {
      assert !Holds(s, classid, e.keyvalue);
    }
    DropNothing(s, {});
    DropClass(s, classid, {});
  }

  ghost function PairsOf<K(!new)>(classid: int, keys: seq<K>): set<(int, K)> {
    set k | k in keys :: (classid, k)
  }

  /** One more key goes, and the first entry with it if that is first of what is left. */
  lemma PurgeStep<K(!new)>(s: seq<CacheEntry<K>>, classid: int, keys: seq<K>, k: K, now: seq<CacheEntry<K>>)
    requires s != [] && now == Drop(s, PairsOf(classid, keys)) && now != []
    ensures Drop(now, {(classid, k)}) == Drop(s, PairsOf(classid, keys + [k]))
    ensures s[0].Pair() in PairsOf(classid, keys + [k]) <==>
      s[0].Pair() in PairsOf(classid, keys) || now[0].Pair() == (classid, k)
  {
    DropTwice(s, PairsOf(classid, keys), {(classid, k)});
    assert PairsOf(classid, keys + [k]) == PairsOf(classid, keys) + {(classid, k)};
    if s[0].Pair() !in PairsOf(classid, keys) {
      assert now == [s[0]] + Drop(s[1..], PairsOf(classid, keys));
    } else {
      assert s[0].Pair() in PairsOf(classid, keys + [k]);
    }
  }

  /** Purging a class takes the first entry exactly if that is of the class. */
  lemma PurgedFirst<K(!new)>(s: seq<CacheEntry<K>>, classid: int)
    ensures FirstGoes(s, OutsideClass(s, classid)) <==> s != [] && s[0].classid == classid
  {
    if s != [] {
      var gone := ClassAsPairs(s, classid);
      DropMembers(s, gone);
      assert s[0] in s;
    }
  }

  lemma PurgedClass<K(!new)>(s: seq<CacheEntry<K>>, classid: int, gone: set<(int, K)>)
    requires forall c, k :: (c, k) in gone <==> c == classid && Holds(s, classid, k)
    ensures Drop(s, gone) == OutsideClass(s, classid)
  {
    forall e | e in s ensures e.Pair() in gone <==> e.classid == classid {
      if e.classid == classid {
        assert Holds(s, classid, e.keyvalue);
      }
    }
    DropClass(s, classid, gone);
  }

  lemma NotHeld<K(!new)>(s: seq<CacheEntry<K>>, classid: int, keyvalue: K)
    requires !Holds(s, classid, keyvalue)
    ensures Drop(s, {(classid, keyvalue)}) == s
    ensures s != [] ==> s[0].Pair() != (classid, keyvalue)
  {
    DropNothing(s, {(classid, keyvalue)});
    if s != [] {
      assert s[0] in s;
    }
  }

  lemma FirstPair<K(!new)>(classmap: Index<K>, nodes: seq<Node<CacheEntry<K>>>, n: Node<CacheEntry<K>>)
    requires Indexed(classmap, nodes) && n in nodes
    ensures n == nodes[0] <==> Vals(nodes)[0].Pair() == n.val.Pair()
  {
    assert nodes[0] in nodes;
  }

  /** With no empty map in the index, a known class means that the cache is not empty. */
  lemma NoClassNoEntry<K(!new)>(classmap: Index<K>, nodes: seq<Node<CacheEntry<K>>>)
    requires Indexed(classmap, nodes)
    ensures nodes == [] <==> classmap == map[]
  {
    if nodes == [] {
      forall c ensures c !in classmap {
        if c in classmap {
          HasKey(classmap[c]);
        }
      }
    } else {
      assert nodes[0] in nodes;
    }
  }

  lemma HasKey<K, V>(m: map<K, V>)
    ensures m == map[] || exists k :: k in m
  {
    if forall k :: k !in m {
      assert m == map[];
    }
  }

  // ---- runs of the reference ----

  /** The operations, each with the time it reads from the clock. */
  datatype Op<+K> =
    | Set(keyvalue: K, classid: int, now: int)
    | Delete(keyvalue: K, classid: int, now: int)
    | Purge(classid: int, now: int)
    | Expire(now: int)

  ghost function Step<K(!new)>(s: seq<CacheEntry<K>>, op: Op<K>, maxSize: int, delay: int): seq<CacheEntry<K>> {
    match op
    case Set(k, c, now) =>
      if !Holds(s, c, k) && 0 <= maxSize <= |s| then s else Drop(s, {(c, k)}) + [CacheEntry(now, k, c)]
    case Delete(k, c, _) => Drop(s, {(c, k)})
    case Purge(c, _) => OutsideClass(s, c)
    case Expire(now) => if s != [] && s[0].time + delay <= now then s[1..] else s
  }

  ghost function Exec<K(!new)>(ops: seq<Op<K>>, maxSize: int, delay: int): seq<CacheEntry<K>> {
    if ops == [] then [] else Step(Exec(ops[..|ops| - 1], maxSize, delay), ops[|ops| - 1], maxSize, delay)
  }

  ghost predicate Clocked<K(!new)>(ops: seq<Op<K>>) {
    forall i, j :: 0 <= i < j < |ops| ==> ops[i].now <= ops[j].now
  }

  ghost predicate ByTime<K(!new)>(s: seq<CacheEntry<K>>) {
    forall i, j :: 0 <= i < j < |s| ==> s[i].time <= s[j].time
  }

  /** `n` is the last time that the entry's pair was set, and the entry has that time. */
  ghost predicate LastSetAt<K(!new)>(ops: seq<Op<K>>, n: nat, e: CacheEntry<K>) {
    && n < |ops| && ops[n] == Set(e.keyvalue, e.classid, e.time)
    && (forall m :: n < m < |ops| ==> !(ops[m].Set? && (ops[m].classid, ops[m].keyvalue) == e.Pair()))
  }

  lemma {:induction false} DropMembers<K(!new)>(s: seq<CacheEntry<K>>, gone: set<(int, K)>)
    ensures forall e :: e in Drop(s, gone) <==> e in s && e.Pair() !in gone
    ensures |Drop(s, gone)| <= |s|
    ensures (exists e :: e in s && e.Pair() in gone) ==> |Drop(s, gone)| < |s|
  {
    if s != [] {
      DropMembers(s[1..], gone);
      assert s == [s[0]] + s[1..];
    }
  }

  lemma {:induction false} DropByTime<K(!new)>(s: seq<CacheEntry<K>>, gone: set<(int, K)>)
    requires ByTime(s)
    ensures ByTime(Drop(s, gone))
  {
    if s != [] {
      DropByTime(s[1..], gone);
      DropMembers(s[1..], gone);
      var r := Drop(s[1..], gone);
      forall j | 0 <= j < |r| ensures s[0].time <= r[j].time {
        assert r[j] in s[1..];
      }
    }
  }

  lemma {:induction false} DropDistinct<K(!new)>(s: seq<CacheEntry<K>>, gone: set<(int, K)>)
    requires DistinctPairs(s)
    ensures DistinctPairs(Drop(s, gone))
  {
    if s != [] {
      DropDistinct(s[1..], gone);
      DropMembers(s[1..], gone);
      var r := Drop(s[1..], gone);
      forall j | 0 <= j < |r| ensures s[0].Pair() != r[j].Pair() {
        assert r[j] in s[1..];
      }
    }
  }

  lemma ClassAsPairs<K(!new)>(s: seq<CacheEntry<K>>, classid: int) returns (gone: set<(int, K)>)
    ensures OutsideClass(s, classid) == Drop(s, gone)
    ensures forall e :: e in s ==> (e.Pair() in gone <==> e.classid == classid)
  {
    gone := set e | e in s && e.classid == classid :: e.Pair();
    DropClass(s, classid, gone);
  }

  /** Sorted by time, pairs distinct, nothing from the future. */
  ghost predicate InOrder<K(!new)>(s: seq<CacheEntry<K>>, now: int) {
    ByTime(s) && DistinctPairs(s) && forall e :: e in s ==> e.time <= now
  }

  lemma DropInOrder<K(!new)>(s: seq<CacheEntry<K>>, gone: set<(int, K)>, now: int)
    requires InOrder(s, now)
    ensures InOrder(Drop(s, gone), now)
  {
    DropMembers(s, gone);
    DropByTime(s, gone);
    DropDistinct(s, gone);
  }

  lemma AppendInOrder<K(!new)>(s: seq<CacheEntry<K>>, e: CacheEntry<K>, now: int)
    requires InOrder(s, now) && e.time == now && forall x :: x in s ==> x.Pair() != e.Pair()
    ensures InOrder(s + [e], now)
  {
    var r := s + [e];
    forall i, j | 0 <= i < j < |r| ensures r[i].time <= r[j].time && r[i].Pair() != r[j].Pair() {
      assert r[i] in s;
    }
  }

  lemma StepInOrder<K(!new)>(s: seq<CacheEntry<K>>, op: Op<K>, maxSize: int, delay: int)
    requires InOrder(s, op.now)
    ensures InOrder(Step(s, op, maxSize, delay), op.now)
    ensures |s| <= maxSize ==> |Step(s, op, maxSize, delay)| <= maxSize
  {
    match op
    case Set(k, c, now) =>
      DropInOrder(s, {(c, k)}, now);
      DropMembers(s, {(c, k)});
      AppendInOrder(Drop(s, {(c, k)}), CacheEntry(now, k, c), now);
    case Delete(k, c, now) =>
      DropInOrder(s, {(c, k)}, now);
      DropMembers(s, {(c, k)});
    case Purge(c, now) =>
      var gone := ClassAsPairs(s, c);
      DropInOrder(s, gone, now);
      DropMembers(s, gone);
    case Expire(now) =>
  }

  /** Under a clock that does not run backwards the cache stays sorted by time with distinct
      pairs, and a non-negative maximum is never exceeded. */
  lemma {:induction false} RunInOrder<K(!new)>(ops: seq<Op<K>>, maxSize: int, delay: int)
    requires Clocked(ops)
    ensures ops == [] ==> Exec(ops, maxSize, delay) == []
    ensures ops != [] ==> InOrder(Exec(ops, maxSize, delay), ops[|ops| - 1].now)
    ensures 0 <= maxSize ==> |Exec(ops, maxSize, delay)| <= maxSize
  {
    if ops != [] {
      var prior, op := ops[..|ops| - 1], ops[|ops| - 1];
      RunInOrder(prior, maxSize, delay);
      assert prior != [] ==> prior[|prior| - 1].now <= op.now;
      StepInOrder(Exec(prior, maxSize, delay), op, maxSize, delay);
    }
  }

  lemma StepMembers<K(!new)>(s: seq<CacheEntry<K>>, op: Op<K>, maxSize: int, delay: int, e: CacheEntry<K>)
    requires e in Step(s, op, maxSize, delay)
    ensures e in s || (op.Set? && e == CacheEntry(op.now, op.keyvalue, op.classid))
    ensures op.Set? && (op.classid, op.keyvalue) == e.Pair() ==> e == CacheEntry(op.now, op.keyvalue, op.classid)
  {
    match op
    case Set(k, c, now) =>
      DropMembers(s, {(c, k)});
      if !Holds(s, c, k) && e in s {
        assert e.Pair() != (c, k);
      }
    case Delete(k, c, _) => DropMembers(s, {(c, k)});
    case Purge(c, _) =>
      var gone := ClassAsPairs(s, c);
      DropMembers(s, gone);
    case Expire(_) =>
  }

  /** A run in which purging takes the first entry, so that the listener ought to be signalled. */
  lemma PurgeTakesFirst<K(!new)>(k: K, c: int, now: int, later: int, maxSize: int, delay: int)
    requires maxSize != 0
    ensures var s := Exec([Op.Set(k, c, now)], maxSize, delay);
            && s == [CacheEntry(now, k, c)]
            && FirstGoes(s, Exec([Op.Set(k, c, now), Op.Purge(c, later)], maxSize, delay))
  {
    var ops := [Op.Set(k, c, now), Op.Purge(c, later)];
    assert ops[..1] == [Op.Set(k, c, now)] && ops[..1][..0] == [];
    var s: seq<CacheEntry<K>> := [];
    assert Exec(ops[..1], maxSize, delay) == Step(s, ops[0], maxSize, delay);
    PurgedFirst(Exec(ops[..1], maxSize, delay), c);
  }

  /** Every entry in the cache dates from the last time its pair was set. */
  lemma {:induction false} EntriesDateFromLastSet<K(!new)>(ops: seq<Op<K>>, maxSize: int, delay: int, e: CacheEntry<K>)
    returns (n: nat)
    requires e in Exec(ops, maxSize, delay)
    ensures LastSetAt(ops, n, e)
  {
    var prior, op := ops[..|ops| - 1], ops[|ops| - 1];
    StepMembers(Exec(prior, maxSize, delay), op, maxSize, delay, e);
    if op.Set? && e == CacheEntry(op.now, op.keyvalue, op.classid) {
      n := |ops| - 1;
    } else {
      n := EntriesDateFromLastSet(prior, maxSize, delay, e);
      assert forall m :: 0 <= m < |prior| ==> ops[m] == prior[m];
    }
  }

  /** The operation takes the pair of an entry out, or sets it again. */
  ghost predicate Touches<K(!new)>(s: seq<CacheEntry<K>>, op: Op<K>, e: CacheEntry<K>, delay: int) {
    match op
    case Set(k, c, _) => (c, k) == (e.classid, e.keyvalue)
    case Delete(k, c, _) => (c, k) == (e.classid, e.keyvalue)
    case Purge(c, _) => c == e.classid
    case Expire(now) => s != [] && s[0] == e && e.time + delay <= now
  }

  lemma StepLeaves<K(!new)>(s: seq<CacheEntry<K>>, op: Op<K>, maxSize: int, delay: int, e: CacheEntry<K>)
    requires e in s && !Touches(s, op, e, delay)
    ensures e in Step(s, op, maxSize, delay)
  {
    match op
    case Set(k, c, _) => DropMembers(s, {(c, k)});
    case Delete(k, c, _) => DropMembers(s, {(c, k)});
    case Purge(c, _) =>
      var gone := ClassAsPairs(s, c);
      DropMembers(s, gone);
    case Expire(_) =>
  }

  /** What is set, unless the cache is full, stays until it is set again, deleted, purged or returned. */
  lemma {:induction false} NothingForgotten<K(!new)>(ops: seq<Op<K>>, n: nat, maxSize: int, delay: int)
    requires n < |ops| && ops[n].Set?
    requires var s := Exec(ops[..n], maxSize, delay);
             || maxSize < 0 || |s| < maxSize
             || exists e :: e in s && (e.classid, e.keyvalue) == (ops[n].classid, ops[n].keyvalue)
    requires forall m :: n < m < |ops| ==>
      !Touches(Exec(ops[..m], maxSize, delay), ops[m], CacheEntry(ops[n].now, ops[n].keyvalue, ops[n].classid), delay)
    ensures CacheEntry(ops[n].now, ops[n].keyvalue, ops[n].classid) in Exec(ops, maxSize, delay)
  {
    var last := |ops| - 1;
    var e := CacheEntry(ops[n].now, ops[n].keyvalue, ops[n].classid);
    if n < last {
      var prior := ops[..last];
      assert prior[..n] == ops[..n];
      forall m | n < m < |prior| ensures !Touches(Exec(prior[..m], maxSize, delay), prior[m], e, delay) {
        assert prior[..m] == ops[..m];
      }
      NothingForgotten(prior, n, maxSize, delay);
      StepLeaves(Exec(prior, maxSize, delay), ops[last], maxSize, delay, e);
    }
  }

  /** What getEvent may return after a run: the pair whose last set is over by the delay,
      and no pair in the cache was set last before it. */
  lemma ExpiresOldestDue<K(!new)>(ops: seq<Op<K>>, maxSize: int, delay: int, now: int)
    requires Clocked(ops) && Exec(ops, maxSize, delay) != []
    requires Step(Exec(ops, maxSize, delay), Op<K>.Expire(now), maxSize, delay) != Exec(ops, maxSize, delay)
    ensures exists n: nat :: LastSetAt(ops, n, Exec(ops, maxSize, delay)[0]) && ops[n].now + delay <= now
    ensures forall e, n: nat :: e in Exec(ops, maxSize, delay) && LastSetAt(ops, n, e) ==>
      Exec(ops, maxSize, delay)[0].time <= ops[n].now
    ensures Step(Exec(ops, maxSize, delay), Op<K>.Expire(now), maxSize, delay) == Exec(ops, maxSize, delay)[1..]
  {
    var s := Exec(ops, maxSize, delay);
    var n := EntriesDateFromLastSet(ops, maxSize, delay, s[0]);
    RunInOrder(ops, maxSize, delay);
    forall e | e in s ensures s[0].time <= e.time {
      var i :| 0 <= i < |s| && s[i] == e;
    }
  }
}
