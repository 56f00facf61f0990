/** The order that std::multimap gives its entries: ascending by key, and a new
    entry goes behind every entry that already has the same key. */
module Multimap {

  datatype Slot<+V> = Slot(key: int, val: V)

  ghost predicate Sorted<V>(m: seq<Slot<V>>) {
    forall i, j :: 0 <= i < j < |m| ==> m[i].key <= m[j].key
  }

  /** The position of the first slot whose key is greater than `key`. */
  function UpperBound<V>(m: seq<Slot<V>>, key: int): (u: nat)
    ensures u <= |m|
    ensures forall i :: 0 <= i < u ==> m[i].key <= key
    ensures u < |m| ==> key < m[u].key
  {
    if m == [] || key < m[0].key then 0 else 1 + UpperBound(m[1..], key)
  }

  function Insert<V>(m: seq<Slot<V>>, key: int, val: V): seq<Slot<V>> {
    var u := UpperBound(m, key);
    m[..u] + [Slot(key, val)] + m[u..]
  }

  function Erase<V>(m: seq<Slot<V>>, i: nat): seq<Slot<V>>
    requires i < |m|
  {
    m[..i] + m[i + 1..]
  }

  /** The values stored under `key`, in order. */
  ghost function Lane<V>(m: seq<Slot<V>>, key: int): seq<V> {
    if m == [] then []
    else (if m[0].key == key then [m[0].val] else []) + Lane(m[1..], key)
  }

  lemma {:induction false} LaneAbsent<V>(m: seq<Slot<V>>, key: int)
    requires forall i :: 0 <= i < |m| ==> m[i].key != key
    ensures Lane(m, key) == []
  {
    if m != [] {
      LaneAbsent(m[1..], key);
    }
  }

  lemma InsertMembers<V>(m: seq<Slot<V>>, key: int, val: V)
    ensures |Insert(m, key, val)| == |m| + 1
    ensures forall s :: s in Insert(m, key, val) <==> s in m || s == Slot(key, val)
  {
    var u := UpperBound(m, key);
    assert m == m[..u] + m[u..];
  }

  lemma InsertSorted<V>(m: seq<Slot<V>>, key: int, val: V)
    requires Sorted(m)
    ensures Sorted(Insert(m, key, val))
  {
    var u := UpperBound(m, key);
    var r := Insert(m, key, val);
    forall i, j | 0 <= i < j < |r| ensures r[i].key <= r[j].key {
      assert r[i] == if i < u then m[i] else if i == u then Slot(key, val) else m[i - 1];
      assert r[j] == if j < u then m[j] else if j == u then Slot(key, val) else m[j - 1];
      if i == u && u < j {
        assert m[u].key <= m[j - 1].key;
      }
    }
  }

  lemma InsertStep<V>(m: seq<Slot<V>>, key: int, val: V)
    ensures Insert(m, key, val) ==
            if m == [] || key < m[0].key then [Slot(key, val)] + m else [m[0]] + Insert(m[1..], key, val)
  {
    if m != [] && m[0].key <= key {
      var u := UpperBound(m[1..], key);
      assert m[..u + 1] == [m[0]] + m[1..][..u];
      assert m[u + 1..] == m[1..][u..];
    }
  }

  lemma LaneStep<V>(s: Slot<V>, m: seq<Slot<V>>, key: int)
    ensures Lane([s] + m, key) == (if s.key == key then [s.val] else []) + Lane(m, key)
  {
    assert ([s] + m)[1..] == m;
  }

  /** Insertion is first-in first-out among equal keys and moves nothing else. */
  lemma {:induction false} InsertStable<V>(m: seq<Slot<V>>, key: int, val: V, k: int)
    requires Sorted(m)
    ensures Lane(Insert(m, key, val), k) == Lane(m, k) + if k == key then [val] else []
  {
    InsertStep(m, key, val);
    if m == [] || key < m[0].key {
      LaneStep(Slot(key, val), m, k);
      if k == key {
        LaneAbsent(m, k);
      }
    } else {
      LaneStep(m[0], Insert(m[1..], key, val), k);
      InsertStable(m[1..], key, val, k);
    }
  }
}
