/** A backend queue as a value: the multimaps per priority, the lookup map into
    them and the heap of entries both point to. */
module BackendQueues {
  import opened Orders
  import opened Multimap
  import opened SegmentMap

  /** Which lookup map an entry is filed under: subworkflow queues keep one per status. */
  datatype Tag = Single | Complete | Error

  datatype Key = Key(wfiid: int, tag: Tag)

  /** What is kept per step index; only asynchronous entries carry data. */
  datatype Item = Bare | Async(queuekey: string, data: string, corrected: bool)

  datatype Entry = Entry(key: Key, prio: int, mod: int, swfiid: int, parent: ParentInfo, inds: map<int, Item>)

  /** History of a queue: what was submitted and what was handed out. */
  datatype Op = Submit(key: Key, ind: int, item: Item) | Deliver(key: Key, inds: map<int, Item>)

  /** `entries` is the heap of entries by node number, numbered in arrival order;
      the multimaps in `sub` and the lookup map `wfmap` hold node numbers. */
  datatype Queue = Queue(
    entries: map<nat, Entry>,
    sub: map<int, seq<Slot<nat>>>,
    wfmap: map<Key, nat>,
    next: nat,
    log: seq<Op>)

  const EMPTY: Queue := Queue(map[], map[], map[], 0, [])

  // ---- operations ----

  function Lanes(q: Queue, prio: int): seq<Slot<nat>> {
    if prio in q.sub then q.sub[prio] else []
  }

  /** The key is queued: the step index joins its entry unless it is there already. */
  function Coalesce(q: Queue, key: Key, ind: int, item: Item): Queue
    requires key in q.wfmap && q.wfmap[key] in q.entries
  {
    var id := q.wfmap[key];
    var e := q.entries[id];
    q.(entries := if ind in e.inds then q.entries else q.entries[id := e.(inds := e.inds[ind := item])],
       log := q.log + [Submit(key, ind, item)])
  }

  /** The key is not queued: a new entry goes into the multimap of its priority. */
  function Open(q: Queue, key: Key, ind: int, item: Item, prio: int, mod: int, swfiid: int, parent: ParentInfo): Queue {
    Queue(
      q.entries[q.next := Entry(key, prio, mod, swfiid, parent, map[ind := item])],
      q.sub[prio := Insert(Lanes(q, prio), mod, q.next)],
      q.wfmap[key := q.next],
      q.next + 1,
      q.log + [Submit(key, ind, item)])
  }

  /** add_event, add_async_event and add_subworkflow_event. */
  function Add(q: Queue, key: Key, ind: int, item: Item, prio: int, mod: int, swfiid: int, parent: ParentInfo): Queue {
    if key in q.wfmap && q.wfmap[key] in q.entries then Coalesce(q, key, ind, item)
    else Open(q, key, ind, item, prio, mod, swfiid, parent)
  }

  /** Removes the entry in position `i` of the multimap of `prio`. */
  function Take(q: Queue, prio: int, i: nat): Queue
    requires prio in q.sub && i < |q.sub[prio]| && q.sub[prio][i].val in q.entries
  {
    var id := q.sub[prio][i].val;
    var rest := Erase(q.sub[prio], i);
    var key := q.entries[id].key;
    Queue(
      q.entries - {id},
      if rest == [] then q.sub - {prio} else q.sub[prio := rest],
      q.wfmap - {key},
      q.next,
      q.log + [Deliver(key, q.entries[id].inds)])
  }

  // ---- agreement of multimaps, heap and lookup map ----

  predicate Before(a: Slot<nat>, b: Slot<nat>) {
    a.key < b.key || (a.key == b.key && a.val < b.val)
  }

  ghost predicate Strict(m: seq<Slot<nat>>) {
    forall i, j :: 0 <= i < j < |m| ==> Before(m[i], m[j])
  }

  /** No priority is left with an empty multimap; each multimap is in strict
      (modified time, arrival) order, so no node is in it twice. */
  ghost predicate Ordered(q: Queue) {
    && (forall p :: p in q.sub ==> q.sub[p] != [])
    && (forall p :: p in q.sub ==> Strict(q.sub[p]))
  }

  /** Slots and heap entries match one to one. */
  ghost predicate Slotted(q: Queue) {
    && (forall p, i :: p in q.sub && 0 <= i < |q.sub[p]| ==>
          var s := q.sub[p][i];
          s.val in q.entries && q.entries[s.val].prio == p && q.entries[s.val].mod == s.key)
    && (forall id :: id in q.entries ==>
          q.entries[id].prio in q.sub && Slot(q.entries[id].mod, id) in q.sub[q.entries[id].prio])
    && (forall id :: id in q.entries ==> id < q.next)
  }

  /** The lookup map is the inverse of the entries' keys: one entry per key. */
  ghost predicate Indexed(q: Queue) {
    && (forall k :: k in q.wfmap ==> q.wfmap[k] in q.entries && q.entries[q.wfmap[k]].key == k)
    && (forall id :: id in q.entries ==> q.entries[id].key in q.wfmap && q.wfmap[q.entries[id].key] == id)
  }

  function Update(m: map<int, Item>, key: Key, op: Op): map<int, Item> {
    match op
    case Submit(k, ind, item) => if k == key && ind !in m then m[ind := item] else m
    case Deliver(k, _) => if k == key then map[] else m
  }

  /** What was submitted for `key` since its last delivery, first submission winning. */
  function Pending(log: seq<Op>, key: Key): map<int, Item> {
    if log == [] then map[] else Update(Pending(log[..|log| - 1], key), key, log[|log| - 1])
  }

  function Carried(q: Queue, key: Key): map<int, Item> {
    if key in q.wfmap && q.wfmap[key] in q.entries then q.entries[q.wfmap[key]].inds else map[]
  }

  /** Every delivery in the history carried what was pending at its time. */
  ghost predicate Honest(log: seq<Op>) {
    forall n :: 0 <= n < |log| && log[n].Deliver? ==> log[n].inds == Pending(log[..n], log[n].key)
  }

  /** Queued entries carry exactly what is pending. */
  ghost predicate Faithful(q: Queue) {
    && (forall k :: Carried(q, k) == Pending(q.log, k))
    && Honest(q.log)
  }

  ghost predicate Agrees(q: Queue) {
    Ordered(q) && Slotted(q) && Indexed(q) && Faithful(q)
  }

  lemma PendingAppend(log: seq<Op>, op: Op, key: Key)
    ensures Pending(log + [op], key) == Update(Pending(log, key), key, op)
  {
    assert (log + [op])[..|log + [op]| - 1] == log;
  }

  lemma HonestAppend(log: seq<Op>, op: Op)
    requires Honest(log)
    requires op.Deliver? ==> op.inds == Pending(log, op.key)
    ensures Honest(log + [op])
  {
    var r := log + [op];
    forall n | 0 <= n < |r| && r[n].Deliver? ensures r[n].inds == Pending(r[..n], r[n].key) {
      assert r[..n] == log[..n];
      assert log[..|log|] == log;
    }
  }

  lemma CoalesceKeeps(q: Queue, key: Key, ind: int, item: Item)
    requires Agrees(q) && key in q.wfmap
    ensures Agrees(Coalesce(q, key, ind, item))
  {
    var r := Coalesce(q, key, ind, item);
    HonestAppend(q.log, Submit(key, ind, item));
    forall k ensures Carried(r, k) == Pending(r.log, k) {
      PendingAppend(q.log, Submit(key, ind, item), k);
      assert Carried(q, k) == Pending(q.log, k);
    }
  }

  lemma StrictInsert(m: seq<Slot<nat>>, key: int, val: nat)
    requires Strict(m) && forall i :: 0 <= i < |m| ==> m[i].val < val
    ensures Strict(Insert(m, key, val))
  {
    var r := Insert(m, key, val);
    var u := UpperBound(m, key);
    forall i, j | 0 <= i < j < |r| ensures Before(r[i], r[j]) {
      assert r[i] == if i < u then m[i] else if i == u then Slot(key, val) else m[i - 1];
      assert r[j] == if j < u then m[j] else if j == u then Slot(key, val) else m[j - 1];
      if i == u {
        assert j - 1 == u || Before(m[u], m[j - 1]);
      }
    }
  }

  lemma StrictErase(m: seq<Slot<nat>>, i: nat)
    requires Strict(m) && i < |m|
    ensures Strict(Erase(m, i))
    ensures forall s :: s in Erase(m, i) <==> s in m && s != m[i]
    ensures forall s :: s in Erase(m, i) ==> s.val != m[i].val || s.key != m[i].key
  {
    var r := Erase(m, i);
    assert forall j :: 0 <= j < |r| ==> r[j] == if j < i then m[j] else m[j + 1];
    forall s | s in m && s != m[i] ensures s in r {
      var j :| 0 <= j < |m| && m[j] == s;
      assert r[if j < i then j else j - 1] == s;
    }
    forall s | s in r ensures s in m && s != m[i] {
      var j :| 0 <= j < |r| && r[j] == s;
      assert if j < i then Before(m[j], m[i]) else Before(m[i], m[j + 1]);
    }
  }

  lemma OpenSlotted(q: Queue, key: Key, ind: int, item: Item, prio: int, mod: int, swfiid: int, parent: ParentInfo)
    requires Slotted(q)
    ensures Slotted(Open(q, key, ind, item, prio, mod, swfiid, parent))
  {
    var r := Open(q, key, ind, item, prio, mod, swfiid, parent);
    var m := Lanes(q, prio);
    InsertMembers(m, mod, q.next);
    forall i | 0 <= i < |r.sub[prio]|
      ensures r.sub[prio][i] in m || r.sub[prio][i] == Slot(mod, q.next)
    {
      assert r.sub[prio][i] in Insert(m, mod, q.next);
    }
    assert Slot(mod, q.next) in r.sub[prio];
  }

  lemma OpenCarries(q: Queue, key: Key, ind: int, item: Item, prio: int, mod: int, swfiid: int, parent: ParentInfo,
                    k: Key)
    requires Slotted(q) && Indexed(q) && key !in q.wfmap
    ensures Carried(Open(q, key, ind, item, prio, mod, swfiid, parent), k) ==
            Update(Carried(q, k), k, Submit(key, ind, item))
  {
    var r := Open(q, key, ind, item, prio, mod, swfiid, parent);
    if k == key {
      assert r.wfmap[k] == q.next;
    } else if k in q.wfmap {
      assert r.wfmap[k] == q.wfmap[k] != q.next;
    }
  }

  lemma OpenKeeps(q: Queue, key: Key, ind: int, item: Item, prio: int, mod: int, swfiid: int, parent: ParentInfo)
    requires Agrees(q) && key !in q.wfmap
    ensures Agrees(Open(q, key, ind, item, prio, mod, swfiid, parent))
  {
    var r := Open(q, key, ind, item, prio, mod, swfiid, parent);
    assert Ordered(r) by {
      forall i | 0 <= i < |Lanes(q, prio)| ensures Lanes(q, prio)[i].val < q.next {
        assert q.sub[prio][i].val in q.entries;
      }
      StrictInsert(Lanes(q, prio), mod, q.next);
    }
    assert Indexed(r) by {
      assert q.next !in q.entries;
    }
    OpenSlotted(q, key, ind, item, prio, mod, swfiid, parent);
    HonestAppend(q.log, Submit(key, ind, item));
    forall k ensures Carried(r, k) == Pending(r.log, k) {
      OpenCarries(q, key, ind, item, prio, mod, swfiid, parent, k);
      PendingAppend(q.log, Submit(key, ind, item), k);
      assert Carried(q, k) == Pending(q.log, k);
    }
  }

  /** An addition either opens the entry of a new key behind its equals, or coalesces
      into the queued one; either way everything stays in agreement. */
  lemma AddKeeps(q: Queue, key: Key, ind: int, item: Item, prio: int, mod: int, swfiid: int, parent: ParentInfo)
    requires Agrees(q)
    ensures Agrees(Add(q, key, ind, item, prio, mod, swfiid, parent))
  {
    if key in q.wfmap {
      CoalesceKeeps(q, key, ind, item);
    } else {
      OpenKeeps(q, key, ind, item, prio, mod, swfiid, parent);
    }
  }

  lemma TakeOrdered(q: Queue, prio: int, i: nat)
    requires Ordered(q) && Slotted(q) && prio in q.sub && i < |q.sub[prio]|
    ensures Ordered(Take(q, prio, i))
  {
    StrictErase(q.sub[prio], i);
  }

  lemma TakeSlotted(q: Queue, prio: int, i: nat)
    requires Ordered(q) && Slotted(q) && prio in q.sub && i < |q.sub[prio]|
    ensures Slotted(Take(q, prio, i))
  {
    var r := Take(q, prio, i);
    var taken := q.sub[prio][i];
    StrictErase(q.sub[prio], i);
    forall p, j | p in r.sub && 0 <= j < |r.sub[p]|
      ensures var s := r.sub[p][j]; s.val in r.entries && r.entries[s.val].prio == p && r.entries[s.val].mod == s.key
    {
      var s := r.sub[p][j];
      if p == prio {
        assert s in Erase(q.sub[prio], i);
        var k :| 0 <= k < |q.sub[prio]| && q.sub[prio][k] == s;
      } else {
        assert q.sub[p][j] == s;
      }
    }
  }

  /** Taking an entry keeps the agreement, and what it hands out is exactly what was
      pending for its key. */
  lemma TakeKeeps(q: Queue, prio: int, i: nat)
    requires Agrees(q) && prio in q.sub && i < |q.sub[prio]|
    ensures Agrees(Take(q, prio, i))
    ensures var e := q.entries[q.sub[prio][i].val]; e.inds == Pending(q.log, e.key) && e.key !in Take(q, prio, i).wfmap
  {
    var r := Take(q, prio, i);
    TakeOrdered(q, prio, i);
    TakeSlotted(q, prio, i);
    var e := q.entries[q.sub[prio][i].val];
    assert Carried(q, e.key) == Pending(q.log, e.key);
    HonestAppend(q.log, Deliver(e.key, e.inds));
    forall k ensures Carried(r, k) == Pending(r.log, k) {
      PendingAppend(q.log, Deliver(e.key, e.inds), k);
      assert Carried(q, k) == Pending(q.log, k);
    }
  }

  // ---- selection ----

  /** A position in the multimap of a priority. */
  datatype Pos = Pos(prio: int, i: nat)

  /** The entries of orders that no retry is running for. */
  function Takeable(q: Queue, segs: map<int, int>): set<nat> {
    set id | id in q.entries && !InRetry(segs, q.entries[id].key.wfiid)
  }

  ghost predicate ValidPos(q: Queue, pos: Pos) {
    pos.prio in q.sub && pos.i < |q.sub[pos.prio]|
  }

  /** (priority, modified time, arrival) order of entries. */
  ghost predicate NoLater(q: Queue, a: nat, b: nat)
    requires a in q.entries && b in q.entries
  {
    var x, y := q.entries[a], q.entries[b];
    x.prio < y.prio || (x.prio == y.prio && (x.mod < y.mod || (x.mod == y.mod && a <= b)))
  }

  /** `pos` holds the first entry in that order that can be taken. */
  ghost predicate IsChoice(q: Queue, segs: map<int, int>, pos: Pos) {
    && ValidPos(q, pos)
    && var id := q.sub[pos.prio][pos.i].val;
       && id in Takeable(q, segs)
       && (forall x :: x in Takeable(q, segs) ==> NoLater(q, id, x))
  }

  ghost predicate IsOutcome(q: Queue, segs: map<int, int>, found: Option<Pos>) {
    match found
    case None => Takeable(q, segs) == {}
    case Some(pos) => IsChoice(q, segs, pos)
  }

  /** The order is total, so the selection leaves no freedom. */
  lemma OutcomeUnique(q: Queue, segs: map<int, int>, a: Option<Pos>, b: Option<Pos>)
    requires Ordered(q) && Slotted(q) && IsOutcome(q, segs, a) && IsOutcome(q, segs, b)
    ensures a == b
  {
    if a.Some? && b.Some? {
      var x, y := a.value, b.value;
      assert q.sub[x.prio][x.i].val == q.sub[y.prio][y.i].val;
      var m := q.sub[x.prio];
      assert m[x.i] == m[y.i];
      assert forall i, j :: 0 <= i < j < |m| ==> m[i] != m[j];
    }
  }

  // ---- searching by order ----

  /** The slots with a key, or the others, in order. */
  function WithKey(m: seq<Slot<nat>>, key: int, keep: bool): seq<Slot<nat>> {
    if m == [] then []
    else (if (m[0].key == key) == keep then [m[0]] else []) + WithKey(m[1..], key, keep)
  }

  lemma {:induction false} WithKeyMembers(m: seq<Slot<nat>>, key: int, keep: bool)
    ensures forall s :: s in WithKey(m, key, keep) <==> s in m && (s.key == key) == keep
  {
    if m != [] {
      WithKeyMembers(m[1..], key, keep);
    }
  }

  lemma {:induction false} WithoutKeySame(m: seq<Slot<nat>>, key: int)
    requires forall i :: 0 <= i < |m| ==> m[i].key != key
    ensures WithKey(m, key, false) == m
  {
    if m != [] {
      WithoutKeySame(m[1..], key);
    }
  }

  /** The backend half of removeWorkflowOrder erases by the order's id from a multimap whose keys are
      modified times. */
  function EraseOrder(q: Queue, prio: int, wfiid: int): Queue {
    if prio in q.sub then q.(sub := q.sub[prio := WithKey(q.sub[prio], wfiid, false)]) else q
  }

  /** So it finds what was modified at the time that happens to equal the id, and only if there is no such
      entry does it leave the queue in agreement - and then as it was. */
  lemma EraseOrderExactly(q: Queue, prio: int, wfiid: int)
    requires Agrees(q)
    ensures Agrees(EraseOrder(q, prio, wfiid)) <==>
      forall id :: id in q.entries && q.entries[id].prio == prio ==> q.entries[id].mod != wfiid
    ensures Agrees(EraseOrder(q, prio, wfiid)) ==> EraseOrder(q, prio, wfiid) == q
  {
    if id :| id in q.entries && q.entries[id].prio == prio && q.entries[id].mod == wfiid {
      WithKeyMembers(q.sub[prio], wfiid, false);
      assert Slot(wfiid, id) !in EraseOrder(q, prio, wfiid).sub[prio];
    } else if prio in q.sub {
      WithoutKeySame(q.sub[prio], wfiid);
      assert q.sub[prio := q.sub[prio]] == q.sub;
    }
  }

  /** Whatever its order, an entry loses its slot exactly if its priority and its modified time match. */
  lemma ErasesByTime(q: Queue, prio: int, wfiid: int, id: nat)
    requires Slotted(q) && id in q.entries
    ensures var e := q.entries[id];
            var r := EraseOrder(q, prio, wfiid);
            e.prio in r.sub && (Slot(e.mod, id) in r.sub[e.prio] <==> !(e.prio == prio && e.mod == wfiid))
  {
    if q.entries[id].prio == prio {
      WithKeyMembers(q.sub[prio], wfiid, false);
    }
  }

  /** One submission shows both: erasing its order misses it, or breaks the queue if its time equals the id. */
  lemma EraseOrderFails(wfiid: int, ind: int, prio: int, mod: int, parent: ParentInfo)
    ensures var q := Add(EMPTY, Key(wfiid, Single), ind, Bare, prio, mod, 0, parent);
            if mod == wfiid then Agrees(q) && !Agrees(EraseOrder(q, prio, wfiid))
            else EraseOrder(q, prio, wfiid) == q && Key(wfiid, Single) in q.wfmap
  {
    var q := Add(EMPTY, Key(wfiid, Single), ind, Bare, prio, mod, 0, parent);
    assert Agrees(EMPTY);
    AddKeeps(EMPTY, Key(wfiid, Single), ind, Bare, prio, mod, 0, parent);
    EraseOrderExactly(q, prio, wfiid);
    assert 0 in q.entries && q.entries[0].prio == prio && q.entries[0].mod == mod;
  }

  // ---- meaning of the history ----

  /** Submission `n` is the first one of its step index since the last delivery before `|log|`. */
  ghost predicate Counts(log: seq<Op>, n: nat, key: Key, ind: int) {
    && n < |log| && log[n].Submit? && log[n].key == key && log[n].ind == ind
    && (forall m :: n < m < |log| ==> !(log[m].Deliver? && log[m].key == key))
    && (forall m :: 0 <= m < n && log[m].Submit? && log[m].key == key && log[m].ind == ind ==>
          exists d :: m < d < n && log[d].Deliver? && log[d].key == key)
  }

  lemma {:induction false} CountingIsPending(log: seq<Op>, n: nat, key: Key, ind: int)
    requires Counts(log, n, key, ind)
    ensures ind in Pending(log, key) && Pending(log, key)[ind] == log[n].item
  {
    var last := |log| - 1;
    var prior := log[..last];
    if n < last {
      assert Counts(prior, n, key, ind);
      CountingIsPending(prior, n, key, ind);
    } else if ind in Pending(prior, key) {
      var m := PendingIsCounting(prior, key, ind);
    }
  }

  lemma {:induction false} PendingIsCounting(log: seq<Op>, key: Key, ind: int) returns (n: nat)
    requires ind in Pending(log, key)
    ensures Counts(log, n, key, ind)
  {
    n := |log| - 1;
    var prior := log[..n];
    if ind in Pending(prior, key) {
      var last := n;
      n := PendingIsCounting(prior, key, ind);
      assert forall m :: 0 <= m < last ==> log[m] == prior[m];
    } else {
      forall m | 0 <= m < n && log[m].Submit? && log[m].key == key && log[m].ind == ind
        ensures exists d :: m < d < n && log[d].Deliver? && log[d].key == key
      {
        SubmittedOrDelivered(prior, m, key, ind);
        var d :| m < d < |prior| && prior[d].Deliver? && prior[d].key == key;
        assert log[d] == prior[d];
      }
    }
  }

  /** A step index is pending exactly when it was submitted since the last delivery of
      its key, and then with the data of the first such submission. */
  lemma PendingMeaning(log: seq<Op>, key: Key, ind: int)
    ensures ind in Pending(log, key) <==> exists n: nat :: Counts(log, n, key, ind)
    ensures forall n: nat :: Counts(log, n, key, ind) ==>
      ind in Pending(log, key) && Pending(log, key)[ind] == log[n].item
  {
    forall n: nat | Counts(log, n, key, ind)
      ensures ind in Pending(log, key) && Pending(log, key)[ind] == log[n].item
    {
      CountingIsPending(log, n, key, ind);
    }
    if ind in Pending(log, key) {
      var n := PendingIsCounting(log, key, ind);
    }
  }

  /** A submission is followed by a delivery of its key, or its step index is still pending. */
  lemma {:induction false} SubmittedOrDelivered(log: seq<Op>, m: nat, key: Key, ind: int)
    requires m < |log| && log[m].Submit? && log[m].key == key && log[m].ind == ind
    ensures ind in Pending(log, key) || exists d :: m < d < |log| && log[d].Deliver? && log[d].key == key
  {
    if m < |log| - 1 {
      var prior := log[..|log| - 1];
      SubmittedOrDelivered(prior, m, key, ind);
      if ind !in Pending(prior, key) {
        var d :| m < d < |prior| && prior[d].Deliver? && prior[d].key == key;
        assert log[d] == prior[d];
      }
    }
  }
}
