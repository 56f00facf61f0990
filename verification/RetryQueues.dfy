/** The retry queues as values, and the scan over the three of them. */
module RetryQueues {
  import opened Orders
  import opened Multimap
  import opened SegmentMap

  datatype RetryEntry = RetryEntry(wfiid: int, mod: int, parent: ParentInfo)

  /** History of a queue: times asked for, and orders removed or handed out. */
  datatype Op = Asked(wfiid: int, mod: int) | Gone(wfiid: int)

  /** `heap` holds the live entries by address; `slots` is the multimap, `rwmap` the lookup
      map and `marked` the marker set, all three holding addresses. An address is free for
      reuse once its entry is deleted. */
  datatype RetryQueue = RetryQueue(
    heap: map<nat, RetryEntry>,
    slots: seq<Slot<nat>>,
    rwmap: map<int, nat>,
    marked: set<nat>,
    log: seq<Op>)

  const NO_RETRIES := RetryQueue(map[], [], map[], {}, [])

  // ---- operations ----

  /** Where the iterator kept for the entry at `addr` points to. */
  function Position(slots: seq<Slot<nat>>, addr: nat): (i: nat)
    ensures i <= |slots|
    ensures i < |slots| ==> slots[i].val == addr
    ensures forall j :: 0 <= j < i ==> slots[j].val != addr
  {
    if slots == [] || slots[0].val == addr then 0 else 1 + Position(slots[1..], addr)
  }

  function Unlink(slots: seq<Slot<nat>>, addr: nat): seq<Slot<nat>> {
    var i := Position(slots, addr);
    if i < |slots| then Erase(slots, i) else slots
  }

  /** RetryQueue::add returns -1 when the order is queued for no later a time. */
  predicate Rejects(q: RetryQueue, wfiid: int, mod: int) {
    wfiid in q.rwmap && q.rwmap[wfiid] in q.heap && q.heap[q.rwmap[wfiid]].mod <= mod
  }

  function Requeue(q: RetryQueue, wfiid: int, mod: int): RetryQueue
    requires wfiid in q.rwmap && q.rwmap[wfiid] in q.heap
  {
    var a := q.rwmap[wfiid];
    q.(heap := q.heap[a := q.heap[a].(mod := mod)],
       slots := Insert(Unlink(q.slots, a), mod, a),
       log := q.log + [Asked(wfiid, mod)])
  }

  function Enqueue(q: RetryQueue, wfiid: int, mod: int, parent: ParentInfo, addr: nat): RetryQueue {
    q.(heap := q.heap[addr := RetryEntry(wfiid, mod, parent)],
       slots := Insert(q.slots, mod, addr),
       rwmap := q.rwmap[wfiid := addr],
       log := q.log + [Asked(wfiid, mod)])
  }

  /** RetryQueue::add; a new entry is allocated at `addr`. */
  function AddRetry(q: RetryQueue, wfiid: int, mod: int, parent: ParentInfo, addr: nat): RetryQueue {
    if Rejects(q, wfiid, mod) then q.(log := q.log + [Asked(wfiid, mod)])
    else if wfiid in q.rwmap && q.rwmap[wfiid] in q.heap then Requeue(q, wfiid, mod)
    else Enqueue(q, wfiid, mod, parent, addr)
  }

  /** RetryQueue::remove_workflow_instance; it leaves the markers alone. */
  function RemoveOrder(q: RetryQueue, wfiid: int): RetryQueue {
    if wfiid !in q.rwmap then q
    else
      var a := q.rwmap[wfiid];
      q.(heap := q.heap - {a}, slots := Unlink(q.slots, a), rwmap := q.rwmap - {wfiid}, log := q.log + [Gone(wfiid)])
  }

  predicate HasEntry(q: RetryQueue, i: nat) {
    i < |q.slots| && q.slots[i].val in q.heap
  }

  /** SegmentEventQueue::get_event. */
  function HandOut(q: RetryQueue, i: nat): RetryQueue
    requires HasEntry(q, i)
  {
    var a := q.slots[i].val;
    var w := q.heap[a].wfiid;
    q.(heap := q.heap - {a}, slots := Erase(q.slots, i), rwmap := q.rwmap - {w}, log := q.log + [Gone(w)])
  }

  // ---- agreement ----

  ghost predicate Distinct(slots: seq<Slot<nat>>) {
    forall i, j :: 0 <= i < j < |slots| ==> slots[i].val != slots[j].val
  }

  /** Each slot leads to an entry of its time. */
  ghost predicate Filed(q: RetryQueue) {
    forall i :: 0 <= i < |q.slots| ==> HasEntry(q, i) && q.heap[q.slots[i].val].mod == q.slots[i].key
  }

  /** Multimap, heap and lookup map match one to one, keys equal the entries' times. */
  ghost predicate Linked(q: RetryQueue) {
    && Sorted(q.slots) && Distinct(q.slots) && Filed(q)
    && (forall a :: a in q.heap ==> Slot(q.heap[a].mod, a) in q.slots)
    && (forall w :: w in q.rwmap ==> q.rwmap[w] in q.heap && q.heap[q.rwmap[w]].wfiid == w)
    && (forall a :: a in q.heap ==> q.heap[a].wfiid in q.rwmap && q.rwmap[q.heap[a].wfiid] == a)
  }

  function Earlier(m: Option<int>, wfiid: int, op: Op): Option<int> {
    match op
    case Asked(w, mod) => if w != wfiid then m else if m.Some? && m.value <= mod then m else Some(mod)
    case Gone(w) => if w == wfiid then None else m
  }

  /** The smallest time asked for since the order was last removed or handed out. */
  function Earliest(log: seq<Op>, wfiid: int): Option<int> {
    if log == [] then None else Earlier(Earliest(log[..|log| - 1], wfiid), wfiid, log[|log| - 1])
  }

  function QueuedTime(q: RetryQueue, wfiid: int): Option<int> {
    if wfiid in q.rwmap && q.rwmap[wfiid] in q.heap then Some(q.heap[q.rwmap[wfiid]].mod) else None
  }

  ghost predicate KeepsMinimum(q: RetryQueue) {
    forall w :: QueuedTime(q, w) == Earliest(q.log, w)
  }

  ghost predicate Sound(q: RetryQueue) {
    Linked(q) && KeepsMinimum(q)
  }

  /** No marker refers to a deleted entry. */
  ghost predicate NoDangling(q: RetryQueue) {
    forall a :: a in q.marked ==> a in q.heap
  }

  lemma EarliestAppend(log: seq<Op>, op: Op, wfiid: int)
    ensures Earliest(log + [op], wfiid) == Earlier(Earliest(log, wfiid), wfiid, op)
  {
    assert (log + [op])[..|log + [op]| - 1] == log;
  }

  lemma EraseMembers(slots: seq<Slot<nat>>, i: nat)
    requires Sorted(slots) && Distinct(slots) && i < |slots|
    ensures Sorted(Erase(slots, i)) && Distinct(Erase(slots, i))
    ensures forall s :: s in Erase(slots, i) <==> s in slots && s.val != slots[i].val
  {
    var r := Erase(slots, i);
    assert forall j :: 0 <= j < |r| ==> r[j] == if j < i then slots[j] else slots[j + 1];
    forall s | s in slots && s.val != slots[i].val ensures s in r {
      var j :| 0 <= j < |slots| && slots[j] == s;
      assert r[if j < i then j else j - 1] == s;
    }
  }

  lemma InsertDistinct(slots: seq<Slot<nat>>, key: int, val: nat)
    requires Distinct(slots) && forall s :: s in slots ==> s.val != val
    ensures Distinct(Insert(slots, key, val))
  {
    var u := UpperBound(slots, key);
    var r := Insert(slots, key, val);
    forall i, j | 0 <= i < j < |r| ensures r[i].val != r[j].val {
      assert r[i] == if i < u then slots[i] else if i == u then Slot(key, val) else slots[i - 1];
      assert r[j] == if j < u then slots[j] else if j == u then Slot(key, val) else slots[j - 1];
      assert i == u || r[i] in slots;
      assert j == u || r[j] in slots;
    }
  }

  lemma UnlinkMembers(slots: seq<Slot<nat>>, addr: nat)
    requires Sorted(slots) && Distinct(slots)
    ensures Sorted(Unlink(slots, addr)) && Distinct(Unlink(slots, addr))
    ensures forall s :: s in Unlink(slots, addr) <==> s in slots && s.val != addr
  {
    var i := Position(slots, addr);
    if i < |slots| {
      EraseMembers(slots, i);
    }
  }

  lemma MembersLinked(q: RetryQueue)
    requires Linked(q)
    ensures forall s :: s in q.slots <==> s.val in q.heap && q.heap[s.val].mod == s.key
  {
    forall s | s in q.slots ensures s.val in q.heap && q.heap[s.val].mod == s.key {
      var i :| 0 <= i < |q.slots| && q.slots[i] == s;
    }
    forall s: Slot<nat> | s.val in q.heap && q.heap[s.val].mod == s.key ensures s in q.slots {
      assert s == Slot(q.heap[s.val].mod, s.val);
    }
  }

  /** The slots of a queue that is linked but for the multimap follow from its members. */
  lemma RelinkedSlots(q: RetryQueue)
    requires Sorted(q.slots) && Distinct(q.slots)
    requires forall s :: s in q.slots <==> s.val in q.heap && q.heap[s.val].mod == s.key
    requires forall w :: w in q.rwmap ==> q.rwmap[w] in q.heap && q.heap[q.rwmap[w]].wfiid == w
    requires forall a :: a in q.heap ==> q.heap[a].wfiid in q.rwmap && q.rwmap[q.heap[a].wfiid] == a
    ensures Linked(q)
  {
    forall i | 0 <= i < |q.slots| ensures q.slots[i].val in q.heap && q.heap[q.slots[i].val].mod == q.slots[i].key {
      assert q.slots[i] in q.slots;
    }
  }

  lemma RequeueLinked(q: RetryQueue, wfiid: int, mod: int)
    requires Linked(q) && wfiid in q.rwmap
    ensures Linked(Requeue(q, wfiid, mod))
  {
    var a := q.rwmap[wfiid];
    var kept := Unlink(q.slots, a);
    MembersLinked(q);
    UnlinkMembers(q.slots, a);
    InsertSorted(kept, mod, a);
    InsertDistinct(kept, mod, a);
    InsertMembers(kept, mod, a);
    RelinkedSlots(Requeue(q, wfiid, mod));
  }

  lemma NewLinked(q: RetryQueue, wfiid: int, mod: int, parent: ParentInfo, addr: nat)
    requires Linked(q) && wfiid !in q.rwmap && addr !in q.heap
    ensures Linked(Enqueue(q, wfiid, mod, parent, addr))
  {
    MembersLinked(q);
    InsertSorted(q.slots, mod, addr);
    InsertDistinct(q.slots, mod, addr);
    InsertMembers(q.slots, mod, addr);
    RelinkedSlots(Enqueue(q, wfiid, mod, parent, addr));
  }

  lemma AddQueuedTime(q: RetryQueue, wfiid: int, mod: int, parent: ParentInfo, addr: nat, w: int)
    requires Linked(q) && addr !in q.heap
    ensures QueuedTime(AddRetry(q, wfiid, mod, parent, addr), w) == Earlier(QueuedTime(q, w), w, Asked(wfiid, mod))
  {
    var r := AddRetry(q, wfiid, mod, parent, addr);
    if w != wfiid && w in q.rwmap {
      assert r.rwmap[w] == q.rwmap[w];
      assert r.heap[q.rwmap[w]] == q.heap[q.rwmap[w]];
    }
  }

  lemma AddKeepsMinimum(q: RetryQueue, wfiid: int, mod: int, parent: ParentInfo, addr: nat)
    requires Sound(q) && addr !in q.heap
    ensures KeepsMinimum(AddRetry(q, wfiid, mod, parent, addr))
  {
    var r := AddRetry(q, wfiid, mod, parent, addr);
    assert r.log == q.log + [Asked(wfiid, mod)];
    forall w ensures QueuedTime(r, w) == Earliest(r.log, w) {
      AddQueuedTime(q, wfiid, mod, parent, addr, w);
      EarliestAppend(q.log, Asked(wfiid, mod), w);
      assert QueuedTime(q, w) == Earliest(q.log, w);
    }
  }

  lemma AddSound(q: RetryQueue, wfiid: int, mod: int, parent: ParentInfo, addr: nat)
    requires Sound(q) && addr !in q.heap
    ensures Sound(AddRetry(q, wfiid, mod, parent, addr))
    ensures NoDangling(q) ==> NoDangling(AddRetry(q, wfiid, mod, parent, addr))
  {
    if wfiid !in q.rwmap {
      NewLinked(q, wfiid, mod, parent, addr);
    } else if mod < q.heap[q.rwmap[wfiid]].mod {
      RequeueLinked(q, wfiid, mod);
    }
    AddKeepsMinimum(q, wfiid, mod, parent, addr);
  }

  lemma RemoveLinked(q: RetryQueue, wfiid: int)
    requires Linked(q)
    ensures Linked(RemoveOrder(q, wfiid))
  {
    if wfiid in q.rwmap {
      MembersLinked(q);
      UnlinkMembers(q.slots, q.rwmap[wfiid]);
      RelinkedSlots(RemoveOrder(q, wfiid));
    }
  }

  lemma RemoveSound(q: RetryQueue, wfiid: int)
    requires Sound(q)
    ensures Sound(RemoveOrder(q, wfiid))
  {
    RemoveLinked(q, wfiid);
    if wfiid in q.rwmap {
      var r := RemoveOrder(q, wfiid);
      forall w ensures QueuedTime(r, w) == Earliest(r.log, w) {
        EarliestAppend(q.log, Gone(wfiid), w);
        assert QueuedTime(q, w) == Earliest(q.log, w);
      }
    }
  }

  /** Handing out an entry is removing its order. */
  lemma HandOutRemoves(q: RetryQueue, i: nat)
    requires Linked(q) && i < |q.slots|
    ensures HandOut(q, i) == RemoveOrder(q, q.heap[q.slots[i].val].wfiid)
  {
    var k := Position(q.slots, q.slots[i].val);
    assert k == i;
  }

  lemma HandOutSound(q: RetryQueue, i: nat)
    requires Sound(q) && i < |q.slots|
    ensures Sound(HandOut(q, i))
    ensures NoDangling(q) && q.slots[i].val !in q.marked ==> NoDangling(HandOut(q, i))
  {
    HandOutRemoves(q, i);
    RemoveSound(q, q.heap[q.slots[i].val].wfiid);
  }

  // ---- merging ----

  function InsertAll(slots: seq<Slot<nat>>, others: seq<Slot<nat>>): seq<Slot<nat>>
    decreases |others|
  {
    if others == [] then slots else InsertAll(Insert(slots, others[0].key, others[0].val), others[1..])
  }

  /** RetryQueue::merge as the code has it: the entries move, their lookup does not. */
  function Merge(q: RetryQueue, rq: RetryQueue): RetryQueue {
    q.(heap := q.heap + rq.heap, slots := InsertAll(q.slots, rq.slots))
  }

  function MergedAway(rq: RetryQueue): RetryQueue {
    rq.(heap := map[], slots := [])
  }

  /** Merging keeps a queue in agreement, and the one it empties, exactly if there is nothing to merge. */
  lemma MergeLinkedExactly(q: RetryQueue, rq: RetryQueue)
    requires Linked(q) && Linked(rq) && q.heap.Keys !! rq.heap.Keys
    ensures Linked(Merge(q, rq)) <==> rq.slots == []
    ensures Linked(MergedAway(rq)) <==> rq.slots == []
  {
    if rq.slots == [] {
      assert q.heap + rq.heap == q.heap;
      assert forall a :: a !in rq.heap;
      assert rq.heap == map[];
    } else {
      var a := rq.slots[0].val;
      assert a in rq.heap && rq.heap[a].wfiid in rq.rwmap;
      assert Merge(q, rq).heap[a] == rq.heap[a];
    }
  }

  /** Merging two queues of one order each breaks both. */
  lemma MergeLosesLookup(w: int, mod: int, v: int, mod': int, parent: ParentInfo)
    ensures var q, rq := AddRetry(NO_RETRIES, w, mod, parent, 0), AddRetry(NO_RETRIES, v, mod', parent, 1);
            && Linked(q) && Linked(rq)
            && !Linked(Merge(q, rq)) && !Linked(MergedAway(rq))
  {
    var q, rq := AddRetry(NO_RETRIES, w, mod, parent, 0), AddRetry(NO_RETRIES, v, mod', parent, 1);
    assert Sound(NO_RETRIES);
    AddSound(NO_RETRIES, w, mod, parent, 0);
    AddSound(NO_RETRIES, v, mod', parent, 1);
    MergeLinkedExactly(q, rq);
  }

  // ---- meaning of the history ----

  /** Request `n` still counts: its order was not removed or handed out afterwards. */
  ghost predicate Stands(log: seq<Op>, n: nat, wfiid: int) {
    && n < |log| && log[n].Asked? && log[n].wfiid == wfiid
    && (forall m :: n < m < |log| ==> log[m] != Gone(wfiid))
  }

  /** The earliest time is one that was asked for and still stands, and no standing
      request is earlier; there is none exactly when no request stands. */
  lemma {:induction false} EarliestMeaning(log: seq<Op>, wfiid: int)
    ensures forall n: nat :: Stands(log, n, wfiid) ==>
      Earliest(log, wfiid).Some? && Earliest(log, wfiid).value <= log[n].mod
    ensures Earliest(log, wfiid).Some? ==>
      exists n: nat :: Stands(log, n, wfiid) && log[n].mod == Earliest(log, wfiid).value
  {
    if log != [] {
      var last := |log| - 1;
      var prior := log[..last];
      EarliestMeaning(prior, wfiid);
      forall n: nat | Stands(log, n, wfiid)
        ensures Earliest(log, wfiid).Some? && Earliest(log, wfiid).value <= log[n].mod
      {
        assert n < last ==> Stands(prior, n, wfiid);
      }
      if Earliest(log, wfiid).Some? {
        if Earliest(log, wfiid) == Earliest(prior, wfiid) && log[last] != Gone(wfiid) {
          var n: nat :| Stands(prior, n, wfiid) && prior[n].mod == Earliest(prior, wfiid).value;
          assert Stands(log, n, wfiid);
        } else {
          assert Stands(log, last, wfiid);
        }
      }
    }
  }

  // ---- the scan ----

  datatype Kind = Fixed | Delayed | AsyncDelayed

  /** Position `i` of the queue `kind`, to be run at `trigger`. */
  datatype Pick = NoPick | Pick(kind: Kind, i: nat, trigger: int)

  /** The three queues and the delays in force. */
  datatype Queues = Queues(fixed: RetryQueue, delayed: RetryQueue, async: RetryQueue) {
    function Get(kind: Kind): RetryQueue {
      match kind case Fixed => fixed case Delayed => delayed case AsyncDelayed => async
    }

    function Set(kind: Kind, q: RetryQueue): Queues {
      match kind
      case Fixed => this.(fixed := q)
      case Delayed => this.(delayed := q)
      case AsyncDelayed => this.(async := q)
    }
  }

  datatype Delays = Delays(retry: int, async: int) {
    function Of(kind: Kind): int {
      match kind case Fixed => 0 case Delayed => retry case AsyncDelayed => async
    }
  }

  /** An entry that nobody sleeps on and whose order is not in progress. */
  predicate Eligible(q: RetryQueue, segs: map<int, int>, addr: nat) {
    addr in q.heap && !InProgress(segs, q.heap[addr].wfiid) && addr !in q.marked
  }

  /** The first eligible position at or after `i`, or the end. */
  function FirstFrom(q: RetryQueue, segs: map<int, int>, i: nat): (k: nat)
    requires i <= |q.slots|
    ensures i <= k <= |q.slots|
    ensures k < |q.slots| ==> Eligible(q, segs, q.slots[k].val)
    ensures forall j :: i <= j < k ==> !Eligible(q, segs, q.slots[j].val)
    decreases |q.slots| - i
  {
    if i == |q.slots| || Eligible(q, segs, q.slots[i].val) then i else FirstFrom(q, segs, i + 1)
  }

  /** What a queue makes of the trigger found so far, -1 standing for none: the entry it
      offers if that is not later. */
  function Offer(q: RetryQueue, segs: map<int, int>, delay: int, trigger: int): (r: (nat, int))
    ensures r.0 <= |q.slots|
    ensures r.0 < |q.slots| ==> Eligible(q, segs, q.slots[r.0].val)
    ensures r.0 == |q.slots| ==> r.1 == trigger
  {
    var i := FirstFrom(q, segs, 0);
    if i == |q.slots| || (trigger != -1 && q.slots[i].key + delay > trigger) then (|q.slots|, trigger)
    else (i, q.slots[i].key + delay)
  }

  /** The three scan loops of get_retry_event. */
  function Scan(qs: Queues, segs: map<int, int>, d: Delays): (p: Pick)
    ensures p.Pick? ==> p.i < |qs.Get(p.kind).slots| && Eligible(qs.Get(p.kind), segs, qs.Get(p.kind).slots[p.i].val)
  {
    var f := Offer(qs.fixed, segs, 0, -1);
    var r := Offer(qs.delayed, segs, d.retry, f.1);
    var a := Offer(qs.async, segs, d.async, r.1);
    if a.1 == -1 then NoPick
    else if a.0 < |qs.async.slots| then Pick(AsyncDelayed, a.0, a.1)
    else if r.0 < |qs.delayed.slots| then Pick(Delayed, r.0, a.1)
    else Pick(Fixed, f.0, a.1)
  }

  function TriggerOf(qs: Queues, d: Delays, kind: Kind, addr: nat): int
    requires addr in qs.Get(kind).heap
  {
    qs.Get(kind).heap[addr].mod + d.Of(kind)
  }

  function Rank(kind: Kind): nat {
    match kind case AsyncDelayed => 0 case Delayed => 1 case Fixed => 2
  }

  /** The entry at `addr` of `kind` is eligible, and no eligible entry has an earlier trigger
      or the same one in a queue that goes first. */
  ghost predicate IsEarliest(qs: Queues, segs: map<int, int>, d: Delays, kind: Kind, addr: nat) {
    && Eligible(qs.Get(kind), segs, addr)
    && (forall k, x :: Eligible(qs.Get(k), segs, x) ==>
          || TriggerOf(qs, d, kind, addr) < TriggerOf(qs, d, k, x)
          || (TriggerOf(qs, d, kind, addr) == TriggerOf(qs, d, k, x) && Rank(kind) <= Rank(k)))
  }

  ghost predicate AllLinked(qs: Queues) {
    forall k: Kind :: Linked(qs.Get(k))
  }

  /** What the scan must find. */
  ghost predicate ScanRight(qs: Queues, segs: map<int, int>, d: Delays, p: Pick) {
    match p
    case NoPick => forall k, x :: !Eligible(qs.Get(k), segs, x)
    case Pick(kind, i, trigger) =>
      && i < |qs.Get(kind).slots|
      && qs.Get(kind).slots[i].val in qs.Get(kind).heap
      && IsEarliest(qs, segs, d, kind, qs.Get(kind).slots[i].val)
      && trigger == TriggerOf(qs, d, kind, qs.Get(kind).slots[i].val)
      && (forall j :: 0 <= j < i ==> !Eligible(qs.Get(kind), segs, qs.Get(kind).slots[j].val))
  }

  /** The earliest effective trigger that one queue has to offer. */
  function Least(q: RetryQueue, segs: map<int, int>, delay: int): Option<int> {
    var i := FirstFrom(q, segs, 0);
    if i < |q.slots| then Some(q.slots[i].key + delay) else None
  }

  lemma LeastRight(q: RetryQueue, segs: map<int, int>, delay: int)
    requires Linked(q)
    ensures match Least(q, segs, delay)
            case None => forall x :: !Eligible(q, segs, x)
            case Some(t) =>
              && q.slots[FirstFrom(q, segs, 0)].val in q.heap
              && t == q.heap[q.slots[FirstFrom(q, segs, 0)].val].mod + delay
              && (forall x :: Eligible(q, segs, x) ==> t <= q.heap[x].mod + delay)
  {
    var i := FirstFrom(q, segs, 0);
    forall x | Eligible(q, segs, x) ensures i < |q.slots| && q.slots[i].key <= q.heap[x].mod {
      var j :| 0 <= j < |q.slots| && q.slots[j] == Slot(q.heap[x].mod, x);
    }
  }

  function LeastOf(qs: Queues, segs: map<int, int>, d: Delays, kind: Kind): Option<int> {
    Least(qs.Get(kind), segs, d.Of(kind))
  }

  /** The earliest trigger of all is the -1 that the code also uses for none. */
  ghost predicate EarliestIsSentinel(qs: Queues, segs: map<int, int>, d: Delays) {
    && (exists k, x :: Eligible(qs.Get(k), segs, x) && TriggerOf(qs, d, k, x) == -1)
    && (forall k, x :: Eligible(qs.Get(k), segs, x) ==> -1 <= TriggerOf(qs, d, k, x))
  }

  ghost predicate LeastIsSentinel(qs: Queues, segs: map<int, int>, d: Delays) {
    && (exists k: Kind :: LeastOf(qs, segs, d, k) == Some(-1))
    && (forall k: Kind :: LeastOf(qs, segs, d, k).Some? ==> -1 <= LeastOf(qs, segs, d, k).value)
  }

  lemma SentinelByQueue(qs: Queues, segs: map<int, int>, d: Delays)
    requires AllLinked(qs)
    ensures EarliestIsSentinel(qs, segs, d) <==> LeastIsSentinel(qs, segs, d)
  {
    forall k: Kind ensures LeastOf(qs, segs, d, k).Some? ==>
        var a := qs.Get(k).slots[FirstFrom(qs.Get(k), segs, 0)].val;
        Eligible(qs.Get(k), segs, a) && TriggerOf(qs, d, k, a) == LeastOf(qs, segs, d, k).value
    {
      LeastRight(qs.Get(k), segs, d.Of(k));
    }
    forall k, x | Eligible(qs.Get(k), segs, x)
      ensures LeastOf(qs, segs, d, k).Some? && LeastOf(qs, segs, d, k).value <= TriggerOf(qs, d, k, x)
    {
      LeastRight(qs.Get(k), segs, d.Of(k));
    }
  }

  ghost predicate PicksLeast(qs: Queues, segs: map<int, int>, d: Delays, p: Pick) {
    match p
    case NoPick => forall k: Kind :: LeastOf(qs, segs, d, k) == None
    case Pick(kind, i, trigger) =>
      && i == FirstFrom(qs.Get(kind), segs, 0)
      && LeastOf(qs, segs, d, kind) == Some(trigger)
      && (forall k: Kind :: AheadOf(trigger, Rank(kind), LeastOf(qs, segs, d, k), Rank(k)))
  }

  predicate AheadOf(trigger: int, rank: nat, other: Option<int>, otherRank: nat) {
    other.Some? ==> trigger < other.value || (trigger == other.value && rank <= otherRank)
  }

  function LeastOfThree(f: Option<int>, r: Option<int>, a: Option<int>): int {
    var x := f.GetOr(0);
    var y := if r.Some? && r.value < x then r.value else x;
    if a.Some? && a.value < y then a.value else y
  }

  /** The scan over the three least triggers alone. */
  lemma ScanCases(qs: Queues, segs: map<int, int>, d: Delays, f: Option<int>, r: Option<int>, a: Option<int>)
    requires f == Least(qs.fixed, segs, 0) && r == Least(qs.delayed, segs, d.retry)
    requires a == Least(qs.async, segs, d.async)
    ensures var p := Scan(qs, segs, d);
            if p.NoPick? then
              (f == r == a == None) ||
              LeastOfThree(f, r, a) == -1
            else
              || (&& p.i == FirstFrom(qs.Get(p.kind), segs, 0)
                  && LeastOf(qs, segs, d, p.kind) == Some(p.trigger)
                  && AheadOf(p.trigger, Rank(p.kind), f, 2) && AheadOf(p.trigger, Rank(p.kind), r, 1)
                  && AheadOf(p.trigger, Rank(p.kind), a, 0))
              || LeastOfThree(f, r, a) == -1
  {
  }

  lemma LeastByKind(qs: Queues, segs: map<int, int>, d: Delays, k: Kind)
    ensures LeastOf(qs, segs, d, k) ==
            if k.Fixed? then Least(qs.fixed, segs, 0)
            else if k.Delayed? then Least(qs.delayed, segs, d.retry)
            else Least(qs.async, segs, d.async)
  {
  }

  lemma NoSentinelOfThree(qs: Queues, segs: map<int, int>, d: Delays)
    requires !LeastIsSentinel(qs, segs, d)
    ensures LeastOfThree(Least(qs.fixed, segs, 0), Least(qs.delayed, segs, d.retry), Least(qs.async, segs, d.async))
              != -1
  {
    LeastByKind(qs, segs, d, Fixed);
    LeastByKind(qs, segs, d, Delayed);
    LeastByKind(qs, segs, d, AsyncDelayed);
    if forall k: Kind :: LeastOf(qs, segs, d, k) != Some(-1) {
      assert LeastOf(qs, segs, d, Fixed) != Some(-1);
    } else {
      var k: Kind :| LeastOf(qs, segs, d, k).Some? && LeastOf(qs, segs, d, k).value < -1;
      LeastByKind(qs, segs, d, k);
    }
  }

  lemma ScanLeast(qs: Queues, segs: map<int, int>, d: Delays)
    requires !LeastIsSentinel(qs, segs, d)
    ensures PicksLeast(qs, segs, d, Scan(qs, segs, d))
  {
    var f, r, a := Least(qs.fixed, segs, 0), Least(qs.delayed, segs, d.retry), Least(qs.async, segs, d.async);
    var p := Scan(qs, segs, d);
    NoSentinelOfThree(qs, segs, d);
    ScanCases(qs, segs, d, f, r, a);
    forall k: Kind
      ensures if p.NoPick? then LeastOf(qs, segs, d, k) == None
              else AheadOf(p.trigger, Rank(p.kind), LeastOf(qs, segs, d, k), Rank(k))
    {
      LeastByKind(qs, segs, d, k);
    }
  }

  /** When the earliest trigger is the sentinel, the loops forget what they found in a queue that has it, and
      before. */
  ghost predicate Seen(qs: Queues, segs: map<int, int>, d: Delays, kind: Kind) {
    EarliestIsSentinel(qs, segs, d) ==>
      forall k, x :: Eligible(qs.Get(k), segs, x) && TriggerOf(qs, d, k, x) == -1 ==> Rank(kind) < Rank(k)
  }

  /** The entry at position `i` of `kind` is the earliest of those that the scan sees. */
  ghost predicate IsFound(qs: Queues, segs: map<int, int>, d: Delays, kind: Kind, i: nat) {
    && i < |qs.Get(kind).slots|
    && var a := qs.Get(kind).slots[i].val;
    && Eligible(qs.Get(kind), segs, a) && Seen(qs, segs, d, kind)
    && (forall k, x :: Eligible(qs.Get(k), segs, x) && Seen(qs, segs, d, k) ==>
          AheadOf(TriggerOf(qs, d, kind, a), Rank(kind), Some(TriggerOf(qs, d, k, x)), Rank(k)))
    && (forall j :: 0 <= j < i ==> !Eligible(qs.Get(kind), segs, qs.Get(kind).slots[j].val))
  }

  /** `Seen` by the least triggers alone. */
  predicate SeenOfThree(kind: Kind, f: Option<int>, r: Option<int>, a: Option<int>) {
    match kind
    case AsyncDelayed => a != Some(-1)
    case Delayed => a != Some(-1) && r != Some(-1)
    case Fixed => a != Some(-1) && r != Some(-1) && f != Some(-1)
  }

  lemma ScanSentinelCases(qs: Queues, segs: map<int, int>, d: Delays, f: Option<int>, r: Option<int>, a: Option<int>)
    requires f == Least(qs.fixed, segs, 0) && r == Least(qs.delayed, segs, d.retry)
    requires a == Least(qs.async, segs, d.async)
    requires f == Some(-1) || r == Some(-1) || a == Some(-1)
    requires (f.Some? ==> -1 <= f.value) && (r.Some? ==> -1 <= r.value) && (a.Some? ==> -1 <= a.value)
    ensures var p := Scan(qs, segs, d);
            if p.NoPick? then
              (a.None? || a == Some(-1)) && (r.None? || !SeenOfThree(Delayed, f, r, a))
            else
              && p.i == FirstFrom(qs.Get(p.kind), segs, 0)
              && LeastOf(qs, segs, d, p.kind) == Some(p.trigger) && SeenOfThree(p.kind, f, r, a)
              && (a.Some? ==> AheadOf(p.trigger, Rank(p.kind), a, 0))
              && (SeenOfThree(Delayed, f, r, a) ==> AheadOf(p.trigger, Rank(p.kind), r, 1))
  {
  }

  /** In each queue the least trigger is that of an eligible entry, and none is earlier. */
  lemma LeastMeaning(qs: Queues, segs: map<int, int>, d: Delays, k: Kind)
    requires AllLinked(qs)
    ensures LeastOf(qs, segs, d, k).None? <==> forall x :: !Eligible(qs.Get(k), segs, x)
    ensures LeastOf(qs, segs, d, k).Some? ==>
      var i := FirstFrom(qs.Get(k), segs, 0);
      && HasEntry(qs.Get(k), i) && Eligible(qs.Get(k), segs, qs.Get(k).slots[i].val)
      && TriggerOf(qs, d, k, qs.Get(k).slots[i].val) == LeastOf(qs, segs, d, k).value
    ensures forall x :: Eligible(qs.Get(k), segs, x) ==>
      LeastOf(qs, segs, d, k).Some? && LeastOf(qs, segs, d, k).value <= TriggerOf(qs, d, k, x)
  {
    LeastRight(qs.Get(k), segs, d.Of(k));
  }

  lemma SeenByQueue(qs: Queues, segs: map<int, int>, d: Delays, kind: Kind)
    requires AllLinked(qs) && EarliestIsSentinel(qs, segs, d)
    ensures Seen(qs, segs, d, kind) <==>
      SeenOfThree(kind, LeastOf(qs, segs, d, Fixed), LeastOf(qs, segs, d, Delayed), LeastOf(qs, segs, d, AsyncDelayed))
  {
    SeenIsBehind(qs, segs, d, kind);
    BehindOfThree(kind, k => LeastOf(qs, segs, d, k));
  }

  lemma LeastIsSentinelHere(qs: Queues, segs: map<int, int>, d: Delays, k: Kind)
    requires AllLinked(qs) && EarliestIsSentinel(qs, segs, d)
    ensures LeastOf(qs, segs, d, k) == Some(-1) <==>
      exists x :: Eligible(qs.Get(k), segs, x) && TriggerOf(qs, d, k, x) == -1
  {
    LeastMeaning(qs, segs, d, k);
  }

  lemma BehindOfThree(kind: Kind, least: Kind -> Option<int>)
    ensures SeenOfThree(kind, least(Fixed), least(Delayed), least(AsyncDelayed)) <==>
      forall k: Kind :: least(k) == Some(-1) ==> Rank(kind) < Rank(k)
  {
    assert Rank(Fixed) == 2 && Rank(Delayed) == 1 && Rank(AsyncDelayed) == 0;
    if SeenOfThree(kind, least(Fixed), least(Delayed), least(AsyncDelayed)) {
      forall k: Kind | least(k) == Some(-1) ensures Rank(kind) < Rank(k) {
        match k case Fixed => case Delayed => case AsyncDelayed =>
      }
    }
  }

  lemma SeenIsBehind(qs: Queues, segs: map<int, int>, d: Delays, kind: Kind)
    requires AllLinked(qs) && EarliestIsSentinel(qs, segs, d)
    ensures Seen(qs, segs, d, kind) <==>
      forall k: Kind :: LeastOf(qs, segs, d, k) == Some(-1) ==> Rank(kind) < Rank(k)
  {
    if Seen(qs, segs, d, kind) {
      forall k: Kind | LeastOf(qs, segs, d, k) == Some(-1) ensures Rank(kind) < Rank(k) {
        LeastIsSentinelHere(qs, segs, d, k);
      }
    } else {
      var k, x :| Eligible(qs.Get(k), segs, x) && TriggerOf(qs, d, k, x) == -1 && Rank(k) <= Rank(kind);
      LeastIsSentinelHere(qs, segs, d, k);
    }
  }

  lemma SentinelScan(qs: Queues, segs: map<int, int>, d: Delays, k: Kind)
    requires AllLinked(qs) && EarliestIsSentinel(qs, segs, d)
    ensures var p := Scan(qs, segs, d);
            && (p.Pick? ==>
                  && p.i == FirstFrom(qs.Get(p.kind), segs, 0) && LeastOf(qs, segs, d, p.kind) == Some(p.trigger)
                  && Seen(qs, segs, d, p.kind))
            && (Seen(qs, segs, d, k) ==>
                  if p.NoPick? then LeastOf(qs, segs, d, k).None?
                  else AheadOf(p.trigger, Rank(p.kind), LeastOf(qs, segs, d, k), Rank(k)))
  {
    var p := Scan(qs, segs, d);
    LeastsByKind(qs, segs, d);
    LeastAtSentinel(qs, segs, d);
    ScanSentinelCases(qs, segs, d, LeastOf(qs, segs, d, Fixed), LeastOf(qs, segs, d, Delayed),
                      LeastOf(qs, segs, d, AsyncDelayed));
    SeenByQueue(qs, segs, d, k);
    if p.Pick? {
      SeenByQueue(qs, segs, d, p.kind);
    }
  }

  lemma LeastsByKind(qs: Queues, segs: map<int, int>, d: Delays)
    ensures LeastOf(qs, segs, d, Fixed) == Least(qs.fixed, segs, 0)
    ensures LeastOf(qs, segs, d, Delayed) == Least(qs.delayed, segs, d.retry)
    ensures LeastOf(qs, segs, d, AsyncDelayed) == Least(qs.async, segs, d.async)
  {
    LeastByKind(qs, segs, d, Fixed);
    LeastByKind(qs, segs, d, Delayed);
    LeastByKind(qs, segs, d, AsyncDelayed);
  }

  lemma LeastAtSentinel(qs: Queues, segs: map<int, int>, d: Delays)
    requires AllLinked(qs) && EarliestIsSentinel(qs, segs, d)
    ensures exists k: Kind :: LeastOf(qs, segs, d, k) == Some(-1)
    ensures LeastOf(qs, segs, d, Fixed) == Some(-1) || LeastOf(qs, segs, d, Delayed) == Some(-1) ||
            LeastOf(qs, segs, d, AsyncDelayed) == Some(-1)
    ensures forall k: Kind :: LeastOf(qs, segs, d, k).Some? ==> -1 <= LeastOf(qs, segs, d, k).value
  {
    SentinelByQueue(qs, segs, d);
    var k: Kind :| LeastOf(qs, segs, d, k) == Some(-1);
    match k case Fixed => case Delayed => case AsyncDelayed =>
  }

  /** What the scan finds, whatever the triggers: the first of the entries that it sees. */
  lemma ScanFound(qs: Queues, segs: map<int, int>, d: Delays)
    requires AllLinked(qs)
    ensures match Scan(qs, segs, d)
            case NoPick => forall k, x :: Eligible(qs.Get(k), segs, x) ==> !Seen(qs, segs, d, k)
            case Pick(kind, i, trigger) =>
              && IsFound(qs, segs, d, kind, i)
              && trigger == TriggerOf(qs, d, kind, qs.Get(kind).slots[i].val)
  {
    var p := Scan(qs, segs, d);
    forall k: Kind
      ensures p.Pick? ==> LeastOf(qs, segs, d, p.kind) == Some(p.trigger) && p.i == FirstFrom(qs.Get(p.kind), segs, 0)
      ensures Seen(qs, segs, d, k) ==>
        if p.NoPick? then LeastOf(qs, segs, d, k).None?
        else AheadOf(p.trigger, Rank(p.kind), LeastOf(qs, segs, d, k), Rank(k))
      ensures p.Pick? ==> Seen(qs, segs, d, p.kind)
    {
      if EarliestIsSentinel(qs, segs, d) {
        SentinelScan(qs, segs, d, k);
      } else {
        SentinelByQueue(qs, segs, d);
        ScanLeast(qs, segs, d);
      }
    }
    forall k: Kind, x | Eligible(qs.Get(k), segs, x)
      ensures LeastOf(qs, segs, d, k).Some? && LeastOf(qs, segs, d, k).value <= TriggerOf(qs, d, k, x)
    {
      LeastMeaning(qs, segs, d, k);
    }
    if p.Pick? {
      LeastMeaning(qs, segs, d, p.kind);
    }
  }

  lemma ScanFinds(qs: Queues, segs: map<int, int>, d: Delays)
    requires AllLinked(qs) && !EarliestIsSentinel(qs, segs, d)
    ensures ScanRight(qs, segs, d, Scan(qs, segs, d))
  {
    ScanFound(qs, segs, d);
  }

  lemma FoundUnique(qs: Queues, segs: map<int, int>, d: Delays, kind: Kind, i: nat, kind': Kind, i': nat)
    requires IsFound(qs, segs, d, kind, i) && IsFound(qs, segs, d, kind', i')
    ensures kind == kind' && i == i'
  {
    var a, b := qs.Get(kind).slots[i].val, qs.Get(kind').slots[i'].val;
    assert AheadOf(TriggerOf(qs, d, kind, a), Rank(kind), Some(TriggerOf(qs, d, kind', b)), Rank(kind'));
    assert AheadOf(TriggerOf(qs, d, kind', b), Rank(kind'), Some(TriggerOf(qs, d, kind, a)), Rank(kind));
  }

  lemma SentinelMisleads(qs: Queues, segs: map<int, int>, d: Delays)
    requires EarliestIsSentinel(qs, segs, d)
    ensures !ScanRight(qs, segs, d, Scan(qs, segs, d))
  {
    var k, x :| Eligible(qs.Get(k), segs, x) && TriggerOf(qs, d, k, x) == -1;
    assert Scan(qs, segs, d).Pick? ==> Scan(qs, segs, d).trigger != -1;
  }

  /** The three loops find the earliest trigger, ties going to the asynchronous, then the
      delayed, then the fixed queue - unless that earliest trigger is -1, and only then not. */
  lemma ScanExactly(qs: Queues, segs: map<int, int>, d: Delays)
    requires AllLinked(qs)
    ensures ScanRight(qs, segs, d, Scan(qs, segs, d)) <==> !EarliestIsSentinel(qs, segs, d)
  {
    if EarliestIsSentinel(qs, segs, d) {
      SentinelMisleads(qs, segs, d);
    } else {
      ScanFinds(qs, segs, d);
    }
  }

  /** Times and delays that are not negative keep the scan clear of the sentinel. */
  lemma NonNegativeScan(qs: Queues, segs: map<int, int>, d: Delays)
    requires AllLinked(qs) && 0 <= d.retry && 0 <= d.async
    requires forall k: Kind, a :: a in qs.Get(k).heap ==> 0 <= qs.Get(k).heap[a].mod
    ensures ScanRight(qs, segs, d, Scan(qs, segs, d))
  {
    forall k, x | Eligible(qs.Get(k), segs, x) ensures 0 <= TriggerOf(qs, d, k, x) {
      assert x in qs.Get(k).heap;
    }
    ScanFinds(qs, segs, d);
  }
}
