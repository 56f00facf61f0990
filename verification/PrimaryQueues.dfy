/** The primary queue against a plain reference: one list of active orders in the order they
    became active, and one list of scheduled orders by trigger. */
module PrimaryQueues {
  import opened Orders
  import opened Multimap

  datatype PrimaryEvent = PrimaryEvent(wfiid: int, prio: int, parent: ParentInfo)

  // ---- the reference ----

  datatype Lists = Lists(active: seq<PrimaryEvent>, scheduled: seq<Slot<PrimaryEvent>>)

  ghost predicate IsActive(active: seq<PrimaryEvent>, wfiid: int) {
    exists e :: e in active && e.wfiid == wfiid
  }

  ghost predicate IsScheduled(scheduled: seq<Slot<PrimaryEvent>>, wfiid: int) {
    exists s :: s in scheduled && s.val.wfiid == wfiid
  }

  /** An order becomes active, unless it is already. */
  ghost function Arrive(l: Lists, e: PrimaryEvent): Lists {
    if IsActive(l.active, e.wfiid) then l else l.(active := l.active + [e])
  }

  /** An order is scheduled, unless it is already. */
  ghost function Schedule(l: Lists, trigger: int, e: PrimaryEvent): Lists {
    if IsScheduled(l.scheduled, e.wfiid) then l else l.(scheduled := Insert(l.scheduled, trigger, e))
  }

  /** PrimaryQueue::add: `scheduled` is the trigger time, if there is one. */
  ghost function Submit(l: Lists, e: PrimaryEvent, scheduled: Option<int>, now: int): Lists {
    if scheduled.Some? && scheduled.value > now then Schedule(l, scheduled.value, e) else Arrive(l, e)
  }

  /** The assertions of the code: an order is not added to one list while it is in the other. */
  ghost predicate CanSubmit(l: Lists, wfiid: int, scheduled: Option<int>, now: int) {
    if scheduled.Some? && scheduled.value > now
    then IsScheduled(l.scheduled, wfiid) || !IsActive(l.active, wfiid)
    else !IsScheduled(l.scheduled, wfiid)
  }

  /** How many scheduled orders are due, in trigger order. */
  function DueCount(scheduled: seq<Slot<PrimaryEvent>>, now: int): (n: nat)
    ensures n <= |scheduled|
    ensures forall i :: 0 <= i < n ==> scheduled[i].key <= now
    ensures n < |scheduled| ==> now < scheduled[n].key
  {
    if scheduled == [] || scheduled[0].key > now then 0 else 1 + DueCount(scheduled[1..], now)
  }

  function Events(slots: seq<Slot<PrimaryEvent>>): seq<PrimaryEvent> {
    seq(|slots|, i requires 0 <= i < |slots| => slots[i].val)
  }

  /** The due orders become active behind the others, earliest trigger first. */
  ghost function Activate(l: Lists, now: int): Lists {
    var n := DueCount(l.scheduled, now);
    Lists(l.active + Events(l.scheduled[..n]), l.scheduled[n..])
  }

  function Without(s: seq<PrimaryEvent>, wfiid: int): seq<PrimaryEvent> {
    if s == [] then []
    else (if s[0].wfiid == wfiid then [] else [s[0]]) + Without(s[1..], wfiid)
  }

  /** The scheduled slot with a new priority for the order, if it is the order's. */
  function Retagged(s: Slot<PrimaryEvent>, wfiid: int, prio: int): Slot<PrimaryEvent> {
    if s.val.wfiid == wfiid then s.(val := s.val.(prio := prio)) else s
  }

  /** The reference for a change of priority. */
  ghost predicate Reprioritized(l: Lists, wfiid: int, prio: int, m: Lists) {
    if IsScheduled(l.scheduled, wfiid) then
      && m.active == l.active && |m.scheduled| == |l.scheduled|
      && (forall i :: 0 <= i < |l.scheduled| ==> m.scheduled[i] == Retagged(l.scheduled[i], wfiid, prio))
    else if IsActive(l.active, wfiid) then
      exists e :: e in l.active && e.wfiid == wfiid && m == l.(active := Without(l.active, wfiid) + [e.(prio := prio)])
    else m == l
  }

  /** The reference for a new schedule: the order leaves its place and is submitted again. */
  ghost predicate Rescheduled(l: Lists, wfiid: int, scheduled: Option<int>, now: int, m: Lists) {
    if IsScheduled(l.scheduled, wfiid) then
      exists k :: 0 <= k < |l.scheduled| && l.scheduled[k].val.wfiid == wfiid &&
        m == Submit(l.(scheduled := Erase(l.scheduled, k)), l.scheduled[k].val, scheduled, now)
    else if IsActive(l.active, wfiid) then
      exists e :: e in l.active && e.wfiid == wfiid &&
        m == Submit(l.(active := Without(l.active, wfiid)), e, scheduled, now)
    else m == l
  }

  /** Position `i` holds the order to run next: lowest priority number, then first active. */
  ghost predicate IsNext(active: seq<PrimaryEvent>, i: nat) {
    && i < |active|
    && forall j :: 0 <= j < |active| ==>
         active[i].prio < active[j].prio || (active[i].prio == active[j].prio && i <= j)
  }

  // ---- the queue ----

  function OfPrio(s: seq<PrimaryEvent>, prio: int): seq<PrimaryEvent> {
    if s == [] then []
    else (if s[0].prio == prio then [s[0]] else []) + OfPrio(s[1..], prio)
  }

  ghost predicate Unique(s: seq<PrimaryEvent>) {
    forall i, j :: 0 <= i < j < |s| ==> s[i].wfiid != s[j].wfiid
  }

  /** The queue's fields; an iterator in `pmap` is kept as the priority of the sub-queue it
      points into, one in `psmap` as its trigger, the position being that of the order. */
  datatype Fields = Fields(
    pq: map<int, seq<PrimaryEvent>>,
    pmap: map<int, int>,
    psq: seq<Slot<PrimaryEvent>>,
    psmap: map<int, int>)

  /** The sub-queues are the active list by priority, none of them empty. */
  ghost predicate SubQueues(pq: map<int, seq<PrimaryEvent>>, active: seq<PrimaryEvent>) {
    forall p :: (p in pq <==> OfPrio(active, p) != []) && (p in pq ==> pq[p] == OfPrio(active, p))
  }

  ghost predicate ActiveIndex(pmap: map<int, int>, active: seq<PrimaryEvent>) {
    && Unique(active)
    && (forall e :: e in active ==> e.wfiid in pmap && pmap[e.wfiid] == e.prio)
    && (forall w :: w in pmap ==> IsActive(active, w))
  }

  ghost predicate ScheduledIndex(psmap: map<int, int>, psq: seq<Slot<PrimaryEvent>>) {
    && Sorted(psq) && Unique(Events(psq))
    && (forall s :: s in psq ==> s.val.wfiid in psmap && psmap[s.val.wfiid] == s.key)
    && (forall w :: w in psmap ==> IsScheduled(psq, w))
  }

  /** Fields and reference agree, and no order is in both structures. */
  ghost predicate Agree(f: Fields, l: Lists) {
    && SubQueues(f.pq, l.active) && ActiveIndex(f.pmap, l.active)
    && f.psq == l.scheduled && ScheduledIndex(f.psmap, f.psq)
    && (forall w :: w in f.pmap ==> w !in f.psmap)
  }

  // ---- lists ----

  lemma OfPrioCons(e: PrimaryEvent, s: seq<PrimaryEvent>, p: int)
    ensures OfPrio([e] + s, p) == (if e.prio == p then [e] else []) + OfPrio(s, p)
  {
    assert ([e] + s)[1..] == s;
  }

  lemma {:induction false} OfPrioAppend(s: seq<PrimaryEvent>, e: PrimaryEvent, p: int)
    ensures OfPrio(s + [e], p) == OfPrio(s, p) + if e.prio == p then [e] else []
  {
    if s == [] {
      OfPrioCons(e, [], p);
      assert s + [e] == [e] + [];
    } else {
      OfPrioAppend(s[1..], e, p);
      OfPrioCons(s[0], s[1..], p);
      OfPrioCons(s[0], s[1..] + [e], p);
      assert s == [s[0]] + s[1..] && s + [e] == [s[0]] + (s[1..] + [e]);
    }
  }

  lemma {:induction false} OfPrioMembers(s: seq<PrimaryEvent>, p: int)
    ensures forall e :: e in OfPrio(s, p) <==> e in s && e.prio == p
  {
    if s != [] {
      OfPrioMembers(s[1..], p);
      assert s == [s[0]] + s[1..];
    }
  }

  lemma {:induction false} WithoutMembers(s: seq<PrimaryEvent>, w: int)
    ensures forall e :: e in Without(s, w) <==> e in s && e.wfiid != w
  {
    if s != [] {
      WithoutMembers(s[1..], w);
      assert s == [s[0]] + s[1..];
    }
  }

  lemma {:induction false} WithoutAbsent(s: seq<PrimaryEvent>, w: int)
    requires forall e :: e in s ==> e.wfiid != w
    ensures Without(s, w) == s
  {
    if s != [] {
      WithoutAbsent(s[1..], w);
    }
  }

  lemma {:induction false} WithoutUnique(s: seq<PrimaryEvent>, w: int)
    requires Unique(s)
    ensures Unique(Without(s, w))
  {
    if s != [] {
      WithoutUnique(s[1..], w);
      WithoutMembers(s[1..], w);
      var r := Without(s[1..], w);
      if s[0].wfiid != w {
        forall j | 0 <= j < |r| ensures s[0].wfiid != r[j].wfiid {
          assert r[j] in s[1..];
        }
      }
    }
  }

  /** Dropping an order and splitting by priority commute. */
  lemma {:induction false} OfPrioWithout(s: seq<PrimaryEvent>, w: int, p: int)
    ensures OfPrio(Without(s, w), p) == Without(OfPrio(s, p), w)
  {
    if s != [] {
      OfPrioWithout(s[1..], w, p);
      OfPrioCons(s[0], Without(s[1..], w), p);
      WithoutCons(s[0], OfPrio(s[1..], p), w);
      var kept, lane := Without(s[1..], w), OfPrio(s[1..], p);
      assert [] + kept == kept && [] + lane == lane && [] + Without(lane, w) == Without(lane, w);
    }
  }

  lemma WithoutCons(e: PrimaryEvent, s: seq<PrimaryEvent>, w: int)
    ensures Without([e] + s, w) == (if e.wfiid == w then [] else [e]) + Without(s, w)
  {
    assert ([e] + s)[1..] == s;
  }

  lemma {:induction false} OfPrioUnique(s: seq<PrimaryEvent>, p: int)
    requires Unique(s)
    ensures Unique(OfPrio(s, p))
  {
    if s != [] {
      OfPrioUnique(s[1..], p);
      OfPrioMembers(s[1..], p);
      var r := OfPrio(s[1..], p);
      forall j | 0 <= j < |r| ensures s[0].wfiid != r[j].wfiid {
        assert r[j] in s[1..];
      }
    }
  }

  /** Erasing the position of an order is dropping it. */
  lemma {:induction false} EraseIsWithout(s: seq<PrimaryEvent>, i: nat)
    requires Unique(s) && i < |s|
    ensures s[..i] + s[i + 1..] == Without(s, s[i].wfiid)
  {
    if i == 0 {
      forall e | e in s[1..] ensures e.wfiid != s[0].wfiid {
        var j :| 0 <= j < |s[1..]| && s[1..][j] == e;
        assert s[j + 1] == e;
      }
      WithoutAbsent(s[1..], s[0].wfiid);
    } else {
      EraseIsWithout(s[1..], i - 1);
      assert s[..i] + s[i + 1..] == [s[0]] + (s[1..][..i - 1] + s[1..][i..]);
    }
  }

  /** The head of the lane of the lowest priority is the next order. */
  lemma HeadIsNext(f: Fields, l: Lists, p: int) returns (i: nat)
    requires SubQueues(f.pq, l.active) && p in f.pq && forall x :: x in f.pq ==> p <= x
    ensures IsNext(l.active, i) && OfPrio(l.active, p) != [] && l.active[i] == OfPrio(l.active, p)[0]
  {
    i := FirstOfPrio(l.active, p);
    forall j | 0 <= j < |l.active|
      ensures p < l.active[j].prio || (p == l.active[j].prio && i <= j)
    {
      OfPrioMembers(l.active, l.active[j].prio);
      assert l.active[j] in OfPrio(l.active, l.active[j].prio);
      assert l.active[j].prio in f.pq;
    }
  }

  lemma {:induction false} FirstOfPrio(s: seq<PrimaryEvent>, p: int) returns (i: nat)
    requires OfPrio(s, p) != []
    ensures i < |s| && s[i] == OfPrio(s, p)[0] && s[i].prio == p
    ensures forall j :: 0 <= j < i ==> s[j].prio != p
  {
    i := 0;
    if s[0].prio != p {
      var k := FirstOfPrio(s[1..], p);
      i := k + 1;
      assert forall j :: 0 < j < i ==> s[j] == s[1..][j - 1];
    }
  }

  /** The next order is determined by the active list. */
  lemma NextUnique(active: seq<PrimaryEvent>, i: nat, j: nat)
    requires IsNext(active, i) && IsNext(active, j)
    ensures i == j
  {
    assert active[i].prio <= active[j].prio && active[j].prio <= active[i].prio;
  }

  // ---- what the operations keep ----

  function AddedActive(f: Fields, e: PrimaryEvent): Fields {
    f.(pq := f.pq[e.prio := (if e.prio in f.pq then f.pq[e.prio] else []) + [e]], pmap := f.pmap[e.wfiid := e.prio])
  }

  lemma AppendSubQueues(pq: map<int, seq<PrimaryEvent>>, active: seq<PrimaryEvent>, e: PrimaryEvent)
    requires SubQueues(pq, active)
    ensures SubQueues(pq[e.prio := (if e.prio in pq then pq[e.prio] else []) + [e]], active + [e])
  {
    var g := pq[e.prio := (if e.prio in pq then pq[e.prio] else []) + [e]];
    forall p ensures (p in g <==> OfPrio(active + [e], p) != []) && (p in g ==> g[p] == OfPrio(active + [e], p)) {
      OfPrioAppend(active, e, p);
    }
  }

  lemma AppendIndex(pmap: map<int, int>, active: seq<PrimaryEvent>, e: PrimaryEvent)
    requires ActiveIndex(pmap, active) && e.wfiid !in pmap
    ensures ActiveIndex(pmap[e.wfiid := e.prio], active + [e])
  {
    var g, m := pmap[e.wfiid := e.prio], active + [e];
    forall w | w in g ensures IsActive(m, w) {
      if w == e.wfiid {
        assert e in m;
      } else {
        var x :| x in active && x.wfiid == w;
        assert x in m;
      }
    }
    forall i, j | 0 <= i < j < |m| ensures m[i].wfiid != m[j].wfiid {
      assert m[i] in active;
    }
  }

  lemma AddedActiveAgrees(f: Fields, l: Lists, e: PrimaryEvent)
    requires Agree(f, l) && e.wfiid !in f.pmap && e.wfiid !in f.psmap
    ensures !IsActive(l.active, e.wfiid) && Agree(AddedActive(f, e), Arrive(l, e))
  {
    assert !IsActive(l.active, e.wfiid);
    AppendSubQueues(f.pq, l.active, e);
    AppendIndex(f.pmap, l.active, e);
  }

  function PositionOf(s: seq<PrimaryEvent>, w: int): (i: nat)
    ensures i <= |s|
    ensures i < |s| ==> s[i].wfiid == w
    ensures forall j :: 0 <= j < i ==> s[j].wfiid != w
  {
    if s == [] || s[0].wfiid == w then 0 else 1 + PositionOf(s[1..], w)
  }

  /** The sub-queue of `prio` becomes `q`, and goes if that is empty. */
  function WithLane(f: Fields, prio: int, q: seq<PrimaryEvent>, w: int): Fields {
    f.(pq := if q == [] then f.pq - {prio} else f.pq[prio := q], pmap := f.pmap - {w})
  }

  lemma ReplaceLane(pq: map<int, seq<PrimaryEvent>>, active: seq<PrimaryEvent>, m: seq<PrimaryEvent>,
                    prio: int, q: seq<PrimaryEvent>)
    requires SubQueues(pq, active)
    requires forall p :: OfPrio(m, p) == if p == prio then q else OfPrio(active, p)
    ensures SubQueues(if q == [] then pq - {prio} else pq[prio := q], m)
  {
    var g := if q == [] then pq - {prio} else pq[prio := q];
    forall p ensures (p in g <==> OfPrio(m, p) != []) && (p in g ==> g[p] == OfPrio(m, p)) {
      assert p in pq <==> OfPrio(active, p) != [];
    }
  }

  lemma RemoveSubQueues(pq: map<int, seq<PrimaryEvent>>, active: seq<PrimaryEvent>, e: PrimaryEvent)
    requires SubQueues(pq, active) && Unique(active) && e in active
    ensures e.prio in pq
    ensures var q := Without(pq[e.prio], e.wfiid);
            SubQueues(if q == [] then pq - {e.prio} else pq[e.prio := q], Without(active, e.wfiid))
  {
    OfPrioMembers(active, e.prio);
    assert e in OfPrio(active, e.prio);
    forall p {
      RemovedLane(active, e, p);
    }
    ReplaceLane(pq, active, Without(active, e.wfiid), e.prio, Without(pq[e.prio], e.wfiid));
  }

  lemma RemoveIndex(pmap: map<int, int>, active: seq<PrimaryEvent>, w: int)
    requires ActiveIndex(pmap, active)
    ensures ActiveIndex(pmap - {w}, Without(active, w))
  {
    WithoutUnique(active, w);
    WithoutMembers(active, w);
    forall x | x in pmap - {w} ensures IsActive(Without(active, w), x) {
      var y :| y in active && y.wfiid == x;
      assert y in Without(active, w);
    }
  }

  /** Taking an order out of the sub-queue of its priority. */
  lemma RemovedActiveAgrees(f: Fields, l: Lists, w: int)
    requires Agree(f, l) && w in f.pmap
    ensures f.pmap[w] in f.pq
    ensures Agree(WithLane(f, f.pmap[w], Without(f.pq[f.pmap[w]], w), w), l.(active := Without(l.active, w)))
  {
    assert IsActive(l.active, w);
    var e :| e in l.active && e.wfiid == w;
    RemoveSubQueues(f.pq, l.active, e);
    RemoveIndex(f.pmap, l.active, w);
  }

  /** Dropping an order changes the lane of its own priority only. */
  lemma RemovedLane(s: seq<PrimaryEvent>, e: PrimaryEvent, p: int)
    requires Unique(s) && e in s
    ensures OfPrio(Without(s, e.wfiid), p) == if p == e.prio then Without(OfPrio(s, p), e.wfiid) else OfPrio(s, p)
  {
    OfPrioWithout(s, e.wfiid, p);
    if p != e.prio {
      OfPrioMembers(s, p);
      forall x | x in OfPrio(s, p) ensures x.wfiid != e.wfiid {
        var i, j :| 0 <= i < |s| && 0 <= j < |s| && s[i] == x && s[j] == e;
      }
      WithoutAbsent(OfPrio(s, p), e.wfiid);
    }
  }

  lemma InsertIndex(psmap: map<int, int>, psq: seq<Slot<PrimaryEvent>>, trigger: int, e: PrimaryEvent)
    requires ScheduledIndex(psmap, psq) && e.wfiid !in psmap
    ensures ScheduledIndex(psmap[e.wfiid := trigger], Insert(psq, trigger, e))
  {
    var r := Insert(psq, trigger, e);
    InsertSorted(psq, trigger, e);
    InsertMembers(psq, trigger, e);
    InsertUnique(psq, trigger, e);
    forall w | w in psmap[e.wfiid := trigger] ensures IsScheduled(r, w) {
      if w == e.wfiid {
        assert Slot(trigger, e) in r;
      } else {
        var s :| s in psq && s.val.wfiid == w;
        assert s in r;
      }
    }
  }

  lemma AddedScheduledAgrees(f: Fields, l: Lists, trigger: int, e: PrimaryEvent)
    requires Agree(f, l) && e.wfiid !in f.pmap && e.wfiid !in f.psmap
    ensures !IsScheduled(l.scheduled, e.wfiid)
    ensures Agree(f.(psq := Insert(f.psq, trigger, e), psmap := f.psmap[e.wfiid := trigger]), Schedule(l, trigger, e))
  {
    assert !IsScheduled(l.scheduled, e.wfiid);
    InsertIndex(f.psmap, f.psq, trigger, e);
  }

  lemma InsertUnique(q: seq<Slot<PrimaryEvent>>, trigger: int, e: PrimaryEvent)
    requires Unique(Events(q)) && forall s :: s in q ==> s.val.wfiid != e.wfiid
    ensures Unique(Events(Insert(q, trigger, e)))
  {
    var u := UpperBound(q, trigger);
    var r := Insert(q, trigger, e);
    forall i, j | 0 <= i < j < |r| ensures r[i].val.wfiid != r[j].val.wfiid {
      assert r[i] == if i < u then q[i] else if i == u then Slot(trigger, e) else q[i - 1];
      assert r[j] == if j < u then q[j] else if j == u then Slot(trigger, e) else q[j - 1];
      if i == u {
        assert r[j] in q;
      } else if j == u {
        assert r[i] in q;
      } else {
        var x, y := if i < u then i else i - 1, if j < u then j else j - 1;
        assert Events(q)[x].wfiid != Events(q)[y].wfiid;
      }
    }
  }

  function PositionOfSlot(q: seq<Slot<PrimaryEvent>>, w: int): (i: nat)
    ensures i <= |q|
    ensures i < |q| ==> q[i].val.wfiid == w
    ensures forall j :: 0 <= j < i ==> q[j].val.wfiid != w
  {
    if q == [] || q[0].val.wfiid == w then 0 else 1 + PositionOfSlot(q[1..], w)
  }

  lemma EraseOrdered(q: seq<Slot<PrimaryEvent>>, i: nat)
    requires Sorted(q) && Unique(Events(q)) && i < |q|
    ensures Sorted(Erase(q, i)) && Unique(Events(Erase(q, i)))
  {
    var r := Erase(q, i);
    assert forall j :: 0 <= j < |r| ==> r[j] == if j < i then q[j] else q[j + 1];
    assert forall j :: 0 <= j < |r| ==> Events(r)[j] == Events(q)[if j < i then j else j + 1];
  }

  lemma EraseMembers(q: seq<Slot<PrimaryEvent>>, i: nat)
    requires Unique(Events(q)) && i < |q|
    ensures forall s :: s in Erase(q, i) <==> s in q && s.val.wfiid != q[i].val.wfiid
  {
    var r := Erase(q, i);
    assert forall j :: 0 <= j < |r| ==> r[j] == if j < i then q[j] else q[j + 1];
    forall s | s in r ensures s in q && s.val.wfiid != q[i].val.wfiid {
      var j :| 0 <= j < |r| && r[j] == s;
      assert Events(q)[if j < i then j else j + 1].wfiid != Events(q)[i].wfiid;
    }
    forall s | s in q && s.val.wfiid != q[i].val.wfiid ensures s in r {
      var j :| 0 <= j < |q| && q[j] == s;
      assert r[if j < i then j else j - 1] == s;
    }
  }

  /** Erasing a scheduled order from the multimap and from its lookup map. */
  lemma RemovedScheduledAgrees(f: Fields, l: Lists, i: nat)
    requires Agree(f, l) && i < |f.psq|
    ensures Agree(f.(psq := Erase(f.psq, i), psmap := f.psmap - {f.psq[i].val.wfiid}),
                  l.(scheduled := Erase(l.scheduled, i)))
  {
    EraseOrdered(f.psq, i);
    EraseMembers(f.psq, i);
    forall x | x in f.psmap - {f.psq[i].val.wfiid} ensures IsScheduled(Erase(f.psq, i), x) {
      var s :| s in f.psq && s.val.wfiid == x;
      assert s in Erase(f.psq, i);
    }
  }

  /** A new priority for an order that is still scheduled. */
  lemma ReprioritizedScheduledAgrees(f: Fields, l: Lists, i: nat, prio: int)
    requires Agree(f, l) && i < |f.psq|
    ensures var q := f.psq[i := f.psq[i].(val := f.psq[i].val.(prio := prio))];
            Agree(f.(psq := q), l.(scheduled := q))
  {
    var q := f.psq[i := f.psq[i].(val := f.psq[i].val.(prio := prio))];
    assert forall j :: 0 <= j < |q| ==> q[j].key == f.psq[j].key && Events(q)[j].wfiid == Events(f.psq)[j].wfiid;
    forall s | s in q ensures s.val.wfiid in f.psmap && f.psmap[s.val.wfiid] == s.key {
      var j :| 0 <= j < |q| && q[j] == s;
      assert f.psq[j] in f.psq;
    }
    forall x | x in f.psmap ensures IsScheduled(q, x) {
      var s :| s in f.psq && s.val.wfiid == x;
      var j :| 0 <= j < |f.psq| && f.psq[j] == s;
      assert q[j] in q;
    }
  }

  lemma ActivateStep(l: Lists, now: int)
    requires l.scheduled != [] && l.scheduled[0].key <= now
    ensures Activate(l, now) == Activate(Lists(l.active + [l.scheduled[0].val], l.scheduled[1..]), now)
  {
    var n := DueCount(l.scheduled, now);
    assert n == 1 + DueCount(l.scheduled[1..], now);
    assert Events(l.scheduled[..n]) == [l.scheduled[0].val] + Events(l.scheduled[1..][..n - 1]);
  }

  ghost predicate CameDue(l: Lists, e: PrimaryEvent, now: int) {
    exists s :: s in l.scheduled && s.val == e && s.key <= now
  }

  lemma DueAt(q: seq<Slot<PrimaryEvent>>, now: int, j: nat)
    requires Sorted(q) && j < |q|
    ensures j < DueCount(q, now) <==> q[j].key <= now
  {
    var n := DueCount(q, now);
    if n <= j {
      assert n == j || q[n].key <= q[j].key;
    }
  }

  lemma SplitAt(q: seq<Slot<PrimaryEvent>>, now: int, n: nat)
    requires n <= |q| && forall j :: 0 <= j < |q| ==> (j < n <==> q[j].key <= now)
    ensures forall s :: s in q[..n] <==> s in q && s.key <= now
    ensures forall s :: s in q[n..] <==> s in q && now < s.key
  {
    assert q == q[..n] + q[n..];
    forall s | s in q[n..] ensures now < s.key {
      var j :| 0 <= j < |q[n..]| && q[n..][j] == s;
      assert q[n + j] == s;
    }
  }

  lemma DuePrefix(q: seq<Slot<PrimaryEvent>>, now: int)
    requires Sorted(q)
    ensures forall s :: s in q[..DueCount(q, now)] <==> s in q && s.key <= now
    ensures forall s :: s in q[DueCount(q, now)..] <==> s in q && now < s.key
  {
    forall j: nat | j < |q| {
      DueAt(q, now, j);
    }
    SplitAt(q, now, DueCount(q, now));
  }

  lemma EventsMembers(q: seq<Slot<PrimaryEvent>>)
    ensures forall s :: s in q ==> s.val in Events(q)
    ensures forall e :: e in Events(q) ==> exists s :: s in q && s.val == e
  {
    forall s | s in q ensures s.val in Events(q) {
      var j :| 0 <= j < |q| && q[j] == s;
      assert Events(q)[j] == s.val;
    }
    forall e | e in Events(q) ensures exists s :: s in q && s.val == e {
      var j :| 0 <= j < |Events(q)| && Events(q)[j] == e;
      assert q[j] in q;
    }
  }

  /** The orders that are active then are those that were, in front, and those that came
      due; what stays scheduled is exactly what is not due. */
  lemma ActivateExactly(l: Lists, now: int)
    requires Sorted(l.scheduled)
    ensures l.active <= Activate(l, now).active
    ensures forall e :: e in Activate(l, now).active <==> e in l.active || CameDue(l, e, now)
    ensures forall s :: s in Activate(l, now).scheduled <==> s in l.scheduled && now < s.key
  {
    DuePrefix(l.scheduled, now);
    var due := l.scheduled[..DueCount(l.scheduled, now)];
    EventsMembers(due);
    forall e ensures e in Events(due) <==> CameDue(l, e, now) {
      if e in Events(due) {
        var s :| s in due && s.val == e;
        assert s in l.scheduled;
      }
      if CameDue(l, e, now) {
        var s :| s in l.scheduled && s.val == e && s.key <= now;
        assert s in due;
      }
    }
  }

  // ---- what each operation does to the lists ----

  /** An order with a trigger in the future is scheduled behind those that are due no later, unless it is scheduled
      already; any other joins the end of the active orders, unless it is active. */
  lemma SubmitExactly(l: Lists, e: PrimaryEvent, scheduled: Option<int>, now: int)
    ensures var m := Submit(l, e, scheduled, now);
            if scheduled.Some? && scheduled.value > now then
              && m.active == l.active
              && if exists s :: s in l.scheduled && s.val.wfiid == e.wfiid then m.scheduled == l.scheduled
                 else exists u :: IsFiled(l.scheduled, u, scheduled.value, e, m.scheduled)
            else
              && m.scheduled == l.scheduled
              && m.active == if exists a :: a in l.active && a.wfiid == e.wfiid then l.active else l.active + [e]
  {
    if scheduled.Some? {
      assert IsFiled(l.scheduled, UpperBound(l.scheduled, scheduled.value), scheduled.value, e,
                     Insert(l.scheduled, scheduled.value, e));
    }
  }

  /** The order is filed at `u`, behind no later trigger and before no earlier or equal one. */
  predicate IsFiled(q: seq<Slot<PrimaryEvent>>, u: nat, trigger: int, e: PrimaryEvent, r: seq<Slot<PrimaryEvent>>) {
    && u <= |q| && r == q[..u] + [Slot(trigger, e)] + q[u..]
    && (forall i :: 0 <= i < u ==> q[i].key <= trigger)
    && (u < |q| ==> trigger < q[u].key)
  }

  /** A scheduled order has the new priority and nothing else changes; an active one goes to the end with it. */
  lemma ReprioritizedExactly(l: Lists, wfiid: int, prio: int, m: Lists, i: nat)
    requires Unique(l.active) && Unique(Events(l.scheduled)) && Reprioritized(l, wfiid, prio, m)
    ensures i < |l.scheduled| && l.scheduled[i].val.wfiid == wfiid ==>
      && m.active == l.active
      && m.scheduled == l.scheduled[i := Slot(l.scheduled[i].key, PrimaryEvent(wfiid, prio, l.scheduled[i].val.parent))]
    ensures i < |l.active| && l.active[i].wfiid == wfiid && (forall s :: s in l.scheduled ==> s.val.wfiid != wfiid) ==>
      && m.scheduled == l.scheduled
      && m.active == l.active[..i] + l.active[i + 1..] + [PrimaryEvent(wfiid, prio, l.active[i].parent)]
    ensures (forall s :: s in l.scheduled ==> s.val.wfiid != wfiid) ==>
      (forall e :: e in l.active ==> e.wfiid != wfiid) ==> m == l
  {
    if i < |l.scheduled| && l.scheduled[i].val.wfiid == wfiid {
      assert l.scheduled[i] in l.scheduled;
      forall j | 0 <= j < |l.scheduled| && j != i ensures l.scheduled[j].val.wfiid != wfiid {
        assert Events(l.scheduled)[j].wfiid != Events(l.scheduled)[i].wfiid;
      }
    }
    if i < |l.active| && l.active[i].wfiid == wfiid {
      assert l.active[i] in l.active;
      EraseIsWithout(l.active, i);
    }
  }
}
