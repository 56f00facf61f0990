/** PrimaryQueue as an object, with the reference lists as ghost state. */
module PrimaryQueueClass {
  import opened Orders
  import opened Multimap
  import opened Conditions
  import opened PrimaryQueues
  import W = PrimaryWaiters

  /** One pass of get_primary_event: an order, or how long to wait for one, if not forever. */
  datatype Reply = Returned | Run(event: PrimaryEvent) | WaitFor(seconds: int) | WaitForever

  class PrimaryQueue {
    var pq: map<int, seq<PrimaryEvent>>
    var pmap: map<int, int>
    var psq: seq<Slot<PrimaryEvent>>
    var psmap: map<int, int>
    var cond: Condition
    ghost var lists: Lists
    ghost var deadlines: map<int, Option<int>>

    ghost function Fields(): PrimaryQueues.Fields
      reads this
    {
      PrimaryQueues.Fields(pq, pmap, psq, psmap)
    }

    ghost predicate Valid()
      reads this
    {
      Agree(Fields(), lists)
    }

    ghost function Abs(): W.State
      reads this
    {
      W.State(lists, cond, deadlines)
    }

    constructor ()
      ensures Valid() && Abs() == W.EMPTY
    {
      pq, pmap, psq, psmap, lists := map[], map[], [], map[], Lists([], []);
      cond, deadlines := NOBODY, map[];
    }

    method AddToPrimary(e: PrimaryEvent)
      requires Valid() && !IsScheduled(lists.scheduled, e.wfiid)
      modifies `pq, `pmap, `lists
      ensures Valid() && lists == Arrive(old(lists), e)
    {
      Lookups(Fields(), lists, e.wfiid);
      if e.wfiid !in pmap {
        AddedActiveAgrees(Fields(), lists, e);
        var q := if e.prio in pq then pq[e.prio] else [];
        pq := pq[e.prio := q + [e]];
        pmap := pmap[e.wfiid := e.prio];
        lists := Arrive(lists, e);
      }
    }

    /** True if the order is new and the first in the list and no order is active. */
    method AddToScheduled(trigger: int, e: PrimaryEvent) returns (first: bool)
      requires Valid() && (IsScheduled(lists.scheduled, e.wfiid) || !IsActive(lists.active, e.wfiid))
      modifies `psq, `psmap, `lists
      ensures Valid() && lists == Schedule(old(lists), trigger, e)
      ensures first <==> W.AsksForBroadcast(old(lists), trigger, e)
    {
      Lookups(Fields(), lists, e.wfiid);
      EmptyIff(Fields(), lists);
      first := e.wfiid !in psmap && pq == map[] && UpperBound(psq, trigger) == 0;
      assert first <==> W.AsksForBroadcast(lists, trigger, e);
      if e.wfiid !in psmap {
        AddedScheduledAgrees(Fields(), lists, trigger, e);
        psq := Insert(psq, trigger, e);
        psmap := psmap[e.wfiid := trigger];
        lists := Schedule(lists, trigger, e);
      }
    }

    method Wakeup()
      modifies `cond
      ensures cond == old(cond).Broadcast()
    {
      if cond.waiting != 0 {
        cond := cond.Broadcast();
      }
    }

    /** Adds an order and, with `signal`, wakes whom that concerns. */
    method Add(e: PrimaryEvent, scheduled: Option<int>, now: int, signal: bool, pick: Option<int>)
      requires Valid() && CanSubmit(lists, e.wfiid, scheduled, now)
      modifies `pq, `pmap, `psq, `psmap, `lists, `cond
      ensures Valid() && lists == Submit(old(lists), e, scheduled, now)
      ensures cond == if signal then W.Notified(old(Abs()), e, scheduled, now, pick) else old(cond)
    {
      if scheduled.Some? && scheduled.value > now {
        var first := AddToScheduled(scheduled.value, e);
        if first && signal {
          Wakeup();
        }
      } else {
        AddToPrimary(e);
        if signal && cond.waiting != 0 {
          cond := cond.Notify(pick);
        }
      }
    }

    /** The loop of init_primary_queue, which wakes everybody at the end. */
    method InitPrimaryQueue(orders: seq<W.Order>, now: int)
      requires Valid() && W.CanSubmitAll(lists, orders, now)
      modifies `pq, `pmap, `psq, `psmap, `lists, `cond
      ensures Valid() && lists == W.SubmitAll(old(lists), orders, now) && cond == old(cond).Broadcast()
    {
      var k := 0;
      while k < |orders|
        invariant k <= |orders| && Valid() && cond == old(cond)
        invariant W.CanSubmitAll(lists, orders[k..], now)
        invariant W.SubmitAll(lists, orders[k..], now) == W.SubmitAll(old(lists), orders, now)
      {
        assert orders[k..][1..] == orders[k + 1..];
        Add(orders[k].e, orders[k].scheduled, now, false, None);
        k := k + 1;
      }
      Wakeup();
    }

    /** Moves the first scheduled order, which is due, to the sub-queue of its priority. */
    method ActivateFirst()
      requires Valid() && psq != []
      modifies `pq, `pmap, `psq, `psmap, `lists
      ensures Valid()
      ensures lists == Lists(old(lists).active + [old(psq)[0].val], old(lists).scheduled[1..])
    {
      var e := psq[0].val;
      assert psq[0] in psq;
      RemovedScheduledAgrees(Fields(), lists, 0);
      assert Erase(psq, 0) == psq[1..];
      psmap := psmap - {e.wfiid};
      psq := psq[1..];
      lists := lists.(scheduled := lists.scheduled[1..]);
      Lookups(Fields(), lists, e.wfiid);
      AddedActiveAgrees(Fields(), lists, e);
      AddToPrimary(e);
    }

    method ActivateDue(now: int)
      requires Valid()
      modifies `pq, `pmap, `psq, `psmap, `lists
      ensures Valid() && lists == Activate(old(lists), now)
      ensures psq != [] ==> psq[0].key > now
    {
      while psq != [] && psq[0].key <= now
        invariant Valid() && Activate(lists, now) == Activate(old(lists), now)
        decreases |psq|
      {
        ActivateStep(lists, now);
        ActivateFirst();
      }
      assert lists.active + [] == lists.active;
    }

    /** Erases position `k` of the sub-queue of `p`, the sub-queue if that was the last
        order in it, and the order's lookup entry. */
    method EraseAt(p: int, k: nat)
      requires Valid() && p in pq && k < |pq[p]|
      modifies `pq, `pmap, `lists
      ensures Valid()
      ensures lists == old(lists).(active := Without(old(lists).active, old(pq[p][k].wfiid)))
      ensures old(pq[p][k].wfiid) in old(pmap)
      ensures pmap == old(pmap) - {old(pq[p][k].wfiid)}
    {
      var q := pq[p];
      var w := q[k].wfiid;
      InLane(Fields(), lists, p, k);
      RemovedActiveAgrees(Fields(), lists, w);
      OfPrioUnique(lists.active, p);
      EraseIsWithout(q, k);
      pmap := pmap - {w};
      q := q[..k] + q[k + 1..];
      pq := if q == [] then pq - {p} else pq[p := q];
      lists := lists.(active := Without(lists.active, w));
    }

    /** Takes the head of the lane of the lowest priority. */
    method GetEvent() returns (e: PrimaryEvent, ghost i: nat)
      requires Valid() && pq != map[]
      modifies `pq, `pmap, `lists
      ensures Valid() && IsNext(old(lists).active, i) && e == old(lists).active[i]
      ensures lists == old(lists).(active := Without(old(lists).active, e.wfiid))
    {
      var p := MinKey(pq.Keys);
      i := HeadIsNext(Fields(), lists, p);
      e := pq[p][0];
      EraseAt(p, 0);
    }

    /** The first half of `wait`: without an active order and with every trigger in the future. */
    method Wait(t: int, now: int) returns (seconds: Option<int>)
      requires Valid() && pq == map[] && (psq != [] ==> psq[0].key > now)
      modifies `cond, `deadlines
      ensures cond == old(cond).Enter(t) && deadlines == old(deadlines)[t := W.FirstTrigger(lists)]
      ensures seconds == if psq == [] then None else Some(psq[0].key - now)
    {
      cond, deadlines := cond.Enter(t), deadlines[t := W.FirstTrigger(lists)];
      return if psq == [] then None else Some(psq[0].key - now);
    }

    /** The second half of `wait`, if the thread was in one. */
    method Resume(t: int)
      modifies `cond, `deadlines
      ensures cond == old(cond).Resume(t) && deadlines == old(deadlines) - {t}
    {
      cond, deadlines := cond.Resume(t), deadlines - {t};
    }

    /** When everything due is active, the next order is taken or waited for. */
    method TakeOrWait(t: int, now: int) returns (r: Reply, ghost i: nat)
      requires Valid() && (psq != [] ==> psq[0].key > now)
      modifies `pq, `pmap, `lists, `cond, `deadlines
      ensures Valid() && !r.Returned? && (r.Run? <==> old(lists).active != [])
      ensures r.Run? ==> IsNext(old(lists).active, i) && r.event == old(lists).active[i]
      ensures Abs() == W.TakeOrWait(old(Abs()), t, if r.Run? then i else 0)
      ensures r.WaitFor? ==> r.seconds > 0 && Some(now + r.seconds) == W.FirstTrigger(lists)
      ensures r.WaitForever? ==> lists.scheduled == []
    {
      i := 0;
      EmptyIff(Fields(), lists);
      if pq != map[] {
        var e;
        e, i := GetEvent();
        return Run(e), i;
      }
      var seconds := Wait(t, now);
      return if seconds.None? then WaitForever else WaitFor(seconds.value), i;
    }

    /** One pass of get_primary_event by a thread that enters or was woken, and returns if it is `down`. The
        next order to run is the first active one of the lowest priority number, after everything due
        became active; without any, the wait is positive and ends with the first scheduled trigger. */
    method GetPrimaryEvent(t: int, now: int, down: bool) returns (r: Reply, ghost i: nat)
      requires Valid()
      modifies `pq, `pmap, `psq, `psmap, `lists, `cond, `deadlines
      ensures Valid() && (r.Returned? <==> down)
      ensures r.Run? <==> !down && Activate(old(lists), now).active != []
      ensures r.Run? ==> W.Picks(old(Abs()), now, i, r.event)
      ensures Abs() == W.GetStep(old(Abs()), t, now, down, if r.Run? then i else 0)
      ensures r.WaitFor? ==> r.seconds > 0 && Some(now + r.seconds) == W.FirstTrigger(lists)
      ensures r.WaitForever? ==> lists.scheduled == []
    {
      Resume(t);
      if down {
        return Returned, 0;
      }
      ghost var l := Activate(lists, now);
      ActivateDue(now);
      assert lists == l && Abs() == W.Left(old(Abs()), t).(lists := l);
      r, i := TakeOrWait(t, now);
    }

    /** A scheduled order keeps its place; an active one goes to the end of its new lane. */
    method Reprioritize(wfiid: int, prio: int, now: int, pick: Option<int>) returns (found: bool)
      requires Valid()
      modifies `pq, `pmap, `psq, `psmap, `lists, `cond
      ensures Valid() && (found <==> W.Known(old(lists), wfiid))
      ensures cond == if IsActive(old(lists).active, wfiid) && !IsScheduled(old(lists).scheduled, wfiid)
                      then old(cond).Notify(pick) else old(cond)
      ensures Reprioritized(old(lists), wfiid, prio, lists)
    {
      Lookups(Fields(), lists, wfiid);
      if wfiid in psmap {
        var k := PositionOfSlot(psq, wfiid);
        ScheduledAt(Fields(), lists, wfiid);
        ReprioritizedScheduledAgrees(Fields(), lists, k, prio);
        psq := psq[k := psq[k].(val := psq[k].val.(prio := prio))];
        lists := lists.(scheduled := psq);
        return true;
      }
      if wfiid !in pmap {
        assert !IsActive(lists.active, wfiid) && !IsScheduled(lists.scheduled, wfiid);
        return false;
      }
      ghost var e := ActiveAt(Fields(), lists, wfiid);
      var k := PositionOf(pq[pmap[wfiid]], wfiid);
      var parent := pq[pmap[wfiid]][k].parent;
      EraseAt(pmap[wfiid], k);
      WithoutMembers(old(lists).active, wfiid);
      Add(PrimaryEvent(wfiid, prio, parent), None, now, true, pick);
      return true;
    }

    /** The order is taken out of its structure and added again under the new schedule, and everybody is woken. */
    method Resched(wfiid: int, scheduled: Option<int>, now: int, pick: Option<int>) returns (found: bool)
      requires Valid()
      modifies `pq, `pmap, `psq, `psmap, `lists, `cond
      ensures Valid() && (found <==> W.Known(old(lists), wfiid))
      ensures Rescheduled(old(lists), wfiid, scheduled, now, lists)
      ensures cond == if found then old(cond).Broadcast() else old(cond)
    {
      found := ReschedIntern(wfiid, scheduled, now, pick);
      if found {
        Wakeup();
      }
    }

    /** Takes an order out of the scheduled queue and its lookup. */
    method TakeScheduled(wfiid: int) returns (e: PrimaryEvent, ghost k: nat)
      requires Valid() && wfiid in psmap
      modifies `psq, `psmap, `lists
      ensures Valid() && !IsScheduled(lists.scheduled, wfiid) && !IsActive(lists.active, wfiid)
      ensures k < |old(lists).scheduled| && e == old(lists).scheduled[k].val && e.wfiid == wfiid
      ensures lists == old(lists).(scheduled := Erase(old(lists).scheduled, k))
    {
      var i := PositionOfSlot(psq, wfiid);
      k := i;
      ScheduledAt(Fields(), lists, wfiid);
      e := psq[i].val;
      RemovedScheduledAgrees(Fields(), lists, i);
      psmap := psmap - {wfiid};
      psq := Erase(psq, i);
      lists := lists.(scheduled := Erase(lists.scheduled, i));
      Lookups(Fields(), lists, wfiid);
    }

    /** Takes an order out of its sub-queue and its lookup. */
    method TakeActive(wfiid: int) returns (e: PrimaryEvent)
      requires Valid() && wfiid in pmap
      modifies `pq, `pmap, `lists
      ensures Valid() && !IsScheduled(lists.scheduled, wfiid) && !IsActive(lists.active, wfiid)
      ensures e in old(lists).active && e.wfiid == wfiid
      ensures lists == old(lists).(active := Without(old(lists).active, wfiid))
    {
      ghost var a := ActiveAt(Fields(), lists, wfiid);
      var p := pmap[wfiid];
      var k := PositionOf(pq[p], wfiid);
      e := pq[p][k];
      EraseAt(p, k);
      Lookups(Fields(), lists, wfiid);
    }

    method ReschedIntern(wfiid: int, scheduled: Option<int>, now: int, pick: Option<int>) returns (found: bool)
      requires Valid()
      modifies `pq, `pmap, `psq, `psmap, `lists, `cond
      ensures Valid() && (found <==> W.Known(old(lists), wfiid))
      ensures Rescheduled(old(lists), wfiid, scheduled, now, lists)
      ensures cond.Broadcast() == old(cond).Broadcast() && (!found ==> cond == old(cond))
    {
      Lookups(Fields(), lists, wfiid);
      if wfiid in psmap {
        ghost var k;
        var e;
        e, k := TakeScheduled(wfiid);
        W.NotifiedBroadcast(Abs(), e, scheduled, now, pick);
        Add(e, scheduled, now, true, pick);
        return true;
      }
      if wfiid in pmap {
        var e := TakeActive(wfiid);
        W.NotifiedBroadcast(Abs(), e, scheduled, now, pick);
        Add(e, scheduled, now, true, pick);
        return true;
      }
      return false;
    }

    /** As the code has it. An active order is removed. Of a scheduled order only the lookup
        entry goes: it stays in the scheduled queue, and no lists agree with the fields then. */
    method RemoveWorkflowOrder(wfiid: int) returns (found: bool)
      requires Valid()
      modifies `pq, `pmap, `psmap, `lists
      ensures found <==> W.Known(old(lists), wfiid)
      ensures wfiid !in old(psmap) ==> Valid() && lists == old(lists).(active := Without(old(lists).active, wfiid))
      ensures wfiid in old(psmap) ==> exists s :: s in psq && s.val.wfiid == wfiid
      ensures (exists l :: Agree(Fields(), l)) <==> !IsScheduled(old(lists).scheduled, wfiid)
    {
      Lookups(Fields(), lists, wfiid);
      if wfiid in psmap {
        assert IsScheduled(psq, wfiid);
        psmap := psmap - {wfiid};
        return true;
      }
      if wfiid !in pmap {
        WithoutAbsent(lists.active, wfiid);
        return false;
      }
      ghost var a := ActiveAt(Fields(), lists, wfiid);
      EraseAt(pmap[wfiid], PositionOf(pq[pmap[wfiid]], wfiid));
      return true;
    }
  }

  /** An order that is scheduled and removed at once is still first in the scheduled queue. */
  method ScheduledOrderStays(e: PrimaryEvent, trigger: int, now: int) returns (q: PrimaryQueue, found: bool)
    requires now < trigger
    ensures found && q.psq == [Slot(trigger, e)] && forall l :: !Agree(q.Fields(), l)
  {
    q := new PrimaryQueue();
    assert forall w :: !IsActive(q.lists.active, w) && !IsScheduled(q.lists.scheduled, w);
    q.Add(e, Some(trigger), now, true, None);
    assert q.lists.scheduled == [Slot(trigger, e)];
    assert IsScheduled(q.lists.scheduled, e.wfiid);
    found := q.RemoveWorkflowOrder(e.wfiid);
  }

  /** The lookup maps know exactly what is in the lists. */
  lemma Lookups(f: Fields, l: Lists, w: int)
    requires Agree(f, l)
    ensures w in f.pmap <==> IsActive(l.active, w)
    ensures w in f.psmap <==> IsScheduled(l.scheduled, w)
  {
  }

  lemma InLane(f: Fields, l: Lists, p: int, k: nat)
    requires Agree(f, l) && p in f.pq && k < |f.pq[p]|
    ensures var w := f.pq[p][k].wfiid; w in f.pmap && f.pmap[w] == p
  {
    OfPrioMembers(l.active, p);
    assert f.pq[p][k] in OfPrio(l.active, p);
  }

  /** There is no empty sub-queue, so no sub-queue means no active order. */
  lemma EmptyIff(f: Fields, l: Lists)
    requires SubQueues(f.pq, l.active)
    ensures f.pq == map[] <==> l.active == []
  {
    if l.active == [] {
      assert forall p :: p !in f.pq;
    } else {
      assert OfPrio(l.active, l.active[0].prio) != [];
      assert l.active[0].prio in f.pq;
    }
  }

  lemma ScheduledAt(f: Fields, l: Lists, w: int)
    requires Agree(f, l) && w in f.psmap
    ensures var k := PositionOfSlot(f.psq, w);
            k < |f.psq| && forall i :: 0 <= i < |f.psq| && i != k ==> f.psq[i].val.wfiid != w
  {
    assert IsScheduled(f.psq, w);
    var s :| s in f.psq && s.val.wfiid == w;
    var j :| 0 <= j < |f.psq| && f.psq[j] == s;
    var k := PositionOfSlot(f.psq, w);
    forall i | 0 <= i < |f.psq| && i != k ensures f.psq[i].val.wfiid != w {
      assert Events(f.psq)[i].wfiid != Events(f.psq)[k].wfiid;
    }
  }

  lemma ActiveAt(f: Fields, l: Lists, w: int) returns (e: PrimaryEvent)
    requires Agree(f, l) && w in f.pmap
    ensures e in l.active && e.wfiid == w && f.pmap[w] == e.prio && e.prio in f.pq
    ensures var q := f.pq[e.prio]; PositionOf(q, w) < |q| && q[PositionOf(q, w)] == e
  {
    assert IsActive(l.active, w);
    e :| e in l.active && e.wfiid == w;
    OfPrioMembers(l.active, e.prio);
    var q := f.pq[e.prio];
    assert e in q;
    OfPrioUnique(l.active, e.prio);
    var j :| 0 <= j < |q| && q[j] == e;
  }
}
