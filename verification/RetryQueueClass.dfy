/** RetryQueue as an object: methods run under the caller's mutex. */
module RetryQueueClass {
  import opened Orders
  import opened Multimap
  import opened SegmentMap
  import R = RetryQueues

  class RetryQueue {
    var heap: map<nat, R.RetryEntry>
    var slots: seq<Slot<nat>>
    var rwmap: map<int, nat>
    var marked: set<nat>
    ghost var log: seq<R.Op>

    ghost function Abs(): R.RetryQueue
      reads this
    {
      R.RetryQueue(heap, slots, rwmap, marked, log)
    }

    constructor ()
      ensures Abs() == R.NO_RETRIES
    {
      heap, slots, rwmap, marked, log := map[], [], map[], {}, [];
    }

    /** Moves the order's entry to an earlier time. */
    method Requeue(wfiid: int, mod: int)
      requires wfiid in rwmap && rwmap[wfiid] in heap
      modifies this
      ensures Abs() == R.Requeue(old(Abs()), wfiid, mod)
    {
      log := log + [R.Asked(wfiid, mod)];
      var a := rwmap[wfiid];
      heap := heap[a := heap[a].(mod := mod)];
      slots := R.Unlink(slots, a);
      slots := Insert(slots, mod, a);
    }

    /** Queues a new entry, allocated at `addr`. */
    method Enqueue(wfiid: int, mod: int, parent: ParentInfo, addr: nat)
      modifies this
      ensures Abs() == R.Enqueue(old(Abs()), wfiid, mod, parent, addr)
    {
      log := log + [R.Asked(wfiid, mod)];
      heap := heap[addr := R.RetryEntry(wfiid, mod, parent)];
      slots := Insert(slots, mod, addr);
      rwmap := rwmap[wfiid := addr];
    }

    /** Returns 0 if the order is queued or moved forward, -1 if it stays as it was. */
    method Add(wfiid: int, mod: int, parent: ParentInfo, addr: nat) returns (rc: int)
      requires wfiid in rwmap ==> rwmap[wfiid] in heap
      modifies this
      ensures Abs() == R.AddRetry(old(Abs()), wfiid, mod, parent, addr)
      ensures rc == if R.Rejects(old(Abs()), wfiid, mod) then -1 else 0
    {
      if wfiid in rwmap {
        if mod < heap[rwmap[wfiid]].mod {
          Requeue(wfiid, mod);
          return 0;
        }
        log := log + [R.Asked(wfiid, mod)];
        return -1;
      }
      Enqueue(wfiid, mod, parent, addr);
      return 0;
    }

    method RemoveInstance(wfiid: int)
      modifies this
      ensures Abs() == R.RemoveOrder(old(Abs()), wfiid)
    {
      if wfiid in rwmap {
        var a := rwmap[wfiid];
        heap := heap - {a};
        slots := R.Unlink(slots, a);
        rwmap := rwmap - {wfiid};
        log := log + [R.Gone(wfiid)];
      }
    }

    method GetEvent(i: nat) returns (e: R.RetryEntry)
      requires i < |slots| && slots[i].val in heap
      modifies this
      ensures e == old(heap[slots[i].val])
      ensures Abs() == R.HandOut(old(Abs()), i)
    {
      var a := slots[i].val;
      e := heap[a];
      rwmap := rwmap - {e.wfiid};
      heap := heap - {a};
      slots := Erase(slots, i);
      log := log + [R.Gone(e.wfiid)];
    }

    /** The loop of merge over the other queue, which is cleared; neither lookup map changes. */
    method Merge(rq: RetryQueue)
      requires rq != this
      modifies `heap, `slots, rq`heap, rq`slots
      ensures Abs() == R.Merge(old(Abs()), old(rq.Abs())) && rq.Abs() == R.MergedAway(old(rq.Abs()))
    {
      ghost var before := slots;
      for i := 0 to |rq.slots|
        invariant heap == old(heap) && rq.heap == old(rq.heap) && rq.slots == old(rq.slots)
        invariant R.InsertAll(slots, rq.slots[i..]) == R.InsertAll(before, rq.slots)
      {
        assert rq.slots[i..][1..] == rq.slots[i + 1..];
        slots := Insert(slots, rq.slots[i].key, rq.slots[i].val);
      }
      heap := heap + rq.heap;
      rq.heap, rq.slots := map[], [];
    }

    method SetMarks(marks: set<nat>)
      modifies this
      ensures Abs() == old(Abs()).(marked := marks)
    {
      marked := marks;
    }

    /** One scan loop of get_retry_event: the position of the entry this queue offers, or
        the end, and the earliest trigger so far. */
    method Offer(segs: map<int, int>, delay: int, trigger: int) returns (i: nat, trig: int)
      requires R.Filed(Abs())
      ensures (i, trig) == R.Offer(Abs(), segs, delay, trigger)
    {
      i, trig := 0, trigger;
      while i < |slots|
        invariant i <= |slots|
        invariant R.FirstFrom(Abs(), segs, i) == R.FirstFrom(Abs(), segs, 0)
      {
        var e := heap[slots[i].val];
        if InProgress(segs, e.wfiid) || slots[i].val in marked {
          i := i + 1;
          continue;
        }
        if trig != -1 && e.mod + delay > trig {
          i := |slots|;
        } else {
          trig := e.mod + delay;
        }
        return;
      }
    }
  }
}
