/** SegmentEventQueue as an object. A method is one step of the machine in Scheduler: what
    a thread does from taking the mutex to releasing it or starting to wait. */
module SegmentEventQueueClass {
  import opened Orders
  import opened SegmentMap
  import B = BackendQueues
  import C = Channels
  import R = RetryQueues
  import S = Scheduler
  import W = PrimaryWaiters
  import opened BackendQueueClass
  import opened RetryQueueClass
  import opened PrimaryQueueClass

  class SegmentEventQueue {
    var term: bool
    var segs: map<int, int>
    var backends: map<int, BackendQueue>
    const primary: PrimaryQueue
    const fixed: RetryQueue
    const delayed: RetryQueue
    const async: RetryQueue
    var retryWaiting: int
    var conns: set<int>
    var retryConns: set<int>
    ghost var segments: multiset<int>
    ghost var retries: multiset<int>
    ghost var sleepers: map<Waiter, S.Mark>
    ghost var woken: set<Waiter>

    ghost function Channels(): map<int, C.Channel>
      reads `backends, backends.Values
    {
      map id | id in backends :: backends[id].Abs()
    }

    ghost function Queues(): R.Queues
      reads fixed, delayed, async
    {
      R.Queues(fixed.Abs(), delayed.Abs(), async.Abs())
    }

    ghost function Abs(): S.State
      reads this, fixed, delayed, async, backends.Values
    {
      S.State(segs, segments, retries, Channels(), Queues(), sleepers, woken, conns, retryConns, term)
    }

    /** The backend queues are different objects. */
    ghost predicate Separate()
      reads `backends
    {
      forall a, b :: a in backends && b in backends && a != b ==> backends[a] != backends[b]
    }

    /** The retry queues are different objects, and the sleeping retry threads are counted. */
    ghost predicate Sound()
      reads `retryWaiting, `sleepers
    {
      fixed != delayed && fixed != async && delayed != async && retryWaiting == |sleepers|
    }

    constructor ()
      ensures Separate() && Sound() && Abs() == S.Start({}) && primary.Valid() && primary.Abs() == W.EMPTY
      ensures fresh(fixed) && fresh(delayed) && fresh(async) && fresh(primary)
    {
      term, segs, backends, conns, retryConns, retryWaiting := false, map[], map[], {}, {}, 0;
      segments, retries, sleepers, woken := multiset{}, multiset{}, map[], {};
      primary := new PrimaryQueue();
      fixed := new RetryQueue();
      delayed := new RetryQueue();
      async := new RetryQueue();
    }

    /** add_subworkflow_segment, add_async_segment and add_event_segment. */
    method AddSegment(segid: int)
      requires Separate() && segid !in backends && !term
      modifies `backends
      ensures Separate() && segid in backends && fresh(backends[segid])
      ensures backends == old(backends)[segid := backends[segid]]
      ensures Abs() == S.WithChannel(old(Abs()), segid, C.NEW_CHANNEL)
    {
      var be := new BackendQueue();
      backends := backends[segid := be];
      assert Channels() == old(Channels())[segid := C.NEW_CHANNEL];
    }

    // ---- segments ----

    /** Returns true if a retry runs for the order; otherwise one more segment runs. */
    method GrabSegmentInc(wfiid: int) returns (retrying: bool)
      modifies `segs, `segments
      ensures retrying == InRetry(old(segs), wfiid)
      ensures Abs() == S.GrabStep(old(Abs()), wfiid)
    {
      if wfiid in segs {
        if segs[wfiid] < 0 {
          return true;
        }
        segs := segs[wfiid := segs[wfiid] + 1];
      } else {
        segs := segs[wfiid := 1];
      }
      segments := segments + multiset{wfiid};
      return false;
    }

    /** A signal on the retry condition. */
    method SignalRetry(ghost pick: Option<Waiter>)
      requires Sound() && (pick.Some? ==> pick.value in sleepers)
      modifies `woken
      ensures Abs() == old(Abs()).(woken := if pick.Some? then old(woken) + {pick.value} else old(woken))
    {
      assert pick.Some? ==> pick.value in sleepers.Keys;
      if retryWaiting != 0 {
        woken := if pick.Some? then woken + {pick.value} else woken;
      }
    }

    /** The first half of a wait on the retry condition. */
    method Sleep(thread: Waiter, ghost mark: S.Mark)
      requires Sound() && thread !in sleepers
      modifies `sleepers, `retryWaiting
      ensures Sound() && sleepers == old(sleepers)[thread := mark]
    {
      assert sleepers[thread := mark].Keys == sleepers.Keys + {thread};
      assert |sleepers[thread := mark].Keys| == |sleepers.Keys| + 1;
      sleepers, retryWaiting := sleepers[thread := mark], retryWaiting + 1;
    }

    /** The second half. */
    method Rise(ghost thread: Waiter)
      requires Sound() && thread in sleepers
      modifies `sleepers, `woken, `retryWaiting
      ensures Sound() && sleepers == old(sleepers) - {thread} && woken == old(woken) - {thread}
    {
      assert (sleepers - {thread}).Keys == sleepers.Keys - {thread};
      assert |(sleepers - {thread}).Keys| == |sleepers.Keys| - 1;
      sleepers, woken, retryWaiting := sleepers - {thread}, woken - {thread}, retryWaiting - 1;
    }

    /** The last segment to go signals one retry thread. */
    method ReleaseSegment(wfiid: int, pick: Option<Waiter>)
      requires Sound() && wfiid in segs && wfiid in segments && (pick.Some? ==> pick.value in sleepers)
      modifies `segs, `segments, `woken
      ensures Sound() && Abs() == S.ReleaseStep(old(Abs()), wfiid, pick)
    {
      var last := EndSegment(wfiid);
      if last {
        SignalRetry(pick);
      }
    }

    method EndSegment(wfiid: int) returns (last: bool)
      requires wfiid in segs
      modifies `segs, `segments
      ensures last == (wfiid !in segs)
      ensures Abs() == old(Abs()).(segs := Release(old(segs), wfiid), segments := old(segments) - multiset{wfiid})
    {
      var n := segs[wfiid] - 1;
      last, segments := n == 0, segments - multiset{wfiid};
      segs := if n == 0 then segs - {wfiid} else segs[wfiid := n];
    }

    // ---- backend queues ----

    /** queue_subworkflow_event, queue_async_event and queue_workflow_event. */
    method Post(segid: int, key: B.Key, ind: int, item: B.Item, prio: int, mod: int, swfiid: int, parent: ParentInfo,
                ghost pick: Option<Waiter>)
      requires Separate() && segid in backends && backends[segid].Valid() && C.CanPick(backends[segid].Abs(), pick)
      modifies backends[segid]
      ensures backends[segid].Valid()
      ensures Abs() == S.PostStep(old(Abs()), segid, key, ind, item, prio, mod, swfiid, parent, pick)
    {
      backends[segid].Add(key, ind, item, prio, mod, swfiid, parent, pick);
      OneChannel(segid);
    }

    /** The end of init_subworkflow_queue and its kin. */
    method WakeupQueue(segid: int)
      requires Separate() && segid in backends
      modifies backends[segid]
      ensures Abs() == S.WithChannel(old(Abs()), segid, C.Wakeup(old(backends[segid].Abs())))
    {
      backends[segid].Wakeup();
      OneChannel(segid);
    }

    /** A change of one backend queue is a change of one channel. */
    twostate lemma OneChannel(segid: int)
      requires backends == old(backends) && segid in backends
      requires forall id :: id in backends && id != segid ==> backends[id].Abs() == old(backends[id].Abs())
      ensures Channels() == old(Channels())[segid := backends[segid].Abs()]
    {
    }

    /** The queue attends to a thread, which enters or was `woken`. */
    method AttendTo(segid: int, thread: Waiter, woken: bool) returns (r: Outcome<B.Entry>, found: Option<B.Pos>)
      requires Separate() && segid in backends && backends[segid].Valid()
      requires woken == (thread in backends[segid].signalled)
      modifies backends[segid]
      ensures backends[segid].Valid()
      ensures S.Down(old(Abs()), thread) || B.IsOutcome(old(backends[segid].Contents()), segs, found)
      ensures r.Returned? <==> S.Down(old(Abs()), thread)
      ensures r.Delivered? <==> !r.Returned? && found.Some?
      ensures r.Delivered? ==> r.value == Found(old(backends[segid].Contents()), found.value)
      ensures Abs() == S.WithChannel(old(Abs()), segid,
        C.Attend(old(backends[segid].Abs()), thread, S.Down(old(Abs()), thread), found))
    {
      r, found := backends[segid].Attend(thread, woken, term || thread.conn in conns, segs);
      OneChannel(segid);
    }

    static ghost function Found(q: B.Queue, pos: B.Pos): B.Entry
      requires C.HasEntry(q, pos)
    {
      q.entries[q.sub[pos.prio][pos.i].val]
    }

    /** One pass of get_backend_event_unlocked: the queue attends to the thread, and a delivered order has one
        more segment. */
    method GetBackendEvent(segid: int, thread: Waiter, woken: bool)
      returns (r: Outcome<B.Entry>, found: Option<B.Pos>)
      requires Separate() && segid in backends && backends[segid].Valid()
      requires woken == (thread in backends[segid].signalled)
      modifies `segs, `segments, backends[segid]
      ensures backends[segid].Valid()
      ensures S.Down(old(Abs()), thread) || B.IsOutcome(old(backends[segid].Contents()), old(segs), found)
      ensures r.Returned? <==> S.Down(old(Abs()), thread)
      ensures r.Delivered? <==> !r.Returned? && found.Some?
      ensures r.Delivered? ==> r.value == Found(old(backends[segid].Contents()), found.value)
      ensures Abs() == S.GetBackendStep(old(Abs()), segid, thread, found)
    {
      r, found := AttendTo(segid, thread, woken);
      if r.Delivered? {
        CountSegment(r.value.key.wfiid);
      }
    }

    method CountSegment(wfiid: int)
      modifies `segs, `segments
      ensures Abs() == old(Abs()).(segs := Grab(old(segs), wfiid), segments := old(segments) + multiset{wfiid})
    {
      segs, segments := Grab(segs, wfiid), segments + multiset{wfiid};
    }

    /** Wakes the sleepers of every backend queue; backend_broadcast leaves out the empty ones. */
    method WakeBackends(filledOnly: bool)
      requires Separate()
      modifies backends.Values
      ensures forall id :: id in backends ==> backends[id].Abs() == Woken(old(backends[id].Abs()), filledOnly)
    {
      var rest := backends.Keys;
      while rest != {}
        invariant rest <= backends.Keys
        invariant forall id :: id in rest ==> backends[id].Abs() == old(backends[id].Abs())
        invariant forall id :: id in backends.Keys - rest ==>
          backends[id].Abs() == Woken(old(backends[id].Abs()), filledOnly)
        decreases |rest|
      {
        var id := MinKey(rest);
        if !filledOnly || backends[id].sub != map[] {
          backends[id].Wakeup();
        }
        rest := rest - {id};
      }
    }

    method BroadcastBackends(filledOnly: bool)
      requires Separate()
      modifies backends.Values
      ensures Abs() == old(Abs()).(channels :=
        if filledOnly then S.BroadcastFilledBackends(old(Abs())) else S.BroadcastBackends(old(Abs())))
    {
      ghost var c := Channels();
      WakeBackends(filledOnly);
      forall id | id in backends ensures Channels()[id] == Woken(c[id], filledOnly) {
        assert c[id] == old(backends[id].Abs());
      }
    }

    static ghost function Woken(c: C.Channel, filledOnly: bool): C.Channel {
      if filledOnly then C.WakeupUnlessEmpty(c) else C.Wakeup(c)
    }

    /** A broadcast on the retry condition. */
    method WakeRetries()
      requires Sound() && woken <= sleepers.Keys
      modifies `woken
      ensures Sound() && Abs() == old(Abs()).(woken := sleepers.Keys)
    {
      if retryWaiting != 0 {
        woken := sleepers.Keys;
      }
    }

    /** Everybody who waits for anything is woken. */
    method Broadcast()
      requires Separate() && Sound() && woken <= sleepers.Keys
      modifies `woken, primary`cond, backends.Values
      ensures Sound() && primary.cond == old(primary.cond).Broadcast()
      ensures Abs() == old(Abs()).(woken := sleepers.Keys, channels := S.BroadcastBackends(old(Abs())))
    {
      primary.Wakeup();
      WakeRetries();
      BroadcastBackends(false);
    }

    method EndOneRetry(wfiid: int)
      modifies `segs, `retries
      ensures Abs() == old(Abs()).(segs := EndRetry(old(segs), wfiid), retries := old(retries) - multiset{wfiid})
    {
      segs, retries := segs - {wfiid}, retries - multiset{wfiid};
    }

    method ReleaseRetrySegment(wfiid: int)
      requires Separate() && wfiid in segs && segs[wfiid] == -1
      modifies `segs, `retries, backends.Values
      ensures Abs() == S.ReleaseRetryStep(old(Abs()), wfiid)
    {
      EndOneRetry(wfiid);
      BroadcastBackends(true);
    }

    // ---- connections and the end ----

    method TerminateConnection(id: int)
      requires Separate() && Sound() && woken <= sleepers.Keys
      modifies `conns, `woken, primary`cond, backends.Values
      ensures Sound() && Abs() == S.TerminateConnectionStep(old(Abs()), id)
      ensures primary.cond == old(primary.cond).Broadcast()
    {
      conns := conns + {id};
      Broadcast();
    }

    method Terminate()
      requires Separate() && Sound() && woken <= sleepers.Keys
      modifies `term, `woken, primary`cond, backends.Values
      ensures Sound() && Abs() == S.TerminateStep(old(Abs()))
      ensures primary.cond == old(primary.cond).Broadcast()
    {
      term := true;
      Broadcast();
    }

    method TerminateRetryConnection(id: int)
      requires Sound() && woken <= sleepers.Keys
      modifies `retryConns, `woken
      ensures Sound() && Abs() == S.Apply(old(Abs()), S.TerminateRetryConnection(id))
    {
      retryConns := retryConns + {id};
      WakeRetries();
    }

    method CleanupConnection(id: int)
      modifies `conns
      ensures Abs() == S.Apply(old(Abs()), S.CleanupConnection(id))
    {
      conns := conns - {id};
    }

    /** One pass of get_primary_event. */
    method GetPrimaryEvent(thread: Waiter, now: int) returns (r: Reply, ghost i: nat)
      requires primary.Valid()
      modifies primary
      ensures primary.Valid() && (r.Returned? <==> Down(thread))
      ensures r.Run? ==> W.Picks(old(primary.Abs()), now, i, r.event)
      ensures primary.Abs() == W.GetStep(old(primary.Abs()), thread.tid, now, Down(thread), if r.Run? then i else 0)
    {
      r, i := primary.GetPrimaryEvent(thread.tid, now, term || thread.conn in conns);
    }

    ghost predicate Down(thread: Waiter)
      reads `term, `conns
    {
      term || thread.conn in conns
    }

    // ---- retries ----

    method Queue(kind: R.Kind) returns (q: RetryQueue)
      ensures q == if kind.Fixed? then fixed else if kind.Delayed? then delayed else async
    {
      match kind
      case Fixed => return fixed;
      case Delayed => return delayed;
      case AsyncDelayed => return async;
    }

    method RequeueRetriesIntern()
      requires Sound() && woken <= sleepers.Keys
      modifies fixed, delayed, async, `woken
      ensures Sound() && Abs() == S.Requeue(old(Abs()), old(Queues()))
    {
      WakeRetries();
      fixed.SetMarks({});
      delayed.SetMarks({});
      async.SetMarks({});
    }

    method QueueRetryEvent(kind: R.Kind, wfiid: int, mod: int, parent: ParentInfo, addr: nat)
      requires Sound() && woken <= sleepers.Keys && R.Linked(Queues().Get(kind))
      modifies fixed, delayed, async, `woken
      ensures Sound() && Abs() == S.QueueRetryStep(old(Abs()), kind, wfiid, mod, parent, addr)
    {
      var rc := AddRetry(kind, wfiid, mod, parent, addr);
      if rc == 0 {
        RequeueRetriesIntern();
      }
    }

    method AddRetry(kind: R.Kind, wfiid: int, mod: int, parent: ParentInfo, addr: nat) returns (rc: int)
      requires fixed != delayed && fixed != async && delayed != async && R.Linked(Queues().Get(kind))
      modifies fixed, delayed, async
      ensures rc == if R.Rejects(old(Queues()).Get(kind), wfiid, mod) then -1 else 0
      ensures var q := old(Queues()).Get(kind);
              Abs() == old(Abs()).(queues := old(Queues()).Set(kind, R.AddRetry(q, wfiid, mod, parent, addr)))
    {
      var q := Queue(kind);
      rc := q.Add(wfiid, mod, parent, addr);
    }

    method RemoveWorkflowInstance(wfiid: int)
      requires Sound() && woken <= sleepers.Keys
      modifies fixed, delayed, async, `woken
      ensures Sound() && Abs() == S.RemoveInstanceStep(old(Abs()), wfiid)
    {
      delayed.RemoveInstance(wfiid);
      async.RemoveInstance(wfiid);
      fixed.RemoveInstance(wfiid);
      RequeueRetriesIntern();
    }

    /** The three scan loops of get_retry_event. */
    method ScanRetries(d: R.Delays) returns (p: R.Pick)
      requires R.Filed(Queues().fixed) && R.Filed(Queues().delayed) && R.Filed(Queues().async)
      ensures p == R.Scan(Queues(), segs, d) && (p.Pick? ==> R.HasEntry(Queues().Get(p.kind), p.i))
    {
      var fi, trig := fixed.Offer(segs, 0, -1);
      var ri, ari;
      ri, trig := delayed.Offer(segs, d.retry, trig);
      ari, trig := async.Offer(segs, d.async, trig);
      if trig == -1 {
        return R.NoPick;
      }
      if ari < |async.slots| {
        return R.Pick(R.AsyncDelayed, ari, trig);
      }
      if ri < |delayed.slots| {
        return R.Pick(R.Delayed, ri, trig);
      }
      return R.Pick(R.Fixed, fi, trig);
    }

    /** The second half of a wait: the thread deletes its marker if it is still there. */
    method WakeUp(thread: Waiter, mark: S.Mark)
      requires Sound() && thread in sleepers && sleepers[thread] == mark
      modifies `sleepers, `woken, `retryWaiting, fixed, delayed, async
      ensures Sound() && Abs() == S.Woken(old(Abs()), thread)
    {
      Rise(thread);
      if mark.Mark? {
        var q := Queue(mark.kind);
        q.SetMarks(q.marked - {mark.addr});
      }
    }

    /** Hands out what the scan found if it is due, and marks it and sleeps otherwise. */
    method ServeRetry(thread: Waiter, now: int, ghost d: R.Delays, p: R.Pick) returns (r: Outcome<R.RetryEntry>)
      requires Sound() && thread !in sleepers
      requires p.Pick? ==> R.HasEntry(Queues().Get(p.kind), p.i)
      modifies `segs, `retries, `sleepers, `retryWaiting, fixed, delayed, async
      ensures Sound() && Abs() == S.Serve(old(Abs()), thread, now, d, p)
      ensures r == Served(old(Abs()), now, p)
    {
      if p.NoPick? {
        Sleep(thread, S.NoMark);
        return Waiting;
      }
      var diff := if p.trigger != 0 then p.trigger - now else 0;
      if diff <= 0 {
        var e := TakeRetry(p.kind, p.i);
        return Delivered(e);
      }
      SleepOn(thread, p.kind, p.i, p.trigger, d);
      return Waiting;
    }

    /** mark_wait_retry up to its wait. */
    method SleepOn(thread: Waiter, kind: R.Kind, i: nat, ghost until: int, ghost d: R.Delays)
      requires Sound() && thread !in sleepers && i < |Queues().Get(kind).slots|
      modifies `sleepers, `retryWaiting, fixed, delayed, async
      ensures Sound()
      ensures var q := old(Queues()).Get(kind);
              && Queues() == old(Queues()).Set(kind, q.(marked := q.marked + {q.slots[i].val}))
              && sleepers == old(sleepers)[thread := S.Mark(kind, q.slots[i].val, until, d)]
    {
      var q := Queue(kind);
      var a := q.slots[i].val;
      Sleep(thread, S.Mark(kind, a, until, d));
      q.SetMarks(q.marked + {a});
    }

    /** Hands out an entry and marks its order as in retry. */
    method TakeRetry(kind: R.Kind, i: nat) returns (e: R.RetryEntry)
      requires Sound() && R.HasEntry(Queues().Get(kind), i)
      modifies `segs, `retries, fixed, delayed, async
      ensures var q := old(Queues()).Get(kind);
              && e == q.heap[q.slots[i].val]
              && Queues() == old(Queues()).Set(kind, R.HandOut(q, i))
      ensures segs == StartRetry(old(segs), e.wfiid) && retries == old(retries) + multiset{e.wfiid}
    {
      var q := Queue(kind);
      e := q.GetEvent(i);
      segs := StartRetry(segs, e.wfiid);
      retries := retries + multiset{e.wfiid};
    }

    method CleanupRetryConnection(id: int)
      modifies `retryConns
      ensures Abs() == old(Abs()).(retryConns := old(retryConns) - {id})
    {
      retryConns := retryConns - {id};
    }

    /** What get_retry_event does on entry and after a wait. */
    method LookForRetry(thread: Waiter, now: int, d: R.Delays) returns (r: Outcome<R.RetryEntry>)
      requires Sound() && thread !in sleepers
      requires R.Filed(Queues().fixed) && R.Filed(Queues().delayed) && R.Filed(Queues().async)
      modifies `segs, `retries, `sleepers, `retryWaiting, `retryConns, fixed, delayed, async
      ensures Sound() && Abs() == S.LookForRetry(old(Abs()), thread, now, d)
      ensures r == Answer(old(Abs()), thread, now, d)
    {
      if term || thread.conn in conns {
        return Outcome.Returned;
      }
      if thread.conn in retryConns {
        CleanupRetryConnection(thread.conn);
        return Outcome.Returned;
      }
      var p;
      r, p := ScanAndServe(thread, now, d);
    }

    method ScanAndServe(thread: Waiter, now: int, d: R.Delays) returns (r: Outcome<R.RetryEntry>, p: R.Pick)
      requires Sound() && thread !in sleepers
      requires R.Filed(Queues().fixed) && R.Filed(Queues().delayed) && R.Filed(Queues().async)
      modifies `segs, `retries, `sleepers, `retryWaiting, fixed, delayed, async
      ensures p == R.Scan(old(Queues()), old(segs), d) && (p.Pick? ==> R.HasEntry(old(Queues()).Get(p.kind), p.i))
      ensures Sound() && Abs() == S.Serve(old(Abs()), thread, now, d, p)
      ensures r == Served(old(Abs()), now, p)
    {
      p := ScanRetries(d);
      r := ServeRetry(thread, now, d, p);
    }

    /** What a thread is given. */
    static function Answer(s: S.State, thread: Waiter, now: int, d: R.Delays): Outcome<R.RetryEntry> {
      if S.Down(s, thread) || thread.conn in s.retryConns then Outcome.Returned
      else Served(s, now, R.Scan(s.queues, s.segs, d))
    }

    static function Served(s: S.State, now: int, p: R.Pick): Outcome<R.RetryEntry>
      requires p.Pick? ==> R.HasEntry(s.queues.Get(p.kind), p.i)
    {
      if p.Pick? && S.Due(p.trigger, now) then Delivered(S.Picked(s, p)) else Waiting
    }

    /** One pass of get_retry_event by `thread`, which enters or wakes from a wait. */
    method GetRetryEvent(thread: Waiter, asleep: bool, mark: S.Mark, now: int, d: R.Delays)
      returns (r: Outcome<R.RetryEntry>)
      requires Sound() && asleep == (thread in sleepers) && (asleep ==> sleepers[thread] == mark)
      requires R.Filed(Queues().fixed) && R.Filed(Queues().delayed) && R.Filed(Queues().async)
      modifies `segs, `retries, `sleepers, `woken, `retryWaiting, `retryConns, fixed, delayed, async
      ensures Sound() && Abs() == S.GetRetryStep(old(Abs()), thread, now, d)
      ensures r == Answer(S.Woken(old(Abs()), thread), thread, now, d)
      ensures var s := S.Woken(old(Abs()), thread);
              var p := R.Scan(s.queues, s.segs, d);
              r.Delivered? <==>
                && !s.term && thread.conn !in s.conns && thread.conn !in s.retryConns
                && p.Pick? && (p.trigger == 0 || p.trigger <= now)
    {
      if asleep {
        WakeUp(thread, mark);
      }
      r := LookForRetry(thread, now, d);
    }
  }
}
