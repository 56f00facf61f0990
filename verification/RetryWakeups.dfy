/** The threads that wait for a retry: which step leaves an entry that nobody will look at in time. */
module RetryWakeups {
  import opened Multimap
  import opened Orders
  import opened SegmentMap
  import B = BackendQueues
  import R = RetryQueues
  import opened Scheduler
  import opened SchedulerSafety

  /** Unless it is woken, the thread sleeps past the time of the entry, by the delays that it looked with: without a
      time-out or with a later one. */
  predicate Late(s: State, u: Waiter, k: R.Kind, x: nat)
    requires x in s.queues.Get(k).heap
  {
    && u in s.sleepers
    && (s.sleepers[u].NoMark? || s.sleepers[u].until > R.TriggerOf(s.queues, s.sleepers[u].delays, k, x))
  }

  /** The entry could be picked, and the thread sleeps past its time. */
  predicate Misses(s: State, u: Waiter, k: R.Kind, x: nat) {
    R.Eligible(s.queues.Get(k), s.segs, x) && Late(s, u, k, x)
  }

  /** A thread misses an entry, and no thread is on its way. */
  ghost predicate Neglected(s: State) {
    s.woken == {} && exists u, k, x :: Misses(s, u, k, x)
  }

  /** A thread that is terminated, or whose connection is for retries, returns without a retry. */
  predicate Leaves(s: State, thread: Waiter) {
    Down(s, thread) || thread.conn in s.retryConns
  }

  /** The entry that the thread itself sleeps on. */
  predicate IsOwn(s: State, thread: Waiter, k: R.Kind, x: nat) {
    thread in s.sleepers && s.sleepers[thread].IsOn(k, x)
  }

  /** The thread can pick the entry: its order is free and no other thread has marked it. */
  predicate IsOpen(s: State, thread: Waiter, k: R.Kind, x: nat) {
    && x in s.queues.Get(k).heap
    && !InProgress(s.segs, s.queues.Get(k).heap[x].wfiid)
    && (x !in s.queues.Get(k).marked || IsOwn(s, thread, k, x))
  }

  /** The thread can pick the entry, and another sleeps past its time. */
  ghost predicate LeavesEntry(s: State, thread: Waiter, k: R.Kind, x: nat) {
    IsOpen(s, thread, k, x) && exists u :: u != thread && Late(s, u, k, x)
  }

  /** The entry can still be picked when a thread has what it found: while that is not due only the entry itself
      is gone, and otherwise its order is in progress. */
  predicate Stays(s: State, now: int, d: R.Delays, kind: R.Kind, i: nat, k: R.Kind, x: nat)
    requires R.HasEntry(s.queues.Get(kind), i) && x in s.queues.Get(k).heap
  {
    var a := s.queues.Get(kind).slots[i].val;
    if Due(R.TriggerOf(s.queues, d, kind, a), now) then
      s.queues.Get(k).heap[x].wfiid != s.queues.Get(kind).heap[a].wfiid
    else !(k == kind && x == a)
  }

  /** The entry that the thread takes or sleeps on, by the order of triggers. */
  ghost predicate Finds(s: State, thread: Waiter, d: R.Delays, kind: R.Kind, i: nat) {
    R.IsFound(Woken(s, thread).queues, s.segs, d, kind, i)
  }

  ghost predicate FindsDue(s: State, thread: Waiter, now: int, d: R.Delays) {
    exists kind: R.Kind, i: nat ::
      && Finds(s, thread, d, kind, i)
      && Due(R.TriggerOf(s.queues, d, kind, s.queues.Get(kind).slots[i].val), now)
  }

  /** Of several entries the thread finds one and leaves another; either it alone was woken, or, with delays that
      have changed, it gives up the one that it has slept on. */
  ghost predicate LeavesSecond(s: State, thread: Waiter, now: int, d: R.Delays) {
    exists kind: R.Kind, i: nat, k: R.Kind, x: nat :: IsSecond(s, thread, now, d, kind, i, k, x)
  }

  ghost predicate IsSecond(s: State, thread: Waiter, now: int, d: R.Delays, kind: R.Kind, i: nat, k: R.Kind, x: nat) {
    && Finds(s, thread, d, kind, i) && LeavesEntry(s, thread, k, x)
    && (thread in s.woken || IsOwn(s, thread, k, x))
    && Stays(s, now, d, kind, i, k, x)
  }

  /** Nobody else is on the way, and the thread was woken and leaves because it is terminated; or goes to sleep over an
      earliest trigger of -1; or finds one of several entries. */
  ghost predicate NeglectsInPass(s: State, thread: Waiter, now: int, d: R.Delays) {
    && s.woken <= {thread}
    && if Leaves(s, thread) then thread in s.woken && exists k, x :: LeavesEntry(s, thread, k, x)
       else
         || (R.EarliestIsSentinel(Woken(s, thread).queues, s.segs, d) && !FindsDue(s, thread, now, d))
         || LeavesSecond(s, thread, now, d)
  }

  /** The steps that neglect an entry: such a pass; and the end of a retry, while nobody is on the way, if its order
      is queued for another that a thread sleeps past. */
  ghost predicate Neglects(s: State, step: Step) {
    match step
    case ReleaseRetry(w) => s.woken == {} && exists k: R.Kind, u :: SleepsPast(s, u, k, w)
    case GetRetry(thread, now, d) => NeglectsInPass(s, thread, now, d)
    case _ => false
  }

  /** The order has an entry that nobody has marked and the thread sleeps past. */
  ghost predicate SleepsPast(s: State, u: Waiter, k: R.Kind, w: int) {
    var q := s.queues.Get(k);
    w in q.rwmap && q.rwmap[w] in q.heap && q.rwmap[w] !in q.marked && Late(s, u, k, q.rwmap[w])
  }

  // ---- each step ----

  lemma AllWokenNotNeglected(t: State)
    requires t.woken == t.sleepers.Keys
    ensures !Neglected(t)
  {
  }

  lemma NothingMoreEligible(s: State, t: State)
    requires !Neglected(s) && t.woken == s.woken && t.sleepers == s.sleepers
    requires forall k: R.Kind :: t.queues.Get(k).heap == s.queues.Get(k).heap
    requires forall k: R.Kind, x :: R.Eligible(t.queues.Get(k), t.segs, x) ==> R.Eligible(s.queues.Get(k), s.segs, x)
    ensures !Neglected(t)
  {
    forall u, k, x | Misses(t, u, k, x) ensures Misses(s, u, k, x) {
      assert t.queues.Get(k).heap == s.queues.Get(k).heap;
    }
  }

  lemma ReleaseSegmentAttends(s: State, w: int, pick: Option<Waiter>)
    requires Inv(s) && Enabled(s, ReleaseSegment(w, pick)) && !Neglected(s)
    ensures !Neglected(ReleaseStep(s, w, pick))
  {
    var t := ReleaseStep(s, w, pick);
    ReleaseArbitrates(s.segs, s.segments, s.retries, w);
    if w in t.segs {
      NothingMoreEligible(s, t);
    } else {
      assert pick.Some? ==> pick.value in t.woken;
      assert pick.None? && t.woken == {} ==> t.sleepers.Keys == {};
    }
  }

  lemma QueueRetryAttends(s: State, kind: R.Kind, w: int, mod: int, parent: ParentInfo, addr: nat)
    requires !Neglected(s)
    ensures !Neglected(QueueRetryStep(s, kind, w, mod, parent, addr))
  {
    var q := s.queues.Get(kind);
    var t := QueueRetryStep(s, kind, w, mod, parent, addr);
    if R.Rejects(q, w, mod) {
      forall k: R.Kind
        ensures t.queues.Get(k).heap == s.queues.Get(k).heap && t.queues.Get(k).marked == s.queues.Get(k).marked
      {
      }
      NothingMoreEligible(s, t);
    } else {
      AllWokenNotNeglected(t);
    }
  }

  /** The end of a retry makes the unmarked entries of its order eligible, and no others. */
  lemma FreedEntries(s: State, w: int, k: R.Kind, x: nat)
    requires Inv(s) && Enabled(s, ReleaseRetry(w))
    ensures var q := s.queues.Get(k);
            R.Eligible(q, EndRetry(s.segs, w), x) <==>
              R.Eligible(q, s.segs, x) || (w in q.rwmap && q.rwmap[w] == x && x in q.heap && x !in q.marked)
  {
    assert R.Sound(s.queues.Get(k));
  }

  lemma ReleaseRetryExactly(s: State, w: int)
    requires Inv(s) && Enabled(s, ReleaseRetry(w)) && !Neglected(s)
    ensures Neglected(ReleaseRetryStep(s, w)) <==> Neglects(s, ReleaseRetry(w))
  {
    var t := ReleaseRetryStep(s, w);
    assert t.queues == s.queues && t.sleepers == s.sleepers && t.woken == s.woken && t.segs == EndRetry(s.segs, w);
    if Neglected(t) {
      var u, k, x :| Misses(t, u, k, x);
      FreedEntries(s, w, k, x);
      assert !Misses(s, u, k, x);
      assert Late(s, u, k, x);
      assert SleepsPast(s, u, k, w);
    }
    if k: R.Kind, u :| s.woken == {} && SleepsPast(s, u, k, w) {
      FreedEntries(s, w, k, s.queues.Get(k).rwmap[w]);
      assert Misses(t, u, k, s.queues.Get(k).rwmap[w]);
    }
  }

  // ---- a pass of a retry thread ----

  /** The entry that a thread has marked is one that it can pick. */
  lemma WokenEligible(s: State, thread: Waiter, k: R.Kind, x: nat)
    ensures Woken(s, thread).queues.Get(k).heap == s.queues.Get(k).heap
    ensures Woken(s, thread).queues.Get(k).slots == s.queues.Get(k).slots
    ensures R.Eligible(Woken(s, thread).queues.Get(k), s.segs, x) <==> IsOpen(s, thread, k, x)
  {
  }

  /** While nobody is on the way, an entry that another sleeps past is the thread's own. */
  lemma OnlyOwn(s: State, thread: Waiter, k: R.Kind, x: nat)
    requires !Neglected(s) && s.woken == {} && LeavesEntry(s, thread, k, x)
    ensures IsOwn(s, thread, k, x)
  {
    var u :| u != thread && Late(s, u, k, x);
    assert !Misses(s, u, k, x);
  }

  lemma LeftByLeaver(s: State, thread: Waiter, now: int, d: R.Delays, k: R.Kind, x: nat, u: Waiter)
    requires Leaves(s, thread)
    ensures var t := GetRetryStep(s, thread, now, d);
            Misses(t, u, k, x) <==> IsOpen(s, thread, k, x) && u != thread && Late(s, u, k, x)
  {
    var s1 := Woken(s, thread);
    WokenEligible(s, thread, k, x);
    if IsOpen(s, thread, k, x) {
      LateAfter(s, s1, k, x, u, thread);
    }
  }

  /** Who sleeps past an entry when a thread has gone its way. */
  lemma LateAfter(s: State, t: State, k: R.Kind, x: nat, u: Waiter, thread: Waiter)
    requires x in s.queues.Get(k).heap && x in t.queues.Get(k).heap
    requires t.queues.Get(k).heap[x] == s.queues.Get(k).heap[x]
    requires t.sleepers - {thread} == s.sleepers - {thread}
    ensures u != thread ==> (Late(t, u, k, x) <==> Late(s, u, k, x))
    ensures thread in t.sleepers && t.sleepers[thread].Mark? ==>
      (Late(t, thread, k, x) <==> t.sleepers[thread].until > R.TriggerOf(s.queues, t.sleepers[thread].delays, k, x))
  {
    if u != thread {
      assert u in t.sleepers <==> u in t.sleepers - {thread};
      assert u in s.sleepers <==> u in s.sleepers - {thread};
      assert u in t.sleepers ==> t.sleepers[u] == (t.sleepers - {thread})[u];
    }
  }

  lemma LeavesExactly(s: State, thread: Waiter, now: int, d: R.Delays)
    requires WakesSound(s) && !Neglected(s) && Leaves(s, thread)
    ensures Neglected(GetRetryStep(s, thread, now, d)) <==> NeglectsInPass(s, thread, now, d)
  {
    var t := GetRetryStep(s, thread, now, d);
    WokenAfter(s, thread, now, d);
    if Neglected(t) {
      var u, k, x :| Misses(t, u, k, x);
      LeftByLeaver(s, thread, now, d, k, x, u);
      assert LeavesEntry(s, thread, k, x);
      if thread !in s.woken {
        OnlyOwn(s, thread, k, x);
      }
    }
    if NeglectsInPass(s, thread, now, d) {
      var k, x :| LeavesEntry(s, thread, k, x);
      var u :| u != thread && Late(s, u, k, x);
      LeftByLeaver(s, thread, now, d, k, x, u);
    }
  }

  /** What the thread finds, by the order of triggers. */
  lemma PassFinds(s: State, thread: Waiter, d: R.Delays)
    requires Inv(s)
    ensures var s1 := Woken(s, thread);
            match R.Scan(s1.queues, s.segs, d)
            case NoPick => forall kind: R.Kind, i: nat :: !Finds(s, thread, d, kind, i)
            case Pick(kind, i, trigger) =>
              && Finds(s, thread, d, kind, i) && R.HasEntry(s.queues.Get(kind), i)
              && trigger == R.TriggerOf(s.queues, d, kind, s.queues.Get(kind).slots[i].val)
              && trigger != -1
  {
    var s1 := Woken(s, thread);
    WokenLinked(s, thread);
    R.ScanFound(s1.queues, s.segs, d);
    forall k: R.Kind ensures s1.queues.Get(k).heap == s.queues.Get(k).heap
                     ensures s1.queues.Get(k).slots == s.queues.Get(k).slots
    {
      WokenEligible(s, thread, k, 0);
    }
  }

  /** What is found is found alone. */
  lemma FindsOne(s: State, thread: Waiter, d: R.Delays, kind: R.Kind, i: nat, kind': R.Kind, i': nat)
    requires Finds(s, thread, d, kind, i) && Finds(s, thread, d, kind', i')
    ensures kind == kind' && i == i'
  {
    R.FoundUnique(Woken(s, thread).queues, s.segs, d, kind, i, kind', i');
  }

  lemma PassServes(s: State, thread: Waiter, now: int, d: R.Delays)
    requires WakesSound(s) && !Leaves(s, thread)
    ensures var s1 := Woken(s, thread);
            GetRetryStep(s, thread, now, d) == Serve(s1, thread, now, d, R.Scan(s1.queues, s.segs, d))
    ensures Woken(s, thread).segs == s.segs && Woken(s, thread).woken == s.woken - {thread}
    ensures Woken(s, thread).sleepers == s.sleepers - {thread}
  {
  }

  /** A thread finds nothing if there is nothing, or if a trigger of -1 hides it. */
  lemma NothingSeen(s: State, thread: Waiter, d: R.Delays)
    requires Inv(s) && R.Scan(Woken(s, thread).queues, s.segs, d).NoPick?
    ensures R.EarliestIsSentinel(Woken(s, thread).queues, s.segs, d) <==> exists k, x :: IsOpen(s, thread, k, x)
  {
    var qs := Woken(s, thread).queues;
    if R.EarliestIsSentinel(qs, s.segs, d) {
      var k: R.Kind, x: nat :| R.Eligible(qs.Get(k), s.segs, x) && R.TriggerOf(qs, d, k, x) == -1;
      WokenEligible(s, thread, k, x);
    }
    if k, x :| IsOpen(s, thread, k, x) {
      WokenLinked(s, thread);
      WokenEligible(s, thread, k, x);
      OpenUnseen(qs, s.segs, d, k, x);
    }
  }

  lemma OpenUnseen(qs: R.Queues, segs: map<int, int>, d: R.Delays, k: R.Kind, x: nat)
    requires R.AllLinked(qs) && R.Eligible(qs.Get(k), segs, x) && R.Scan(qs, segs, d).NoPick?
    ensures R.EarliestIsSentinel(qs, segs, d)
  {
    R.ScanFound(qs, segs, d);
    assert !R.Seen(qs, segs, d, k);
  }

  lemma SleepsForNothing(s: State, thread: Waiter, now: int, d: R.Delays)
    requires Inv(s) && WakesSound(s) && s.woken <= {thread} && !Leaves(s, thread)
    requires R.Scan(Woken(s, thread).queues, s.segs, d).NoPick?
    ensures Neglected(GetRetryStep(s, thread, now, d)) <==> NeglectsInPass(s, thread, now, d)
  {
    var t := GetRetryStep(s, thread, now, d);
    WokenAfter(s, thread, now, d);
    NothingSeen(s, thread, d);
    PassFinds(s, thread, d);
    if k, x :| IsOpen(s, thread, k, x) {
      LeftWithNothing(s, thread, now, d, k, x);
      assert Misses(t, thread, k, x);
    } else {
      forall u, k, x ensures !Misses(t, u, k, x) {
        LeftWithNothing(s, thread, now, d, k, x);
      }
    }
  }

  lemma LeftWithNothing(s: State, thread: Waiter, now: int, d: R.Delays, k: R.Kind, x: nat)
    requires WakesSound(s) && !Leaves(s, thread)
    requires R.Scan(Woken(s, thread).queues, s.segs, d).NoPick?
    ensures var t := GetRetryStep(s, thread, now, d);
            && (R.Eligible(t.queues.Get(k), t.segs, x) <==> IsOpen(s, thread, k, x))
            && thread in t.sleepers && t.sleepers[thread].NoMark?
  {
    PassServes(s, thread, now, d);
    WokenEligible(s, thread, k, x);
  }

  /** What can be picked after a thread was served. */
  lemma ServeLeaves(s: State, thread: Waiter, now: int, d: R.Delays, p: R.Pick, k: R.Kind, x: nat)
    requires p.Pick? && R.HasEntry(s.queues.Get(p.kind), p.i)
    requires p.trigger == R.TriggerOf(s.queues, d, p.kind, s.queues.Get(p.kind).slots[p.i].val)
    ensures var t := Serve(s, thread, now, d, p);
            && (R.Eligible(t.queues.Get(k), t.segs, x) <==>
                  R.Eligible(s.queues.Get(k), s.segs, x) && Stays(s, now, d, p.kind, p.i, k, x))
            && (x in t.queues.Get(k).heap ==>
                  x in s.queues.Get(k).heap && t.queues.Get(k).heap[x] == s.queues.Get(k).heap[x])
  {
    var q, t := s.queues.Get(p.kind), Serve(s, thread, now, d, p);
    var a := q.slots[p.i].val;
    if Due(p.trigger, now) {
      assert t.queues.Get(k) == if k == p.kind then R.HandOut(q, p.i) else s.queues.Get(k);
      assert t.segs == StartRetry(s.segs, q.heap[a].wfiid);
      HandOutEligible(q, p.i, s.segs, x);
      StartEligible(s.queues.Get(k), s.segs, q.heap[a].wfiid, x);
    } else {
      assert t.queues.Get(k) == if k == p.kind then q.(marked := q.marked + {a}) else s.queues.Get(k);
      assert t.segs == s.segs;
      MarkEligible(q, a, s.segs, x);
    }
  }

  /** What can be picked when a retry of order `w` has started. */
  lemma StartEligible(q: R.RetryQueue, segs: map<int, int>, w: int, x: nat)
    ensures R.Eligible(q, StartRetry(segs, w), x) <==> R.Eligible(q, segs, x) && q.heap[x].wfiid != w
  {
  }

  lemma HandOutEligible(q: R.RetryQueue, i: nat, segs: map<int, int>, x: nat)
    requires R.HasEntry(q, i)
    ensures var w := q.heap[q.slots[i].val].wfiid;
            R.Eligible(R.HandOut(q, i), StartRetry(segs, w), x) <==> R.Eligible(q, segs, x) && q.heap[x].wfiid != w
  {
  }

  lemma MarkEligible(q: R.RetryQueue, a: nat, segs: map<int, int>, x: nat)
    ensures R.Eligible(q.(marked := q.marked + {a}), segs, x) <==> R.Eligible(q, segs, x) && x != a
  {
  }

  /** Who sleeps after a thread was served: it does itself if what it found is not due. */
  lemma ServeSleepers(s: State, thread: Waiter, now: int, d: R.Delays, p: R.Pick)
    requires p.Pick? ==> R.HasEntry(s.queues.Get(p.kind), p.i)
    ensures var t := Serve(s, thread, now, d, p);
            && t.woken == s.woken && t.conns == s.conns && t.retryConns == s.retryConns && t.term == s.term
            && t.sleepers == if p.NoPick? then s.sleepers[thread := NoMark]
                             else if Due(p.trigger, now) then s.sleepers
                             else s.sleepers[thread :=
                               Mark(p.kind, s.queues.Get(p.kind).slots[p.i].val, p.trigger, d)]
  {
  }

  /** What can be picked after the pass of a thread that finds an entry. */
  lemma LeftOpen(s: State, thread: Waiter, now: int, d: R.Delays, k: R.Kind, x: nat)
    requires Inv(s) && WakesSound(s) && !Leaves(s, thread)
    requires R.Scan(Woken(s, thread).queues, s.segs, d).Pick?
    ensures var p := R.Scan(Woken(s, thread).queues, s.segs, d);
            var t := GetRetryStep(s, thread, now, d);
            && R.HasEntry(s.queues.Get(p.kind), p.i)
            && (R.Eligible(t.queues.Get(k), t.segs, x) <==>
                  IsOpen(s, thread, k, x) && Stays(s, now, d, p.kind, p.i, k, x))
            && (x in t.queues.Get(k).heap ==>
                  x in s.queues.Get(k).heap && t.queues.Get(k).heap[x] == s.queues.Get(k).heap[x])
  {
    var s1 := Woken(s, thread);
    var p := R.Scan(s1.queues, s.segs, d);
    PassServes(s, thread, now, d);
    PassFinds(s, thread, d);
    WokenEligible(s, thread, p.kind, 0);
    WokenEligible(s, thread, k, x);
    ServeLeaves(s1, thread, now, d, p, k, x);
  }

  /** Who sleeps after such a pass. */
  lemma LeftAsleep(s: State, thread: Waiter, now: int, d: R.Delays)
    requires Inv(s) && WakesSound(s) && !Leaves(s, thread)
    requires R.Scan(Woken(s, thread).queues, s.segs, d).Pick?
    ensures var p := R.Scan(Woken(s, thread).queues, s.segs, d);
            var t := GetRetryStep(s, thread, now, d);
            && t.woken == s.woken - {thread} && t.sleepers - {thread} == s.sleepers - {thread}
            && (thread in t.sleepers <==> !Due(p.trigger, now))
            && (thread in t.sleepers ==>
                  t.sleepers[thread].Mark? && t.sleepers[thread].until == p.trigger && t.sleepers[thread].delays == d)
  {
    var s1 := Woken(s, thread);
    PassServes(s, thread, now, d);
    PassFinds(s, thread, d);
    WokenEligible(s, thread, R.Scan(s1.queues, s.segs, d).kind, 0);
    ServeSleepers(s1, thread, now, d, R.Scan(s1.queues, s.segs, d));
  }

  /** Both, for one entry that is left and one thread. */
  lemma LeftFor(s: State, thread: Waiter, now: int, d: R.Delays, k: R.Kind, x: nat, u: Waiter)
    requires Inv(s) && WakesSound(s) && !Leaves(s, thread)
    requires R.Scan(Woken(s, thread).queues, s.segs, d).Pick?
    ensures var p := R.Scan(Woken(s, thread).queues, s.segs, d);
            var t := GetRetryStep(s, thread, now, d);
            && t.woken == s.woken - {thread} && R.HasEntry(s.queues.Get(p.kind), p.i)
            && (Misses(t, u, k, x) <==>
                  && IsOpen(s, thread, k, x) && Stays(s, now, d, p.kind, p.i, k, x)
                  && if u != thread then Late(s, u, k, x)
                     else !Due(p.trigger, now) && p.trigger > R.TriggerOf(s.queues, d, k, x))
  {
    var t := GetRetryStep(s, thread, now, d);
    LeftOpen(s, thread, now, d, k, x);
    LeftAsleep(s, thread, now, d);
    if R.Eligible(t.queues.Get(k), t.segs, x) {
      LateAfter(s, t, k, x, u, thread);
    }
  }

  /** A thread that sleeps until the earliest trigger is not late for any entry, unless that is hidden by the
      sentinel. */
  lemma NotLateItself(s: State, thread: Waiter, d: R.Delays, k: R.Kind, x: nat)
    requires Inv(s) && IsOpen(s, thread, k, x)
    requires !R.EarliestIsSentinel(Woken(s, thread).queues, s.segs, d)
    requires R.Scan(Woken(s, thread).queues, s.segs, d).Pick?
    ensures R.Scan(Woken(s, thread).queues, s.segs, d).trigger <= R.TriggerOf(s.queues, d, k, x)
  {
    var s1 := Woken(s, thread);
    WokenLinked(s, thread);
    R.ScanFinds(s1.queues, s.segs, d);
    WokenEligible(s, thread, k, x);
  }

  lemma LateOverSentinel(s: State, thread: Waiter, now: int, d: R.Delays)
    requires Inv(s) && WakesSound(s) && s.woken <= {thread} && !Leaves(s, thread)
    requires R.EarliestIsSentinel(Woken(s, thread).queues, s.segs, d)
    requires var p := R.Scan(Woken(s, thread).queues, s.segs, d); p.Pick? && !Due(p.trigger, now)
    ensures Neglected(GetRetryStep(s, thread, now, d)) && !FindsDue(s, thread, now, d)
  {
    var s1 := Woken(s, thread);
    var p := R.Scan(s1.queues, s.segs, d);
    PassFinds(s, thread, d);
    var k: R.Kind, x: nat :| R.Eligible(s1.queues.Get(k), s.segs, x) && R.TriggerOf(s1.queues, d, k, x) == -1;
    WokenEligible(s, thread, k, x);
    WokenEligible(s, thread, p.kind, 0);
    LeftFor(s, thread, now, d, k, x, thread);
    assert R.Eligible(s1.queues.Get(p.kind), s.segs, s.queues.Get(p.kind).slots[p.i].val);
    assert Misses(GetRetryStep(s, thread, now, d), thread, k, x);
    forall kind: R.Kind, i: nat | Finds(s, thread, d, kind, i) ensures kind == p.kind && i == p.i {
      FindsOne(s, thread, d, kind, i, p.kind, p.i);
    }
  }

  /** What is found and neglected is a second entry. */
  lemma NeglectedIsSecond(s: State, thread: Waiter, now: int, d: R.Delays, k: R.Kind, x: nat, u: Waiter)
    requires Inv(s) && WakesSound(s) && !Neglected(s) && s.woken <= {thread} && !Leaves(s, thread) && u != thread
    requires R.Scan(Woken(s, thread).queues, s.segs, d).Pick?
    requires Misses(GetRetryStep(s, thread, now, d), u, k, x)
    ensures LeavesSecond(s, thread, now, d)
  {
    var p := R.Scan(Woken(s, thread).queues, s.segs, d);
    PassFinds(s, thread, d);
    LeftFor(s, thread, now, d, k, x, u);
    assert LeavesEntry(s, thread, k, x);
    if thread !in s.woken {
      OnlyOwn(s, thread, k, x);
    }
    assert IsSecond(s, thread, now, d, p.kind, p.i, k, x);
  }

  lemma SecondIsNeglected(s: State, thread: Waiter, now: int, d: R.Delays)
    requires Inv(s) && WakesSound(s) && s.woken <= {thread} && !Leaves(s, thread) && LeavesSecond(s, thread, now, d)
    requires R.Scan(Woken(s, thread).queues, s.segs, d).Pick?
    ensures Neglected(GetRetryStep(s, thread, now, d))
  {
    var p := R.Scan(Woken(s, thread).queues, s.segs, d);
    var kind: R.Kind, i: nat, k: R.Kind, x: nat :| IsSecond(s, thread, now, d, kind, i, k, x);
    PassFinds(s, thread, d);
    FindsOne(s, thread, d, kind, i, p.kind, p.i);
    var u :| u != thread && Late(s, u, k, x);
    LeftFor(s, thread, now, d, k, x, u);
    assert Misses(GetRetryStep(s, thread, now, d), u, k, x);
  }

  lemma SleepsOrTakes(s: State, thread: Waiter, now: int, d: R.Delays)
    requires Inv(s) && WakesSound(s) && !Neglected(s) && s.woken <= {thread} && !Leaves(s, thread)
    requires R.Scan(Woken(s, thread).queues, s.segs, d).Pick?
    ensures Neglected(GetRetryStep(s, thread, now, d)) <==> NeglectsInPass(s, thread, now, d)
  {
    var t := GetRetryStep(s, thread, now, d);
    var p := R.Scan(Woken(s, thread).queues, s.segs, d);
    PassFinds(s, thread, d);
    if R.EarliestIsSentinel(Woken(s, thread).queues, s.segs, d) && !Due(p.trigger, now) {
      LateOverSentinel(s, thread, now, d);
    } else {
      assert Due(p.trigger, now) ==> FindsDue(s, thread, now, d);
      if Neglected(t) {
        var u, k, x :| Misses(t, u, k, x);
        LeftFor(s, thread, now, d, k, x, u);
        if u == thread {
          NotLateItself(s, thread, d, k, x);
        }
        NeglectedIsSecond(s, thread, now, d, k, x, u);
      }
      if LeavesSecond(s, thread, now, d) {
        SecondIsNeglected(s, thread, now, d);
      }
    }
  }

  lemma GetRetryExactly(s: State, thread: Waiter, now: int, d: R.Delays)
    requires Inv(s) && WakesSound(s) && !Neglected(s)
    ensures Neglected(GetRetryStep(s, thread, now, d)) <==> NeglectsInPass(s, thread, now, d)
  {
    WokenAfter(s, thread, now, d);
    if s.woken <= {thread} {
      if Leaves(s, thread) {
        LeavesExactly(s, thread, now, d);
      } else if R.Scan(Woken(s, thread).queues, s.segs, d).NoPick? {
        SleepsForNothing(s, thread, now, d);
      } else {
        SleepsOrTakes(s, thread, now, d);
      }
    }
  }

  lemma WokenAfter(s: State, thread: Waiter, now: int, d: R.Delays)
    requires WakesSound(s)
    ensures GetRetryStep(s, thread, now, d).woken == s.woken - {thread}
  {
    var s1 := Woken(s, thread);
    assert s1.woken == s.woken - {thread};
    if !Leaves(s, thread) {
      ServeSleepers(s1, thread, now, d, R.Scan(s1.queues, s1.segs, d));
    }
  }

  /** With the same delays for all, a thread that was not woken - that enters, times out or wakes spuriously -
      neglects nothing, unless the earliest trigger is -1. */
  lemma TimeOutsNeglectNothing(s: State, thread: Waiter, now: int, d: R.Delays)
    requires Inv(s) && WakesSound(s) && !Neglected(s) && thread !in s.woken
    requires forall u :: u in s.sleepers && s.sleepers[u].Mark? ==> s.sleepers[u].delays == d
    requires !R.EarliestIsSentinel(Woken(s, thread).queues, s.segs, d)
    ensures !Neglected(GetRetryStep(s, thread, now, d))
  {
    GetRetryExactly(s, thread, now, d);
    if NeglectsInPass(s, thread, now, d) {
      var kind: R.Kind, i: nat, k: R.Kind, x: nat :| IsSecond(s, thread, now, d, kind, i, k, x);
      OwnIsFirst(s, thread, now, d, kind, i, k, x);
    }
  }

  /** Had the thread found an entry before its own, another would have slept past that one. */
  lemma OwnIsFirst(s: State, thread: Waiter, now: int, d: R.Delays, kind: R.Kind, i: nat, k: R.Kind, x: nat)
    requires IsSecond(s, thread, now, d, kind, i, k, x) && IsOwn(s, thread, k, x)
    requires forall u :: u in s.sleepers && s.sleepers[u].Mark? ==> s.sleepers[u].delays == d
    requires !R.EarliestIsSentinel(Woken(s, thread).queues, s.segs, d) && s.woken == {}
    ensures Neglected(s)
  {
    var a := s.queues.Get(kind).slots[i].val;
    WokenEligible(s, thread, kind, a);
    WokenEligible(s, thread, k, x);
    assert R.Eligible(Woken(s, thread).queues.Get(k), s.segs, x) && R.Seen(Woken(s, thread).queues, s.segs, d, k);
    assert R.TriggerOf(s.queues, d, kind, a) <= R.TriggerOf(s.queues, d, k, x);
    assert !(kind == k && a == x);
    assert !IsOwn(s, thread, kind, a);
    var u :| u != thread && Late(s, u, k, x);
    assert Misses(s, u, kind, a);
  }

  /** Only sleepers are woken, and no thread that should return sleeps on. */
  predicate WakesSound(s: State) {
    && s.woken <= s.sleepers.Keys
    && (forall t :: t in s.sleepers && t !in s.woken ==> !Leaves(s, t))
  }

  lemma WokenWakes(s: State, thread: Waiter)
    requires WakesSound(s)
    ensures WakesSound(Woken(s, thread))
  {
  }

  lemma ServeWakes(s: State, thread: Waiter, now: int, d: R.Delays, p: R.Pick)
    requires WakesSound(s) && !Leaves(s, thread)
    requires p.Pick? ==> R.HasEntry(s.queues.Get(p.kind), p.i)
    ensures WakesSound(Serve(s, thread, now, d, p))
  {
    ServeSleepers(s, thread, now, d, p);
  }

  lemma GetRetryWakes(s: State, thread: Waiter, now: int, d: R.Delays)
    requires WakesSound(s)
    ensures WakesSound(GetRetryStep(s, thread, now, d))
  {
    var s1 := Woken(s, thread);
    WokenWakes(s, thread);
    if !Leaves(s, thread) {
      ServeWakes(s1, thread, now, d, R.Scan(s1.queues, s1.segs, d));
    }
  }

  lemma OthersWake(s: State, step: Step)
    requires WakesSound(s) && Enabled(s, step) && !step.GetRetry?
    ensures WakesSound(Apply(s, step))
  {
    match step
    case Post(segid, key, ind, item, prio, mod, swfiid, parent, pick) =>
      assert WakesSound(PostStep(s, segid, key, ind, item, prio, mod, swfiid, parent, pick));
    case GetBackend(segid, thread, found) => assert WakesSound(GetBackendStep(s, segid, thread, found));
    case Spurious(segid, thread) => assert WakesSound(SpuriousStep(s, segid, thread));
    case QueueRetry(kind, w, mod, parent, addr) =>
      assert WakesSound(QueueRetryStep(s, kind, w, mod, parent, addr));
    case RemoveInstance(w) => assert WakesSound(RemoveInstanceStep(s, w));
    case _ =>
  }

  lemma OthersAttend(s: State, step: Step)
    requires Inv(s) && Enabled(s, step) && !Neglected(s) && !step.GetRetry? && !step.ReleaseRetry?
    ensures !Neglected(Apply(s, step))
  {
    match step
    case Post(segid, key, ind, item, prio, mod, swfiid, parent, pick) =>
      NothingMoreEligible(s, PostStep(s, segid, key, ind, item, prio, mod, swfiid, parent, pick));
    case GetBackend(segid, thread, found) => GetBackendAttends(s, segid, thread, found);
    case Spurious(segid, thread) => NothingMoreEligible(s, SpuriousStep(s, segid, thread));
    case GrabSegment(w) => NothingMoreEligible(s, GrabStep(s, w));
    case ReleaseSegment(w, pick) => ReleaseSegmentAttends(s, w, pick);
    case QueueRetry(kind, w, mod, parent, addr) => QueueRetryAttends(s, kind, w, mod, parent, addr);
    case WakeupAll(_) => NothingMoreEligible(s, Apply(s, step));
    case CleanupConnection(_) => NothingMoreEligible(s, Apply(s, step));
    case _ => BroadcastsAttend(s, step);
  }

  /** Steps that wake every retry thread. */
  lemma BroadcastsAttend(s: State, step: Step)
    requires Enabled(s, step)
    requires step.RemoveInstance? || step.RequeueRetries? || step.TerminateConnection? ||
             step.TerminateRetryConnection? || step.Terminate?
    ensures !Neglected(Apply(s, step))
  {
    match step
    case RemoveInstance(w) => AllWokenNotNeglected(RemoveInstanceStep(s, w));
    case RequeueRetries => AllWokenNotNeglected(Requeue(s, s.queues));
    case TerminateConnection(conn) => AllWokenNotNeglected(TerminateConnectionStep(s, conn));
    case TerminateRetryConnection(conn) => AllWokenNotNeglected(Apply(s, step));
    case Terminate => AllWokenNotNeglected(TerminateStep(s));
  }

  lemma GetBackendAttends(s: State, segid: int, thread: Waiter, found: Option<B.Pos>)
    requires Inv(s) && Enabled(s, GetBackend(segid, thread, found)) && !Neglected(s)
    ensures !Neglected(GetBackendStep(s, segid, thread, found))
  {
    var t := GetBackendStep(s, segid, thread, found);
    GrabsOrNot(s, segid, thread, found);
    NothingMoreEligible(s, t);
  }

  lemma GrabsOrNot(s: State, segid: int, thread: Waiter, found: Option<B.Pos>)
    requires Inv(s) && Enabled(s, GetBackend(segid, thread, found))
    ensures var t := GetBackendStep(s, segid, thread, found);
            && t.queues == s.queues && t.woken == s.woken && t.sleepers == s.sleepers
            && forall w :: InProgress(s.segs, w) ==> InProgress(t.segs, w)
  {
  }

  /** A step from a state in which nothing is neglected neglects an entry exactly if it is one of those. */
  lemma NeglectsExactly(s: State, step: Step)
    requires Inv(s) && WakesSound(s) && Enabled(s, step) && !Neglected(s)
    ensures Neglected(Apply(s, step)) <==> Neglects(s, step)
  {
    match step
    case ReleaseRetry(w) => ReleaseRetryExactly(s, w);
    case GetRetry(thread, now, d) => GetRetryExactly(s, thread, now, d);
    case _ => OthersAttend(s, step);
  }

  // ---- runs ----

  lemma {:induction false} RunWakes(segids: set<int>, states: seq<State>, steps: seq<Step>, i: nat)
    requires IsRun(segids, states, steps) && i < |states|
    ensures WakesSound(states[i])
  {
    if i > 0 {
      RunWakes(segids, states, steps, i - 1);
      if steps[i - 1].GetRetry? {
        GetRetryWakes(states[i - 1], steps[i - 1].thread, steps[i - 1].now, steps[i - 1].delays);
      } else {
        OthersWake(states[i - 1], steps[i - 1]);
      }
    }
  }

  /** Without a neglecting step nothing is ever neglected. */
  lemma {:induction false} NeverNeglected(segids: set<int>, states: seq<State>, steps: seq<Step>, i: nat)
    requires IsRun(segids, states, steps) && i < |states|
    requires forall j :: 0 <= j < i ==> !Neglects(states[j], steps[j])
    ensures !Neglected(states[i])
  {
    if i > 0 {
      NeverNeglected(segids, states, steps, i - 1);
      RunSafe(segids, states, steps, i - 1);
      RunWakes(segids, states, steps, i - 1);
      NeglectsExactly(states[i - 1], steps[i - 1]);
    }
  }

  /** A run reaches a state in which an entry is neglected if and only if one of its steps neglects one. */
  lemma RunNeglectsExactly(segids: set<int>, states: seq<State>, steps: seq<Step>)
    requires IsRun(segids, states, steps)
    ensures (exists i :: 0 <= i < |states| && Neglected(states[i])) <==>
            (exists i :: 0 <= i < |steps| && Neglects(states[i], steps[i]))
  {
    if i :| 0 <= i < |steps| && Neglects(states[i], steps[i]) {
      RunSafe(segids, states, steps, i);
      RunWakes(segids, states, steps, i);
      if !Neglected(states[i]) {
        NeglectsExactly(states[i], steps[i]);
        assert Neglected(states[i + 1]);
      }
    } else {
      forall i | 0 <= i < |states| ensures !Neglected(states[i]) {
        NeverNeglected(segids, states, steps, i);
      }
    }
  }

  // ---- a single retry thread ----

  /** One thread asks for retries, holds none when it asks, and meets no trigger of -1. */
  ghost predicate AsksAlone(s: State, step: Step, t: Waiter) {
    step.GetRetry? ==>
      && step.thread == t && s.retries == multiset{}
      && !R.EarliestIsSentinel(Woken(s, t).queues, s.segs, step.delays)
  }

  predicate SleepsAlone(s: State, t: Waiter) {
    s.sleepers.Keys <= {t} && (t in s.sleepers ==> s.retries == multiset{})
  }

  lemma ServeSleepsAlone(s: State, t: Waiter, now: int, d: R.Delays, p: R.Pick)
    requires s.sleepers == map[] && s.retries == multiset{}
    requires p.Pick? ==> R.HasEntry(s.queues.Get(p.kind), p.i)
    ensures SleepsAlone(Serve(s, t, now, d, p), t)
  {
  }

  lemma StepSleepsAlone(s: State, step: Step, t: Waiter)
    requires Enabled(s, step) && SleepsAlone(s, t) && AsksAlone(s, step, t)
    ensures SleepsAlone(Apply(s, step), t)
  {
    if step.GetRetry? {
      var s1 := Woken(s, t);
      assert s1.sleepers.Keys <= {};
      assert s1.sleepers == map[] && s1.retries == multiset{};
      if !Leaves(s, t) {
        ServeSleepsAlone(s1, t, step.now, step.delays, R.Scan(s1.queues, s1.segs, step.delays));
      }
    } else {
      RetriesOnlyEnd(s, step);
      SleepersStay(s, step);
    }
  }

  lemma RetriesOnlyEnd(s: State, step: Step)
    requires Enabled(s, step) && !step.GetRetry?
    ensures Apply(s, step).retries <= s.retries
  {
    match step
    case Post(segid, key, ind, item, prio, mod, swfiid, parent, pick) =>
      assert PostStep(s, segid, key, ind, item, prio, mod, swfiid, parent, pick).retries == s.retries;
    case GetBackend(segid, thread, found) => assert GetBackendStep(s, segid, thread, found).retries == s.retries;
    case Spurious(segid, thread) => assert SpuriousStep(s, segid, thread).retries == s.retries;
    case QueueRetry(kind, w, mod, parent, addr) =>
      assert QueueRetryStep(s, kind, w, mod, parent, addr).retries == s.retries;
    case _ =>
  }

  lemma SleepersStay(s: State, step: Step)
    requires Enabled(s, step) && !step.GetRetry?
    ensures Apply(s, step).sleepers == s.sleepers
  {
    if !TouchesRetries(step) {
      RetriesUntouched(s, step);
    } else {
      match step
      case QueueRetry(kind, w, mod, parent, addr) =>
        assert QueueRetryStep(s, kind, w, mod, parent, addr).sleepers == s.sleepers;
      case RemoveInstance(w) =>
      case RequeueRetries =>
    }
  }

  lemma AloneNeglectsNothing(s: State, step: Step, t: Waiter)
    requires Inv(s) && Enabled(s, step) && SleepsAlone(s, t) && AsksAlone(s, step, t)
    ensures !Neglects(s, step)
  {
    assert forall k, x :: !LeavesEntry(s, t, k, x);
  }

  /** With one retry thread, which releases its retry before it asks again, no entry is ever neglected. */
  lemma {:induction false} AloneNeverNeglected(segids: set<int>, states: seq<State>, steps: seq<Step>, t: Waiter,
                                               i: nat)
    requires IsRun(segids, states, steps) && i < |states|
    requires forall j :: 0 <= j < |steps| ==> AsksAlone(states[j], steps[j], t)
    ensures SleepsAlone(states[i], t) && !Neglected(states[i])
  {
    if i > 0 {
      AloneNeverNeglected(segids, states, steps, t, i - 1);
      RunSafe(segids, states, steps, i - 1);
      RunWakes(segids, states, steps, i - 1);
      assert AsksAlone(states[i - 1], steps[i - 1], t);
      StepSleepsAlone(states[i - 1], steps[i - 1], t);
      AloneNeglectsNothing(states[i - 1], steps[i - 1], t);
      NeglectsExactly(states[i - 1], steps[i - 1]);
    }
  }

  // ---- ways to neglect an entry ----

  /** A queue with one entry, at address 0, and what it is when that was handed out. */
  function OneRetry(w: int, mod: int, parent: ParentInfo): R.RetryQueue {
    R.RetryQueue(map[0 := R.RetryEntry(w, mod, parent)], [Slot(mod, 0)], map[w := 0], {}, [R.Asked(w, mod)])
  }

  function HandedOut(w: int, mod: int): R.RetryQueue {
    R.RetryQueue(map[], [], map[], {}, [R.Asked(w, mod), R.Gone(w)])
  }

  lemma OneRetryTaken(w: int, mod: int, parent: ParentInfo)
    ensures R.AddRetry(R.NO_RETRIES, w, mod, parent, 0) == OneRetry(w, mod, parent)
    ensures R.HandOut(OneRetry(w, mod, parent), 0) == HandedOut(w, mod)
  {
    assert R.AddRetry(R.NO_RETRIES, w, mod, parent, 0).slots == [Slot(mod, 0)];
    assert R.HandOut(OneRetry(w, mod, parent), 0).slots == [];
  }

  /** The scan while two queues have an entry of an order, and when one is left that is in retry or not. */
  lemma ScanTwo(w: int, parent: ParentInfo)
    ensures var q, d := OneRetry(w, 1, parent), R.Delays(0, 0);
            && R.Scan(R.Queues(q, q, R.NO_RETRIES), map[], d) == R.Pick(R.Delayed, 0, 1)
            && R.Scan(R.Queues(q, HandedOut(w, 1), R.NO_RETRIES), map[w := -1], d) == R.NoPick
            && R.Scan(R.Queues(q, HandedOut(w, 1), R.NO_RETRIES), map[], d) == R.Pick(R.Fixed, 0, 1)
  {
    var q := OneRetry(w, 1, parent);
    assert R.FirstFrom(q, map[], 0) == 0 && R.FirstFrom(q, map[w := -1], 0) == 1;
    assert R.FirstFrom(R.NO_RETRIES, map[], 0) == 0 && R.FirstFrom(HandedOut(w, 1), map[], 0) == 0;
  }

  /** The states of a run in which an order that is queued for retry twice is handed out and released. */
  function TwiceQueued(w: int, parent: ParentInfo): State {
    Start({}).(queues := R.Queues(OneRetry(w, 1, parent), OneRetry(w, 1, parent), R.NO_RETRIES))
  }

  function TakenOnce(w: int, parent: ParentInfo): State {
    Start({}).(segs := map[w := -1], retries := multiset{w},
               queues := R.Queues(OneRetry(w, 1, parent), HandedOut(w, 1), R.NO_RETRIES))
  }

  lemma TwiceQueuedRuns(w: int, parent: ParentInfo)
    ensures var s1 := QueueRetryStep(Start({}), R.Fixed, w, 1, parent, 0);
            && s1.queues.delayed == R.NO_RETRIES
            && QueueRetryStep(s1, R.Delayed, w, 1, parent, 0) == TwiceQueued(w, parent)
  {
    OneRetryTaken(w, 1, parent);
  }

  lemma TakenOnceRuns(w: int, a: Waiter, parent: ParentInfo)
    ensures GetRetryStep(TwiceQueued(w, parent), a, 1, R.Delays(0, 0)) == TakenOnce(w, parent)
  {
    OneRetryTaken(w, 1, parent);
    ScanTwo(w, parent);
  }

  lemma SleepsThenReleased(w: int, b: Waiter, parent: ParentInfo)
    ensures var s4 := GetRetryStep(TakenOnce(w, parent), b, 1, R.Delays(0, 0));
            && s4 == TakenOnce(w, parent).(sleepers := map[b := NoMark])
            && var s5 := ReleaseRetryStep(s4, w);
            && Neglected(s5) && s5.sleepers == map[b := NoMark]
            && R.Scan(s5.queues, s5.segs, R.Delays(0, 0)) == R.Pick(R.Fixed, 0, 1)
  {
    ScanTwo(w, parent);
    var s5 := ReleaseRetryStep(GetRetryStep(TakenOnce(w, parent), b, 1, R.Delays(0, 0)), w);
    assert s5.segs == map[];
    assert Misses(s5, b, R.Fixed, 0);
  }

  /** An order is queued for retry twice. One thread takes it, another finds nothing and sleeps, and the end of
      the first retry wakes nobody although the second is due. */
  lemma ReleasedWithAnother(w: int, a: Waiter, b: Waiter, parent: ParentInfo)
    ensures exists states: seq<State>, steps: seq<Step> ::
      && IsRun({}, states, steps) && |states| == 6
      && Neglected(states[5]) && states[5].sleepers == map[b := NoMark]
      && R.Scan(states[5].queues, states[5].segs, R.Delays(0, 0)) == R.Pick(R.Fixed, 0, 1)
  {
    var d := R.Delays(0, 0);
    SleepsThenReleased(w, b, parent);
    var states, steps := TakenOnceReached(w, a, parent);
    states, steps := Extend(states, steps, GetRetry(b, 1, d));
    states, steps := Extend(states, steps, ReleaseRetry(w));
  }

  lemma TakenOnceReached(w: int, a: Waiter, parent: ParentInfo) returns (states: seq<State>, steps: seq<Step>)
    ensures IsRun({}, states, steps) && |states| == 4 && states[3] == TakenOnce(w, parent)
  {
    TwiceQueuedRuns(w, parent);
    TakenOnceRuns(w, a, parent);
    states, steps := [Start({})], [];
    states, steps := Extend(states, steps, QueueRetry(R.Fixed, w, 1, parent, 0));
    states, steps := Extend(states, steps, QueueRetry(R.Delayed, w, 1, parent, 0));
    states, steps := Extend(states, steps, GetRetry(a, 1, R.Delays(0, 0)));
  }

  lemma Extend(states: seq<State>, steps: seq<Step>, step: Step) returns (states': seq<State>, steps': seq<Step>)
    requires IsRun({}, states, steps) && Enabled(states[|states| - 1], step)
    ensures IsRun({}, states', steps') && |states'| == |states| + 1 && steps' == steps + [step]
    ensures states <= states' && states'[|states'| - 1] == Apply(states[|states| - 1], step)
  {
    states', steps' := states + [Apply(states[|states| - 1], step)], steps + [step];
  }

  /** A retry for a time one second before the epoch is not found: the thread sleeps although it is due. */
  lemma SentinelNeglects(w: int, t: Waiter, parent: ParentInfo)
    ensures exists states: seq<State>, steps: seq<Step> ::
      && IsRun({}, states, steps) && |states| == 3
      && Neglected(states[2]) && states[2].sleepers == map[t := NoMark]
  {
    var d := R.Delays(0, 0);
    var s0 := Start({});
    var s1 := QueueRetryStep(s0, R.Fixed, w, -1, parent, 0);
    var s2 := GetRetryStep(s1, t, 0, d);
    assert s1.queues.fixed.slots == [Slot(-1, 0)];
    assert R.Scan(s1.queues, s1.segs, d) == R.NoPick;
    assert Misses(s2, t, R.Fixed, 0);
    var states, steps := [s0, s1, s2], [QueueRetry(R.Fixed, w, -1, parent, 0), GetRetry(t, 0, d)];
    assert IsRun({}, states, steps);
    assert states[2] == s2;
  }

  /** One thread sleeps until the only entry is due, another because nothing is left for it. */
  function OwnerAndIdle(w: int, a: Waiter, b: Waiter, parent: ParentInfo): State {
    var d := R.Delays(0, 0);
    Start({}).(queues := R.Queues(OneRetry(w, 100, parent).(marked := {0}), R.NO_RETRIES, R.NO_RETRIES),
               sleepers := map[a := Mark(R.Fixed, 0, 100, d), b := NoMark])
  }

  lemma OwnerThenIdle(w: int, a: Waiter, b: Waiter, parent: ParentInfo)
    requires a != b
    ensures var d := R.Delays(0, 0);
            var s1 := QueueRetryStep(Start({}), R.Fixed, w, 100, parent, 0);
            GetRetryStep(GetRetryStep(s1, a, 0, d), b, 0, d) == OwnerAndIdle(w, a, b, parent)
  {
    var d := R.Delays(0, 0);
    OneRetryTaken(w, 100, parent);
    ScanOne(w, parent);
    var s1 := QueueRetryStep(Start({}), R.Fixed, w, 100, parent, 0);
    assert s1.queues == R.Queues(OneRetry(w, 100, parent), R.NO_RETRIES, R.NO_RETRIES);
    assert GetRetryStep(s1, a, 0, d).sleepers == map[a := Mark(R.Fixed, 0, 100, d)];
  }

  lemma OwnerAndIdleReached(w: int, a: Waiter, b: Waiter, parent: ParentInfo)
    returns (states: seq<State>, steps: seq<Step>)
    requires a != b
    ensures IsRun({}, states, steps) && |states| == 4 && states[3] == OwnerAndIdle(w, a, b, parent)
  {
    OwnerThenIdle(w, a, b, parent);
    states, steps := [Start({})], [];
    states, steps := Extend(states, steps, QueueRetry(R.Fixed, w, 100, parent, 0));
    states, steps := Extend(states, steps, GetRetry(a, 0, R.Delays(0, 0)));
    states, steps := Extend(states, steps, GetRetry(b, 0, R.Delays(0, 0)));
  }

  lemma ScanOne(w: int, parent: ParentInfo)
    ensures var q, d := OneRetry(w, 100, parent), R.Delays(0, 0);
            && R.Scan(R.Queues(q, R.NO_RETRIES, R.NO_RETRIES), map[], d) == R.Pick(R.Fixed, 0, 100)
            && R.Scan(R.Queues(q.(marked := {0}), R.NO_RETRIES, R.NO_RETRIES), map[], d) == R.NoPick
  {
    var q := OneRetry(w, 100, parent);
    assert R.FirstFrom(q, map[], 0) == 0 && R.FirstFrom(q.(marked := {0}), map[], 0) == 1;
    assert R.FirstFrom(R.NO_RETRIES, map[], 0) == 0;
  }

  /** The connection of the owner is terminated, for everything or for retries. */
  function EndOfConnection(a: Waiter, forRetries: bool): Step {
    if forRetries then TerminateRetryConnection(a.conn) else TerminateConnection(a.conn)
  }

  function OwnerDown(w: int, a: Waiter, b: Waiter, parent: ParentInfo, forRetries: bool): State {
    var s := OwnerAndIdle(w, a, b, parent);
    if forRetries then s.(retryConns := {a.conn}, woken := {a, b}) else s.(conns := {a.conn}, woken := {a, b})
  }

  lemma OwnerGoesDown(w: int, a: Waiter, b: Waiter, parent: ParentInfo, forRetries: bool)
    ensures Apply(OwnerAndIdle(w, a, b, parent), EndOfConnection(a, forRetries)) ==
            OwnerDown(w, a, b, parent, forRetries)
  {
    var s := OwnerAndIdle(w, a, b, parent);
    assert s.sleepers.Keys == {a, b} && BroadcastBackends(s) == s.channels;
  }

  /** The other thread is the first to run. */
  lemma OwnerLeaves(w: int, a: Waiter, b: Waiter, parent: ParentInfo, forRetries: bool)
    requires a.conn != b.conn
    ensures var d := R.Delays(0, 0);
            var s5 := GetRetryStep(OwnerDown(w, a, b, parent, forRetries), b, 0, d);
            && s5 == OwnerDown(w, a, b, parent, forRetries).(woken := {a})
            && var s6 := GetRetryStep(s5, a, 0, d);
            && Neglected(s6) && s6.sleepers == map[b := NoMark]
  {
    var d := R.Delays(0, 0);
    ScanOne(w, parent);
    var s4 := OwnerDown(w, a, b, parent, forRetries);
    var s5 := GetRetryStep(s4, b, 0, d);
    assert s5.sleepers == s4.sleepers && s5.woken == {a};
    var s6 := GetRetryStep(s5, a, 0, d);
    assert s6.sleepers == map[b := NoMark] && s6.woken == {};
    assert Misses(s6, b, R.Fixed, 0);
  }

  /** One thread sleeps until an entry is due and another, finding it marked, without a time-out. The first is
      terminated, and leaves after the second has looked again and gone back to sleep. */
  lemma OwnerTerminated(w: int, a: Waiter, b: Waiter, parent: ParentInfo, forRetries: bool)
    requires a.conn != b.conn
    ensures exists states: seq<State>, steps: seq<Step> ::
      && IsRun({}, states, steps) && |states| == 7 && steps[3] == EndOfConnection(a, forRetries)
      && Neglected(states[6]) && states[6].sleepers == map[b := NoMark]
  {
    var states, steps := OwnerAndIdleReached(w, a, b, parent);
    OwnerGoesDown(w, a, b, parent, forRetries);
    states, steps := Extend(states, steps, EndOfConnection(a, forRetries));
    OwnerLeaves(w, a, b, parent, forRetries);
    states, steps := Extend(states, steps, GetRetry(b, 0, R.Delays(0, 0)));
    states, steps := Extend(states, steps, GetRetry(a, 0, R.Delays(0, 0)));
  }

  /** A segment of one order runs, which is queued for a retry at 50, and another order for one at 100. */
  function TwoOrders(v: int, w: int, parent: ParentInfo): State {
    Start({}).(segs := map[v := 1], segments := multiset{v},
               queues := R.Queues(OneRetry(w, 100, parent), OneRetry(v, 50, parent), R.NO_RETRIES))
  }

  lemma TwoOrdersReached(v: int, w: int, parent: ParentInfo) returns (states: seq<State>, steps: seq<Step>)
    ensures IsRun({}, states, steps) && |states| == 4 && states[3] == TwoOrders(v, w, parent)
  {
    OneRetryTaken(w, 100, parent);
    OneRetryTaken(v, 50, parent);
    var s1 := GrabStep(Start({}), v);
    var s2 := QueueRetryStep(s1, R.Delayed, v, 50, parent, 0);
    assert s2.queues == R.Queues(R.NO_RETRIES, OneRetry(v, 50, parent), R.NO_RETRIES);
    assert QueueRetryStep(s2, R.Fixed, w, 100, parent, 0).queues == TwoOrders(v, w, parent).queues;
    states, steps := [Start({})], [];
    states, steps := Extend(states, steps, GrabSegment(v));
    states, steps := Extend(states, steps, QueueRetry(R.Delayed, v, 50, parent, 0));
    states, steps := Extend(states, steps, QueueRetry(R.Fixed, w, 100, parent, 0));
  }

  lemma ScanTwoOrders(v: int, w: int, parent: ParentInfo)
    requires v != w
    ensures var q, r, d := OneRetry(w, 100, parent), OneRetry(v, 50, parent), R.Delays(0, 0);
            && R.Scan(R.Queues(q, r, R.NO_RETRIES), map[v := 1], d) == R.Pick(R.Fixed, 0, 100)
            && R.Scan(R.Queues(q.(marked := {0}), r, R.NO_RETRIES), map[v := 1], d) == R.NoPick
            && R.Scan(R.Queues(q, r, R.NO_RETRIES), map[], d) == R.Pick(R.Delayed, 0, 50)
  {
    var q, r := OneRetry(w, 100, parent), OneRetry(v, 50, parent);
    assert R.FirstFrom(q, map[v := 1], 0) == 0 && R.FirstFrom(q.(marked := {0}), map[v := 1], 0) == 1;
    assert R.FirstFrom(r, map[v := 1], 0) == 1 && R.FirstFrom(r, map[], 0) == 0 && R.FirstFrom(q, map[], 0) == 0;
    assert R.FirstFrom(R.NO_RETRIES, map[], 0) == 0 && R.FirstFrom(R.NO_RETRIES, map[v := 1], 0) == 0;
  }

  /** One thread sleeps until 100 and the other without a time-out. */
  function OwnerAndIdleOfTwo(v: int, w: int, a: Waiter, b: Waiter, parent: ParentInfo): State {
    TwoOrders(v, w, parent).(
      queues := R.Queues(OneRetry(w, 100, parent).(marked := {0}), OneRetry(v, 50, parent), R.NO_RETRIES),
      sleepers := map[a := Mark(R.Fixed, 0, 100, R.Delays(0, 0)), b := NoMark])
  }

  lemma BothSleep(v: int, w: int, a: Waiter, b: Waiter, parent: ParentInfo)
    requires v != w && a != b
    ensures var d := R.Delays(0, 0);
            GetRetryStep(GetRetryStep(TwoOrders(v, w, parent), a, 0, d), b, 0, d) ==
            OwnerAndIdleOfTwo(v, w, a, b, parent)
  {
    ScanTwoOrders(v, w, parent);
    var s4 := GetRetryStep(TwoOrders(v, w, parent), a, 0, R.Delays(0, 0));
    assert s4.sleepers == map[a := Mark(R.Fixed, 0, 100, R.Delays(0, 0))];
  }

  lemma SignalledMovesOn(v: int, w: int, a: Waiter, b: Waiter, parent: ParentInfo)
    requires v != w && a != b
    ensures var d := R.Delays(0, 0);
            var s6 := ReleaseStep(OwnerAndIdleOfTwo(v, w, a, b, parent), v, Some(a));
            && s6 == OwnerAndIdleOfTwo(v, w, a, b, parent).(segs := map[], segments := multiset{}, woken := {a})
            && var s7 := GetRetryStep(s6, a, 0, d);
            && Neglected(s7) && s7.sleepers == map[a := Mark(R.Delayed, 0, 50, d), b := NoMark]
  {
    ScanTwoOrders(v, w, parent);
    var s6 := OwnerAndIdleOfTwo(v, w, a, b, parent).(segs := map[], segments := multiset{}, woken := {a});
    assert Woken(s6, a).queues == TwoOrders(v, w, parent).queues;
    var s7 := GetRetryStep(s6, a, 0, R.Delays(0, 0));
    assert s7.sleepers == map[a := Mark(R.Delayed, 0, 50, R.Delays(0, 0)), b := NoMark] && s7.woken == {};
    assert Misses(s7, b, R.Fixed, 0);
  }

  lemma OwnerAndIdleOfTwoReached(v: int, w: int, a: Waiter, b: Waiter, parent: ParentInfo)
    returns (states: seq<State>, steps: seq<Step>)
    requires v != w && a != b
    ensures IsRun({}, states, steps) && |states| == 6 && states[5] == OwnerAndIdleOfTwo(v, w, a, b, parent)
  {
    states, steps := TwoOrdersReached(v, w, parent);
    BothSleep(v, w, a, b, parent);
    states, steps := Extend(states, steps, GetRetry(a, 0, R.Delays(0, 0)));
    states, steps := Extend(states, steps, GetRetry(b, 0, R.Delays(0, 0)));
  }

  /** The end of a segment frees an order and signals a thread that sleeps on another; it goes over to the first,
      and nobody is left awake for the second. */
  lemma SignalledOnAnother(v: int, w: int, a: Waiter, b: Waiter, parent: ParentInfo)
    requires v != w && a != b
    ensures exists states: seq<State>, steps: seq<Step> ::
      && IsRun({}, states, steps) && |states| == 8 && steps[5] == ReleaseSegment(v, Some(a))
      && Neglected(states[7]) && states[7].sleepers == map[a := Mark(R.Delayed, 0, 50, R.Delays(0, 0)), b := NoMark]
  {
    var states, steps := OwnerAndIdleOfTwoReached(v, w, a, b, parent);
    SignalledMovesOn(v, w, a, b, parent);
    states, steps := Extend(states, steps, ReleaseSegment(v, Some(a)));
    states, steps := Extend(states, steps, GetRetry(a, 0, R.Delays(0, 0)));
  }

  /** An order is queued for two retries and one of them runs. Two other orders are queued. */
  function OneRunning(w: int, parent: ParentInfo): State {
    Start({}).(segs := map[w := -1], retries := multiset{w},
               queues := R.Queues(OneRetry(w, 100, parent), HandedOut(w, 0), R.NO_RETRIES))
  }

  function QueuedAfter(w: int, x: int, parent: ParentInfo): R.RetryQueue {
    R.RetryQueue(map[0 := R.RetryEntry(x, 0, parent)], [Slot(0, 0)], map[x := 0], {},
                 [R.Asked(w, 0), R.Gone(w), R.Asked(x, 0)])
  }

  function TwoMore(w: int, x: int, y: int, parent: ParentInfo): State {
    OneRunning(w, parent).(
      queues := R.Queues(OneRetry(w, 100, parent), QueuedAfter(w, x, parent), OneRetry(y, 0, parent)))
  }

  const SOON := R.Delays(10, 60)
  const LATER := R.Delays(200, 60)

  /** Two threads sleep on these, with the same delays. */
  function TwoOwners(w: int, x: int, y: int, a: Waiter, b: Waiter, parent: ParentInfo): State {
    TwoMore(w, x, y, parent).(
      queues := R.Queues(OneRetry(w, 100, parent), QueuedAfter(w, x, parent).(marked := {0}),
                         OneRetry(y, 0, parent).(marked := {0})),
      sleepers := map[a := Mark(R.Delayed, 0, 10, SOON), b := Mark(R.AsyncDelayed, 0, 60, SOON)])
  }

  lemma ScanSoonAndLate(w: int, parent: ParentInfo)
    ensures R.Scan(R.Queues(OneRetry(w, 100, parent), OneRetry(w, 0, parent), R.NO_RETRIES), map[], R.Delays(0, 0)) ==
            R.Pick(R.Delayed, 0, 0)
  {
    var q, r := OneRetry(w, 100, parent), OneRetry(w, 0, parent);
    assert R.FirstFrom(q, map[], 0) == 0 && R.FirstFrom(r, map[], 0) == 0;
    assert R.FirstFrom(R.NO_RETRIES, map[], 0) == 0;
  }

  lemma TakesOne(w: int, a: Waiter, parent: ParentInfo)
    ensures var s1 := QueueRetryStep(Start({}), R.Delayed, w, 0, parent, 0);
            var s2 := QueueRetryStep(s1, R.Fixed, w, 100, parent, 0);
            && s1.queues.fixed == R.NO_RETRIES
            && GetRetryStep(s2, a, 0, R.Delays(0, 0)) == OneRunning(w, parent)
  {
    OneRetryTaken(w, 0, parent);
    OneRetryTaken(w, 100, parent);
    ScanSoonAndLate(w, parent);
  }

  lemma OneRunningReached(w: int, a: Waiter, parent: ParentInfo) returns (states: seq<State>, steps: seq<Step>)
    ensures IsRun({}, states, steps) && |states| == 4 && states[3] == OneRunning(w, parent)
  {
    TakesOne(w, a, parent);
    states, steps := [Start({})], [];
    states, steps := Extend(states, steps, QueueRetry(R.Delayed, w, 0, parent, 0));
    states, steps := Extend(states, steps, QueueRetry(R.Fixed, w, 100, parent, 0));
    states, steps := Extend(states, steps, GetRetry(a, 0, R.Delays(0, 0)));
  }

  lemma TwoMoreQueued(w: int, x: int, y: int, parent: ParentInfo)
    ensures var s := QueueRetryStep(OneRunning(w, parent), R.Delayed, x, 0, parent, 0);
            && s.queues.async == R.NO_RETRIES
            && QueueRetryStep(s, R.AsyncDelayed, y, 0, parent, 0) == TwoMore(w, x, y, parent)
  {
    OneRetryTaken(y, 0, parent);
    assert R.AddRetry(HandedOut(w, 0), x, 0, parent, 0).slots == [Slot(0, 0)];
    assert R.AddRetry(HandedOut(w, 0), x, 0, parent, 0) == QueuedAfter(w, x, parent);
  }

  /** The scans of the two threads, and that of the first when the order is free and its delays are longer. */
  lemma ScanThree(w: int, x: int, y: int, parent: ParentInfo)
    requires w != x && w != y
    ensures var q, r, t := OneRetry(w, 100, parent), QueuedAfter(w, x, parent), OneRetry(y, 0, parent);
            && R.Scan(R.Queues(q, r, t), map[w := -1], SOON) == R.Pick(R.Delayed, 0, 10)
            && R.Scan(R.Queues(q, r.(marked := {0}), t), map[w := -1], SOON) == R.Pick(R.AsyncDelayed, 0, 60)
            && R.Scan(R.Queues(q, r, t.(marked := {0})), map[], LATER) == R.Pick(R.Fixed, 0, 100)
  {
    var q, r, t := OneRetry(w, 100, parent), QueuedAfter(w, x, parent), OneRetry(y, 0, parent);
    assert R.FirstFrom(q, map[w := -1], 0) == 1 && R.FirstFrom(q, map[], 0) == 0;
    assert R.FirstFrom(r, map[w := -1], 0) == 0 && R.FirstFrom(r, map[], 0) == 0;
    assert R.FirstFrom(r.(marked := {0}), map[w := -1], 0) == 1;
    assert R.FirstFrom(t, map[w := -1], 0) == 0 && R.FirstFrom(t.(marked := {0}), map[], 0) == 1;
  }

  lemma OwnersSleep(w: int, x: int, y: int, a: Waiter, b: Waiter, parent: ParentInfo)
    requires w != x && w != y && a != b
    ensures GetRetryStep(GetRetryStep(TwoMore(w, x, y, parent), a, 0, SOON), b, 0, SOON) ==
            TwoOwners(w, x, y, a, b, parent)
  {
    ScanThree(w, x, y, parent);
    var s := GetRetryStep(TwoMore(w, x, y, parent), a, 0, SOON);
    assert s.sleepers == map[a := Mark(R.Delayed, 0, 10, SOON)];
  }

  /** The order is free. */
  function TwoOwnersOneFree(w: int, x: int, y: int, a: Waiter, b: Waiter, parent: ParentInfo): State {
    TwoOwners(w, x, y, a, b, parent).(segs := map[], retries := multiset{})
  }

  lemma NobodyLate(w: int, x: int, y: int, a: Waiter, b: Waiter, parent: ParentInfo)
    requires w != x && w != y && a != b
    ensures ReleaseRetryStep(TwoOwners(w, x, y, a, b, parent), w) == TwoOwnersOneFree(w, x, y, a, b, parent)
    ensures !Neglected(TwoOwnersOneFree(w, x, y, a, b, parent))
  {
    var s := TwoOwners(w, x, y, a, b, parent);
    assert BroadcastFilledBackends(s) == s.channels && map[w := -1] - {w} == map[];
  }

  lemma GivesUpOwn(w: int, x: int, y: int, a: Waiter, b: Waiter, parent: ParentInfo)
    requires w != x && w != y && a != b
    ensures Neglected(GetRetryStep(TwoOwnersOneFree(w, x, y, a, b, parent), a, 0, LATER))
  {
    ScanThree(w, x, y, parent);
    var s := TwoOwnersOneFree(w, x, y, a, b, parent);
    var t := GetRetryStep(s, a, 0, LATER);
    assert Woken(s, a).queues == R.Queues(s.queues.fixed, QueuedAfter(w, x, parent), s.queues.async);
    assert t.queues.delayed == QueuedAfter(w, x, parent) && t.woken == {};
    assert t.sleepers[b] == Mark(R.AsyncDelayed, 0, 60, SOON);
    assert Misses(t, b, R.Delayed, 0);
  }

  /** Two threads sleep on two entries, and a third entry, later than both, becomes free. One of them wakes with
      longer delays and goes over to that, and the other sleeps past the one it leaves. */
  lemma DelaysChanged(w: int, x: int, y: int, a: Waiter, b: Waiter, parent: ParentInfo)
    requires w != x && w != y && a != b
    ensures exists states: seq<State>, steps: seq<Step> ::
      && IsRun({}, states, steps) && |states| == 10 && steps[8] == GetRetry(a, 0, LATER)
      && states[8].woken == {} && Neglected(states[9])
  {
    var states, steps := TwoOwnersReached(w, x, y, a, b, parent);
    NobodyLate(w, x, y, a, b, parent);
    GivesUpOwn(w, x, y, a, b, parent);
    states, steps := Extend(states, steps, ReleaseRetry(w));
    var more, all := Extend(states, steps, GetRetry(a, 0, LATER));
    assert more[8] == TwoOwnersOneFree(w, x, y, a, b, parent);
  }

  lemma TwoOwnersReached(w: int, x: int, y: int, a: Waiter, b: Waiter, parent: ParentInfo)
    returns (states: seq<State>, steps: seq<Step>)
    requires w != x && w != y && a != b
    ensures IsRun({}, states, steps) && |states| == 8 && states[7] == TwoOwners(w, x, y, a, b, parent)
  {
    states, steps := OneRunningReached(w, a, parent);
    TwoMoreQueued(w, x, y, parent);
    states, steps := Extend(states, steps, QueueRetry(R.Delayed, x, 0, parent, 0));
    states, steps := Extend(states, steps, QueueRetry(R.AsyncDelayed, y, 0, parent, 0));
    OwnersSleep(w, x, y, a, b, parent);
    states, steps := Extend(states, steps, GetRetry(a, 0, SOON));
    states, steps := Extend(states, steps, GetRetry(b, 0, SOON));
  }
}
