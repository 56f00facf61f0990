/** Every interleaving of the scheduler's steps keeps its invariant. */
module SchedulerSafety {
  import opened Orders
  import opened SegmentMap
  import B = BackendQueues
  import opened Channels
  import R = RetryQueues
  import opened Scheduler

  // ---- the arbitration map ----

  lemma GetBackendArbitrates(s: State, segid: int, thread: Waiter, found: Option<B.Pos>)
    requires Inv(s) && Enabled(s, GetBackend(segid, thread, found))
    ensures var t := GetBackendStep(s, segid, thread, found); Arbitrates(t.segs, t.segments, t.retries)
  {
    if !Down(s, thread) && found.Some? {
      var q := s.channels[segid].queue;
      GrabArbitrates(s.segs, s.segments, s.retries, q.entries[q.sub[found.value.prio][found.value.i].val].key.wfiid);
    }
  }

  lemma ServeArbitrates(s: State, thread: Waiter, now: int, d: R.Delays, p: R.Pick)
    requires Arbitrates(s.segs, s.segments, s.retries)
    requires p.Pick? ==> p.i < |s.queues.Get(p.kind).slots|
    requires p.Pick? ==> R.Eligible(s.queues.Get(p.kind), s.segs, s.queues.Get(p.kind).slots[p.i].val)
    ensures var t := Serve(s, thread, now, d, p); Arbitrates(t.segs, t.segments, t.retries)
  {
    if p.Pick? {
      var q := s.queues.Get(p.kind);
      StartRetryArbitrates(s.segs, s.segments, s.retries, q.heap[q.slots[p.i].val].wfiid);
    }
  }

  lemma GetRetryArbitrates(s: State, thread: Waiter, now: int, d: R.Delays)
    requires Arbitrates(s.segs, s.segments, s.retries)
    ensures var t := GetRetryStep(s, thread, now, d); Arbitrates(t.segs, t.segments, t.retries)
  {
    var s1 := Woken(s, thread);
    assert s1.segs == s.segs && s1.segments == s.segments && s1.retries == s.retries;
    if !Down(s, thread) && thread.conn !in s.retryConns {
      ServeArbitrates(s1, thread, now, d, R.Scan(s1.queues, s.segs, d));
    }
  }

  lemma ArbitrationKept(s: State, step: Step)
    requires Inv(s) && Enabled(s, step)
    ensures var t := Apply(s, step); Arbitrates(t.segs, t.segments, t.retries)
  {
    match step
    case GetBackend(segid, thread, found) => GetBackendArbitrates(s, segid, thread, found);
    case GetRetry(thread, now, d) => GetRetryArbitrates(s, thread, now, d);
    case GrabSegment(w) =>
      if !InRetry(s.segs, w) {
        GrabArbitrates(s.segs, s.segments, s.retries, w);
      }
    case ReleaseSegment(w, _) => ReleaseArbitrates(s.segs, s.segments, s.retries, w);
    case ReleaseRetry(w) => EndRetryArbitrates(s.segs, s.segments, s.retries, w);
    case _ =>
  }

  // ---- the backend queues ----

  /** A channel that nobody touched, in a state where no retry ended. */
  lemma BystanderSafe(s: State, id: int, segs: map<int, int>)
    requires id in s.channels && ChannelSafe(s, id)
    requires forall w :: InRetry(s.segs, w) ==> InRetry(segs, w)
    ensures Served(s.channels[id], segs, s.conns, s.term)
  {
    ServedMonotone(s.channels[id], s.segs, s.channels[id], segs, s.conns, s.term);
  }

  lemma PostKept(s: State, step: Step)
    requires ChannelsSafe(s) && Enabled(s, step) && step.Post?
    ensures ChannelsSafe(Apply(s, step))
  {
    var c := s.channels[step.segid];
    assert ChannelSafe(s, step.segid);
    B.AddKeeps(c.queue, step.key, step.ind, step.item, step.prio, step.mod, step.swfiid, step.parent);
    PostServed(c, step.key, step.ind, step.item, step.prio, step.mod, step.swfiid, step.parent, step.pick,
               s.segs, s.conns, s.term);
    var d := Channels.Post(c, step.key, step.ind, step.item, step.prio, step.mod, step.swfiid, step.parent, step.pick);
    assert d.queue == B.Add(c.queue, step.key, step.ind, step.item, step.prio, step.mod, step.swfiid, step.parent);
    OneChannelKept(s, step.segid, d);
  }

  lemma OneChannelKept(s: State, segid: int, d: Channel)
    requires ChannelsSafe(s) && B.Agrees(d.queue) && Served(d, s.segs, s.conns, s.term)
    ensures ChannelsSafe(WithChannel(s, segid, d))
  {
    var t := WithChannel(s, segid, d);
    forall id | id in t.channels ensures ChannelSafe(t, id) {
      if id != segid {
        assert ChannelSafe(s, id);
      }
    }
  }

  lemma GetBackendChannel(s: State, segid: int, thread: Waiter, found: Option<B.Pos>)
    requires Inv(s) && Enabled(s, GetBackend(segid, thread, found))
    ensures ChannelSafe(GetBackendStep(s, segid, thread, found), segid)
  {
    var c := s.channels[segid];
    assert ChannelSafe(s, segid);
    if Down(s, thread) {
      QuitServed(c, thread, s.segs, s.conns, s.term);
    } else if found.None? {
      BlockServed(c, thread, s.segs, s.conns, s.term);
    } else {
      B.TakeKeeps(c.queue, found.value.prio, found.value.i);
      TakeServed(c, thread, found.value, s.segs, s.conns, s.term);
    }
  }

  lemma GetBackendKept(s: State, segid: int, thread: Waiter, found: Option<B.Pos>)
    requires Inv(s) && Enabled(s, GetBackend(segid, thread, found))
    ensures ChannelsSafe(GetBackendStep(s, segid, thread, found))
  {
    var t := GetBackendStep(s, segid, thread, found);
    GetBackendChannel(s, segid, thread, found);
    forall id | id in t.channels ensures ChannelSafe(t, id) {
      if id != segid {
        assert ChannelSafe(s, id);
        BystanderSafe(s, id, t.segs);
      }
    }
  }

  lemma SpuriousKept(s: State, segid: int, thread: Waiter)
    requires Inv(s) && Enabled(s, Spurious(segid, thread))
    ensures ChannelsSafe(Apply(s, Spurious(segid, thread)))
  {
    var t := Apply(s, Spurious(segid, thread));
    assert ChannelSafe(s, segid);
    ServedMonotone(s.channels[segid], s.segs, t.channels[segid], s.segs, s.conns, s.term);
    forall id | id in t.channels ensures ChannelSafe(t, id) {
      assert ChannelSafe(s, id);
    }
  }

  lemma BroadcastKept(s: State, t: State)
    requires Inv(s) && t.channels == BroadcastBackends(s)
    ensures ChannelsSafe(t)
  {
    forall id | id in t.channels ensures ChannelSafe(t, id) {
      assert ChannelSafe(s, id);
      WakeupServed(s.channels[id], t.segs, t.conns, t.term);
    }
  }

  lemma ReleaseRetryKept(s: State, w: int)
    requires Inv(s) && Enabled(s, ReleaseRetry(w))
    ensures ChannelsSafe(Apply(s, ReleaseRetry(w)))
  {
    var t := Apply(s, ReleaseRetry(w));
    forall id | id in t.channels ensures ChannelSafe(t, id) {
      assert ChannelSafe(s, id);
      EndRetryServed(s.channels[id], s.segs, t.segs, s.conns, s.term);
    }
  }

  lemma WakeupAllKept(s: State, segid: int)
    requires Inv(s) && Enabled(s, WakeupAll(segid))
    ensures ChannelsSafe(Apply(s, WakeupAll(segid)))
  {
    var t := Apply(s, WakeupAll(segid));
    forall id | id in t.channels ensures ChannelSafe(t, id) {
      assert ChannelSafe(s, id);
      WakeupServed(s.channels[id], s.segs, s.conns, s.term);
    }
  }

  /** Steps that leave the channels alone and end no retry. */
  lemma SegmentsKept(s: State, t: State)
    requires ChannelsSafe(s) && t.channels == s.channels && t.conns == s.conns && t.term == s.term
    requires forall w :: InRetry(s.segs, w) ==> InRetry(t.segs, w)
    ensures ChannelsSafe(t)
  {
    forall id | id in t.channels ensures ChannelSafe(t, id) {
      assert ChannelSafe(s, id);
      BystanderSafe(s, id, t.segs);
    }
  }

  lemma CleanupKept(s: State, conn: int)
    requires Inv(s)
    ensures ChannelsSafe(Apply(s, CleanupConnection(conn)))
  {
    var t := Apply(s, CleanupConnection(conn));
    forall id | id in t.channels ensures ChannelSafe(t, id) {
      assert ChannelSafe(s, id);
      CardinalityMonotone(Live(s.channels[id], s.conns), Live(t.channels[id], t.conns));
    }
  }

  /** Handing out a retry leaves the channels alone and ends no other retry. */
  lemma ServeFrame(s: State, thread: Waiter, now: int, d: R.Delays, p: R.Pick)
    requires p.Pick? ==> R.HasEntry(s.queues.Get(p.kind), p.i)
    ensures var t := Serve(s, thread, now, d, p);
            && t.channels == s.channels && t.conns == s.conns && t.term == s.term
            && (forall w :: InRetry(s.segs, w) ==> InRetry(t.segs, w))
  {
  }

  lemma GetRetryChannels(s: State, thread: Waiter, now: int, d: R.Delays)
    requires ChannelsSafe(s)
    ensures ChannelsSafe(GetRetryStep(s, thread, now, d))
  {
    var s1 := Woken(s, thread);
    var t := GetRetryStep(s, thread, now, d);
    assert s1.channels == s.channels && s1.conns == s.conns && s1.term == s.term && s1.segs == s.segs;
    if !Down(s, thread) && thread.conn !in s.retryConns {
      ServeFrame(s1, thread, now, d, R.Scan(s1.queues, s.segs, d));
    }
    SegmentsKept(s, t);
  }

  lemma GrabKept(s: State, w: int)
    requires ChannelsSafe(s)
    ensures ChannelsSafe(GrabStep(s, w))
  {
    SegmentsKept(s, GrabStep(s, w));
  }

  lemma ReleaseKept(s: State, w: int, pick: Option<Waiter>)
    requires ChannelsSafe(s) && Arbitrates(s.segs, s.segments, s.retries) && w in s.segments
    ensures ChannelsSafe(ReleaseStep(s, w, pick))
  {
    SegmentsKept(s, ReleaseStep(s, w, pick));
  }

  lemma TerminateKept(s: State, step: Step)
    requires Inv(s) && (step.TerminateConnection? || step.Terminate?)
    ensures ChannelsSafe(Apply(s, step))
  {
    match step
    case TerminateConnection(conn) => BroadcastKept(s, TerminateConnectionStep(s, conn));
    case Terminate => BroadcastKept(s, TerminateStep(s));
  }

  /** Steps on the retry queues alone. */
  lemma RetryStepsKept(s: State, step: Step)
    requires ChannelsSafe(s) && Enabled(s, step)
    requires step.QueueRetry? || step.RemoveInstance? || step.RequeueRetries? || step.TerminateRetryConnection?
    ensures ChannelsSafe(Apply(s, step))
  {
    match step
    case QueueRetry(kind, w, mod, parent, addr) => SegmentsKept(s, QueueRetryStep(s, kind, w, mod, parent, addr));
    case RemoveInstance(w) => SegmentsKept(s, RemoveInstanceStep(s, w));
    case RequeueRetries => SegmentsKept(s, Requeue(s, s.queues));
    case TerminateRetryConnection(conn) => SegmentsKept(s, Apply(s, step));
  }

  lemma ChannelsKept(s: State, step: Step)
    requires Inv(s) && Enabled(s, step)
    ensures ChannelsSafe(Apply(s, step))
  {
    match step
    case Post(_, _, _, _, _, _, _, _, _) => PostKept(s, step);
    case GetBackend(segid, thread, found) => GetBackendKept(s, segid, thread, found);
    case Spurious(segid, thread) => SpuriousKept(s, segid, thread);
    case WakeupAll(segid) => WakeupAllKept(s, segid);
    case ReleaseRetry(w) => ReleaseRetryKept(s, w);
    case GrabSegment(w) => GrabKept(s, w);
    case ReleaseSegment(w, pick) => ReleaseKept(s, w, pick);
    case GetRetry(thread, now, d) => GetRetryChannels(s, thread, now, d);
    case TerminateConnection(_) => TerminateKept(s, step);
    case Terminate => TerminateKept(s, step);
    case CleanupConnection(conn) => CleanupKept(s, conn);
    case _ => RetryStepsKept(s, step);
  }

  // ---- the retry queues ----

  lemma MarksAside(q: R.RetryQueue, marked: set<nat>)
    requires R.Sound(q)
    ensures R.Sound(q.(marked := marked))
  {
    var r := q.(marked := marked);
    forall w ensures R.QueuedTime(r, w) == R.Earliest(r.log, w) {
      assert R.QueuedTime(q, w) == R.Earliest(q.log, w);
    }
  }

  lemma SetSound(s: State, kind: R.Kind, q: R.RetryQueue, t: State)
    requires RetriesSound(s) && R.Sound(q) && t.queues == s.queues.Set(kind, q)
    ensures RetriesSound(t)
  {
    forall k: R.Kind ensures R.Sound(t.queues.Get(k)) {
      assert t.queues.Get(k) == if k == kind then q else s.queues.Get(k);
      assert R.Sound(s.queues.Get(k));
    }
  }

  lemma RequeuedSound(s: State, t: State)
    requires RetriesSound(s) && t.queues == Requeued(s.queues)
    ensures RetriesSound(t)
  {
    forall k: R.Kind ensures R.Sound(t.queues.Get(k)) {
      assert R.Sound(s.queues.Get(k));
      MarksAside(s.queues.Get(k), {});
      assert t.queues.Get(k) == s.queues.Get(k).(marked := {});
    }
  }

  lemma RemoveInstanceSound(s: State, w: int)
    requires RetriesSound(s)
    ensures RetriesSound(RemoveInstanceStep(s, w))
  {
    var t := s.(queues := Removed(s.queues, w));
    forall k: R.Kind ensures R.Sound(t.queues.Get(k)) {
      assert R.Sound(s.queues.Get(k));
      R.RemoveSound(s.queues.Get(k), w);
      assert t.queues.Get(k) == R.RemoveOrder(s.queues.Get(k), w);
    }
    RequeuedSound(t, RemoveInstanceStep(s, w));
  }

  lemma WokenSound(s: State, thread: Waiter)
    requires RetriesSound(s)
    ensures RetriesSound(Woken(s, thread))
  {
    if thread in s.sleepers && s.sleepers[thread].Mark? {
      var kind := s.sleepers[thread].kind;
      var q := s.queues.Get(kind);
      assert R.Sound(q);
      MarksAside(q, q.marked - {s.sleepers[thread].addr});
      SetSound(s, kind, q.(marked := q.marked - {s.sleepers[thread].addr}), Woken(s, thread));
    }
  }

  lemma ServeSound(s: State, thread: Waiter, now: int, d: R.Delays, p: R.Pick)
    requires RetriesSound(s)
    requires p.Pick? ==> R.HasEntry(s.queues.Get(p.kind), p.i)
    ensures RetriesSound(Serve(s, thread, now, d, p))
  {
    if p.Pick? {
      var q := s.queues.Get(p.kind);
      assert R.Sound(q);
      if Due(p.trigger, now) {
        R.HandOutSound(q, p.i);
        SetSound(s, p.kind, R.HandOut(q, p.i), Serve(s, thread, now, d, p));
      } else {
        MarksAside(q, q.marked + {q.slots[p.i].val});
        SetSound(s, p.kind, q.(marked := q.marked + {q.slots[p.i].val}), Serve(s, thread, now, d, p));
      }
    }
  }

  lemma GetRetrySound(s: State, thread: Waiter, now: int, d: R.Delays)
    requires RetriesSound(s)
    ensures RetriesSound(GetRetryStep(s, thread, now, d))
  {
    var s1 := Woken(s, thread);
    WokenSound(s, thread);
    ServeSound(s1, thread, now, d, R.Scan(s1.queues, s.segs, d));
  }

  lemma QueueRetrySound(s: State, kind: R.Kind, w: int, mod: int, parent: ParentInfo, addr: nat)
    requires RetriesSound(s) && Enabled(s, QueueRetry(kind, w, mod, parent, addr))
    ensures RetriesSound(Apply(s, QueueRetry(kind, w, mod, parent, addr)))
  {
    var q := s.queues.Get(kind);
    assert R.Sound(q);
    R.AddSound(q, w, mod, parent, addr);
    var t := s.(queues := s.queues.Set(kind, R.AddRetry(q, w, mod, parent, addr)));
    SetSound(s, kind, R.AddRetry(q, w, mod, parent, addr), t);
    RequeuedSound(t, Requeue(s, t.queues));
  }

  predicate TouchesRetries(step: Step) {
    step.QueueRetry? || step.RemoveInstance? || step.RequeueRetries? || step.GetRetry?
  }

  lemma RetriesUntouched(s: State, step: Step)
    requires Enabled(s, step) && !TouchesRetries(step)
    ensures Apply(s, step).queues == s.queues && Apply(s, step).sleepers == s.sleepers
  {
    match step
    case Post(segid, key, ind, item, prio, mod, swfiid, parent, pick) =>
      assert PostStep(s, segid, key, ind, item, prio, mod, swfiid, parent, pick).queues == s.queues;
    case GetBackend(segid, thread, found) => assert GetBackendStep(s, segid, thread, found).queues == s.queues;
    case Spurious(segid, thread) => assert SpuriousStep(s, segid, thread).queues == s.queues;
    case _ =>
  }

  lemma RetriesKept(s: State, step: Step)
    requires Inv(s) && Enabled(s, step)
    ensures RetriesSound(Apply(s, step))
  {
    match step
    case QueueRetry(kind, w, mod, parent, addr) => QueueRetrySound(s, kind, w, mod, parent, addr);
    case RemoveInstance(w) => RemoveInstanceSound(s, w);
    case RequeueRetries => RequeuedSound(s, Requeue(s, s.queues));
    case GetRetry(thread, now, d) => GetRetrySound(s, thread, now, d);
    case _ => RetriesUntouched(s, step);
  }

  // ---- the markers ----

  /** After its own marker is gone, a thread's sleep is nobody's business. */
  lemma AwakeMarkers(s: State, thread: Waiter)
    requires MarkersSafe(s) && thread in s.sleepers
    ensures MarkersSafe(Woken(s, thread))
  {
    var t := Woken(s, thread);
    forall kind: R.Kind, a | a in t.queues.Get(kind).marked
      ensures a in t.queues.Get(kind).heap && exists x :: x in t.sleepers && t.sleepers[x].IsOn(kind, a)
    {
      assert a in s.queues.Get(kind).marked;
      var x :| x in s.sleepers && s.sleepers[x].IsOn(kind, a);
      assert x != thread;
      assert x in t.sleepers;
    }
  }

  lemma HandOutMarkers(s: State, kind: R.Kind, i: nat, t: State)
    requires MarkersSafe(s) && R.HasEntry(s.queues.Get(kind), i)
    requires s.queues.Get(kind).slots[i].val !in s.queues.Get(kind).marked
    requires t.sleepers == s.sleepers && t.queues == s.queues.Set(kind, R.HandOut(s.queues.Get(kind), i))
    ensures MarkersSafe(t)
  {
    forall k: R.Kind, a | a in t.queues.Get(k).marked
      ensures a in t.queues.Get(k).heap && exists x :: x in t.sleepers && t.sleepers[x].IsOn(k, a)
    {
      assert a in s.queues.Get(k).marked;
    }
  }

  lemma SleepMarkers(s: State, thread: Waiter, mark: Mark, t: State)
    requires MarkersSafe(s) && thread !in s.sleepers && mark.Mark? && mark.addr in s.queues.Get(mark.kind).heap
    requires var q := s.queues.Get(mark.kind);
             t.queues == s.queues.Set(mark.kind, q.(marked := q.marked + {mark.addr}))
    requires t.sleepers == s.sleepers[thread := mark]
    ensures MarkersSafe(t)
  {
    forall k: R.Kind, b | b in t.queues.Get(k).marked
      ensures b in t.queues.Get(k).heap && exists x :: x in t.sleepers && t.sleepers[x].IsOn(k, b)
    {
      if b in s.queues.Get(k).marked {
        var x :| x in s.sleepers && s.sleepers[x].IsOn(k, b);
        assert t.sleepers[x].IsOn(k, b);
      } else {
        assert t.sleepers[thread].IsOn(k, b);
      }
    }
  }

  lemma RestMarkers(s: State, thread: Waiter, t: State)
    requires MarkersSafe(s) && thread !in s.sleepers
    requires t.queues == s.queues && t.sleepers == s.sleepers[thread := NoMark]
    ensures MarkersSafe(t)
  {
    forall k: R.Kind, b | b in t.queues.Get(k).marked
      ensures b in t.queues.Get(k).heap && exists x :: x in t.sleepers && t.sleepers[x].IsOn(k, b)
    {
      assert b in s.queues.Get(k).marked;
      var x :| x in s.sleepers && s.sleepers[x].IsOn(k, b);
      assert t.sleepers[x].IsOn(k, b);
    }
  }

  lemma GetRetryMarkers(s: State, thread: Waiter, now: int, d: R.Delays)
    requires Inv(s)
    ensures MarkersSafe(GetRetryStep(s, thread, now, d))
  {
    var s1 := Woken(s, thread);
    if thread in s.sleepers {
      AwakeMarkers(s, thread);
    }
    if !Down(s, thread) && thread.conn !in s.retryConns {
      var p := R.Scan(s1.queues, s.segs, d);
      var t := Serve(s1, thread, now, d, p);
      if p.NoPick? {
        RestMarkers(s1, thread, t);
      } else if Due(p.trigger, now) {
        HandOutMarkers(s1, p.kind, p.i, t);
      } else {
        SleepMarkers(s1, thread, Mark(p.kind, s1.queues.Get(p.kind).slots[p.i].val, p.trigger, d), t);
      }
    }
  }

  lemma QueueRetryMarkers(s: State, kind: R.Kind, w: int, mod: int, parent: ParentInfo, addr: nat)
    requires MarkersSafe(s)
    ensures MarkersSafe(QueueRetryStep(s, kind, w, mod, parent, addr))
  {
    var t := QueueRetryStep(s, kind, w, mod, parent, addr);
    var q := s.queues.Get(kind);
    if R.Rejects(q, w, mod) {
      forall k: R.Kind, b | b in t.queues.Get(k).marked
        ensures b in t.queues.Get(k).heap && exists x :: x in t.sleepers && t.sleepers[x].IsOn(k, b)
      {
        assert t.queues.Get(k).marked == s.queues.Get(k).marked;
        assert t.queues.Get(k).heap == s.queues.Get(k).heap;
        assert b in s.queues.Get(k).marked;
      }
    } else {
      NoMarkers(s.queues.Set(kind, R.AddRetry(q, w, mod, parent, addr)), t);
    }
  }

  lemma NoMarkers(qs: R.Queues, t: State)
    requires t.queues == Requeued(qs)
    ensures MarkersSafe(t)
  {
    assert forall k: R.Kind :: t.queues.Get(k).marked == {};
  }

  lemma RemoveInstanceMarkers(s: State, w: int)
    ensures MarkersSafe(RemoveInstanceStep(s, w))
  {
    NoMarkers(Removed(s.queues, w), RemoveInstanceStep(s, w));
  }

  lemma MarkersKept(s: State, step: Step)
    requires Inv(s) && Enabled(s, step)
    ensures MarkersSafe(Apply(s, step))
  {
    if !TouchesRetries(step) {
      RetriesUntouched(s, step);
      SameMarkers(s, Apply(s, step));
    } else {
      match step
      case QueueRetry(kind, w, mod, parent, addr) => QueueRetryMarkers(s, kind, w, mod, parent, addr);
      case RemoveInstance(w) => RemoveInstanceMarkers(s, w);
      case RequeueRetries => NoMarkers(s.queues, Apply(s, step));
      case GetRetry(thread, now, d) => GetRetryMarkers(s, thread, now, d);
    }
  }

  lemma SameMarkers(s: State, t: State)
    requires MarkersSafe(s) && t.queues == s.queues && t.sleepers == s.sleepers
    ensures MarkersSafe(t)
  {
    forall k: R.Kind, b | b in t.queues.Get(k).marked
      ensures b in t.queues.Get(k).heap && exists x :: x in t.sleepers && t.sleepers[x].IsOn(k, b)
    {
      assert b in s.queues.Get(k).marked;
    }
  }

  // ---- whole runs ----

  /** A run: each step is enabled where it is taken. */
  ghost predicate IsRun(segids: set<int>, states: seq<State>, steps: seq<Step>) {
    && |states| == |steps| + 1
    && states[0] == Start(segids)
    && (forall i :: 0 <= i < |steps| ==> Enabled(states[i], steps[i]) && states[i + 1] == Apply(states[i], steps[i]))
  }

  lemma StartSafe(segids: set<int>)
    ensures Inv(Start(segids))
  {
    var s := Start(segids);
    assert B.Agrees(B.EMPTY);
    forall id | id in s.channels ensures ChannelSafe(s, id) {
      assert s.channels[id] == NEW_CHANNEL;
    }
    assert R.Sound(R.NO_RETRIES);
    forall kind: R.Kind ensures R.Sound(s.queues.Get(kind)) && s.queues.Get(kind).marked == {} {
      assert s.queues.Get(kind) == R.NO_RETRIES;
    }
  }

  lemma StepSafe(s: State, step: Step)
    requires Inv(s) && Enabled(s, step)
    ensures Inv(Apply(s, step))
  {
    ArbitrationKept(s, step);
    ChannelsKept(s, step);
    RetriesKept(s, step);
    MarkersKept(s, step);
  }

  lemma {:induction false} RunSafe(segids: set<int>, states: seq<State>, steps: seq<Step>, i: nat)
    requires IsRun(segids, states, steps) && i < |states|
    ensures Inv(states[i])
  {
    if i == 0 {
      StartSafe(segids);
    } else {
      RunSafe(segids, states, steps, i - 1);
      StepSafe(states[i - 1], steps[i - 1]);
    }
  }

  // ---- what that means in every reachable state ----

  /** No lost wake-up: while a thread sleeps on a backend queue, there are at least as many
      woken threads with a live connection as entries that can be taken. */
  lemma NoLostWakeup(segids: set<int>, states: seq<State>, steps: seq<Step>, i: nat, segid: int)
    requires IsRun(segids, states, steps) && i < |states| && segid in states[i].channels
    ensures var c := states[i].channels[segid];
            c.blocked != {} ==> |B.Takeable(c.queue, states[i].segs)| <= |Live(c, states[i].conns)|
    ensures forall w :: w in states[i].channels[segid].blocked ==> !Down(states[i], w)
  {
    RunSafe(segids, states, steps, i);
    assert ChannelSafe(states[i], segid);
  }

  /** A retry of an order excludes everything else on it; the map says -1 for it, the number
      of segments otherwise, and has no entry for an order that nobody holds. */
  lemma RetryExcludesSegments(segids: set<int>, states: seq<State>, steps: seq<Step>, i: nat, w: int)
    requires IsRun(segids, states, steps) && i < |states|
    ensures var s := states[i];
            && s.retries[w] <= 1 && (w in s.retries ==> w !in s.segments)
            && (w in s.segs <==> w in s.segments || w in s.retries)
            && (w in s.segs ==> s.segs[w] == if w in s.retries then -1 else s.segments[w])
  {
    RunSafe(segids, states, steps, i);
  }

  /** Every delivery carried exactly the step indexes submitted for its key since the
      delivery before, each with the data of its first submission. */
  lemma LoggedDeliveries(segids: set<int>, states: seq<State>, steps: seq<Step>, i: nat,
                         segid: int, n: nat, ind: int)
    requires IsRun(segids, states, steps) && i < |states| && segid in states[i].channels
    requires n < |states[i].channels[segid].queue.log| && states[i].channels[segid].queue.log[n].Deliver?
    ensures var log := states[i].channels[segid].queue.log;
            && (ind in log[n].inds <==> exists m: nat :: B.Counts(log[..n], m, log[n].key, ind))
            && (forall m: nat :: B.Counts(log[..n], m, log[n].key, ind) ==> log[n].inds[ind] == log[m].item)
  {
    RunSafe(segids, states, steps, i);
    assert ChannelSafe(states[i], segid);
    var log := states[i].channels[segid].queue.log;
    B.PendingMeaning(log[..n], log[n].key, ind);
  }

  /** An order queued for retry is queued once, at the earliest time asked for since it was
      last removed or handed out; one that nothing was asked for since is not queued. */
  lemma RetriesKeepEarliest(segids: set<int>, states: seq<State>, steps: seq<Step>, i: nat, kind: R.Kind, w: int)
    requires IsRun(segids, states, steps) && i < |states|
    ensures var q := states[i].queues.Get(kind);
            && (w in q.rwmap <==> exists n: nat :: R.Stands(q.log, n, w))
            && (w in q.rwmap ==> q.rwmap[w] in q.heap)
            && (w in q.rwmap ==>
                  exists n: nat :: R.Stands(q.log, n, w) && q.log[n].mod == q.heap[q.rwmap[w]].mod)
            && (forall n: nat :: R.Stands(q.log, n, w) && w in q.rwmap && q.rwmap[w] in q.heap ==>
                  q.heap[q.rwmap[w]].mod <= q.log[n].mod)
            && (forall a :: a in q.heap && q.heap[a].wfiid == w ==> w in q.rwmap && q.rwmap[w] == a)
  {
    RunSafe(segids, states, steps, i);
    var q := states[i].queues.Get(kind);
    assert R.Sound(q);
    R.EarliestMeaning(q.log, w);
    assert R.QueuedTime(q, w) == R.Earliest(q.log, w);
  }

  /** A marker always refers to an entry of its queue that some thread is asleep on. */
  lemma MarkersNeverDangle(segids: set<int>, states: seq<State>, steps: seq<Step>, i: nat, kind: R.Kind)
    requires IsRun(segids, states, steps) && i < |states|
    ensures R.NoDangling(states[i].queues.Get(kind))
    ensures forall a :: a in states[i].queues.Get(kind).marked ==>
      exists t :: t in states[i].sleepers && states[i].sleepers[t].IsOn(kind, a)
  {
    RunSafe(segids, states, steps, i);
  }

  /** `t` follows from `s` by a thread that found `p`: if that is for now or for no time at all, a retry of its order
      starts, which nobody holds; otherwise no retry starts, and the thread sleeps, until the time if it found one. */
  ghost predicate StartsOnlyDue(s: State, p: R.Pick, thread: Waiter, now: int, t: State) {
    match p
    case NoPick => t.retries == s.retries && thread in t.sleepers && t.sleepers[thread].NoMark?
    case Pick(kind, i, trigger) =>
      && R.HasEntry(s.queues.Get(kind), i)
      && var a := s.queues.Get(kind).slots[i].val;
      var w := s.queues.Get(kind).heap[a].wfiid;
      if trigger == 0 || trigger <= now then
        t.retries == s.retries + multiset{w} && w !in s.segments && w !in s.retries && thread !in t.sleepers
      else
        && t.retries == s.retries && thread in t.sleepers && t.sleepers[thread].IsOn(kind, a)
        && t.sleepers[thread].until == trigger > now
  }

  lemma ServeStartsOnlyDue(s: State, thread: Waiter, now: int, d: R.Delays)
    requires Arbitrates(s.segs, s.segments, s.retries) && thread !in s.sleepers
    ensures var p := R.Scan(s.queues, s.segs, d); StartsOnlyDue(s, p, thread, now, Serve(s, thread, now, d, p))
  {
  }

  lemma WokenLinked(s: State, thread: Waiter)
    requires RetriesSound(s)
    ensures R.AllLinked(Woken(s, thread).queues)
  {
    WokenSound(s, thread);
    forall k: R.Kind ensures R.Linked(Woken(s, thread).queues.Get(k)) {
      assert R.Sound(Woken(s, thread).queues.Get(k));
    }
  }

  /** A thread that asks for a retry in a reachable state looks at the earliest eligible
      entry of the three queues - given that the earliest trigger is not -1 - and starts a
      retry exactly if that entry is due, and otherwise sleeps until it is. */
  lemma RetriesInOrder(segids: set<int>, states: seq<State>, steps: seq<Step>, i: nat)
    requires IsRun(segids, states, steps) && i < |steps| && steps[i].GetRetry?
    requires !Down(states[i], steps[i].thread) && steps[i].thread.conn !in states[i].retryConns
    requires !R.EarliestIsSentinel(Woken(states[i], steps[i].thread).queues, states[i].segs, steps[i].delays)
    ensures var s1 := Woken(states[i], steps[i].thread);
            var p := R.Scan(s1.queues, states[i].segs, steps[i].delays);
            && R.ScanRight(s1.queues, states[i].segs, steps[i].delays, p)
            && StartsOnlyDue(s1, p, steps[i].thread, steps[i].now, states[i + 1])
  {
    RunSafe(segids, states, steps, i);
    var s, thread, d := states[i], steps[i].thread, steps[i].delays;
    WokenLinked(s, thread);
    R.ScanFinds(Woken(s, thread).queues, s.segs, d);
    ServeStartsOnlyDue(Woken(s, thread), thread, steps[i].now, d);
  }
}
