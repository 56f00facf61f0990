/** What each step of the scheduler does, said by what it was asked for and who holds what. */
module SchedulerEffects {
  import opened Multimap
  import opened Orders
  import opened SegmentMap
  import B = BackendQueues
  import C = Channels
  import R = RetryQueues
  import opened Scheduler
  import opened SchedulerSafety
  import opened RetryWakeups

  // ---- who holds an order ----

  /** Neither the end nor the end of its connection has come for the thread. */
  predicate IsUp(s: State, thread: Waiter) {
    !s.term && thread.conn !in s.conns
  }

  /** The entry is the first, by priority, modified time and arrival, whose order no retry runs for. */
  ghost predicate IsFirstFree(q: B.Queue, retries: multiset<int>, id: nat) {
    && id in q.entries && q.entries[id].key.wfiid !in retries
    && forall x :: x in q.entries && q.entries[x].key.wfiid !in retries ==>
         var e, f := q.entries[id], q.entries[x];
         e.prio < f.prio || (e.prio == f.prio && (e.mod < f.mod || (e.mod == f.mod && id <= x)))
  }

  /** The step hands out the entry to a thread that asks for work of the segment. */
  ghost predicate HandsOut(s: State, step: Step, segid: int, id: nat) {
    && step.GetBackend? && step.segid == segid && segid in s.channels
    && IsUp(s, step.thread) && IsFirstFree(s.channels[segid].queue, s.retries, id)
  }

  /** What the selection found is that entry, and it finds nothing only if there is none. */
  lemma FoundIsFirstFree(s: State, segid: int, thread: Waiter, found: Option<B.Pos>, id: nat)
    requires Inv(s) && Enabled(s, GetBackend(segid, thread, found)) && IsUp(s, thread)
    ensures var q := s.channels[segid].queue;
            IsFirstFree(q, s.retries, id) <==>
              found.Some? && C.HasEntry(q, found.value) && id == q.sub[found.value.prio][found.value.i].val
  {
    var q := s.channels[segid].queue;
    assert ChannelSafe(s, segid);
    assert forall w :: InRetry(s.segs, w) <==> w in s.retries;
    assert forall x :: x in B.Takeable(q, s.segs) <==> x in q.entries && q.entries[x].key.wfiid !in s.retries;
  }

  /** A segment holds an order from the grab, or from the delivery of its entry, to the release; a grab is refused
      while a retry runs. */
  lemma SegmentsExactly(s: State, step: Step)
    requires Inv(s) && Enabled(s, step)
    ensures step.GrabSegment? ==>
      Apply(s, step).segments == if step.wfiid in s.retries then s.segments else s.segments + multiset{step.wfiid}
    ensures step.ReleaseSegment? ==> Apply(s, step).segments == s.segments - multiset{step.wfiid}
    ensures !step.GrabSegment? && !step.ReleaseSegment? && !step.GetBackend? ==> Apply(s, step).segments == s.segments
  {
    match step
    case Post(segid, key, ind, item, prio, mod, swfiid, parent, pick) =>
      assert PostStep(s, segid, key, ind, item, prio, mod, swfiid, parent, pick).segments == s.segments;
    case GetRetry(thread, now, d) => RetryHoldsNoSegment(s, thread, now, d);
    case GrabSegment(w) => assert InRetry(s.segs, w) <==> w in s.retries;
    case ReleaseSegment(w, pick) => assert ReleaseStep(s, w, pick).segments == s.segments - multiset{w};
    case GetBackend(_, _, _) =>
    case _ => SegmentsElsewhere(s, step);
  }

  /** A delivered order is held by one more segment, and none if nothing is delivered. */
  lemma DeliveredIsHeld(s: State, step: Step, id: nat)
    requires Inv(s) && Enabled(s, step) && step.GetBackend?
    ensures HandsOut(s, step, step.segid, id) ==>
      var t, w := Apply(s, step), s.channels[step.segid].queue.entries[id].key.wfiid;
      t.segments == s.segments + multiset{w} && w in t.segs && t.segs[w] == t.segments[w] > 0 && w !in t.retries
    ensures (forall x: nat :: !HandsOut(s, step, step.segid, x)) ==>
      Apply(s, step).segments == s.segments && Apply(s, step).segs == s.segs
  {
    DeliveryHolds(s, step.segid, step.thread, step.found);
    ArbitrationKept(s, step);
    if IsUp(s, step.thread) {
      FoundIsFirstFree(s, step.segid, step.thread, step.found, id);
      if step.found.Some? {
        var q, pos := s.channels[step.segid].queue, step.found.value;
        assert HandsOut(s, step, step.segid, q.sub[pos.prio][pos.i].val);
      }
    }
  }

  /** A delivery as the selection has it. */
  lemma DeliveryHolds(s: State, segid: int, thread: Waiter, found: Option<B.Pos>)
    requires Inv(s) && Enabled(s, GetBackend(segid, thread, found))
    ensures var q, t := s.channels[segid].queue, GetBackendStep(s, segid, thread, found);
            if IsUp(s, thread) && found.Some? then
              && C.HasEntry(q, found.value)
              && var id := q.sub[found.value.prio][found.value.i].val;
                 && IsFirstFree(q, s.retries, id) && t.segments == s.segments + multiset{q.entries[id].key.wfiid}
            else t.segments == s.segments && t.segs == s.segs
  {
    if IsUp(s, thread) && found.Some? {
      var q := s.channels[segid].queue;
      FoundIsFirstFree(s, segid, thread, found, q.sub[found.value.prio][found.value.i].val);
    }
  }

  lemma RetryHoldsNoSegment(s: State, thread: Waiter, now: int, d: R.Delays)
    ensures GetRetryStep(s, thread, now, d).segments == s.segments
  {
    var s1 := Woken(s, thread);
    assert s1.segments == s.segments;
    if !Leaves(s, thread) {
      ServeHoldsNoSegment(s1, thread, now, d, R.Scan(s1.queues, s1.segs, d));
    }
  }

  lemma ServeHoldsNoSegment(s: State, thread: Waiter, now: int, d: R.Delays, p: R.Pick)
    requires p.Pick? ==> R.HasEntry(s.queues.Get(p.kind), p.i)
    ensures Serve(s, thread, now, d, p).segments == s.segments
  {
  }

  lemma SegmentsElsewhere(s: State, step: Step)
    requires Enabled(s, step)
    requires !step.GetBackend? && !step.Post? && !step.GetRetry? && !step.GrabSegment? && !step.ReleaseSegment?
    ensures Apply(s, step).segments == s.segments
  {
    match step
    case Spurious(segid, thread) => assert SpuriousStep(s, segid, thread).segments == s.segments;
    case QueueRetry(kind, w, mod, parent, addr) =>
      assert QueueRetryStep(s, kind, w, mod, parent, addr).segments == s.segments;
    case _ =>
  }

  // ---- what is queued for a segment ----

  /** The node of the entry that a key has, and the entry. */
  function NodeOf(q: B.Queue, key: B.Key): Option<nat> {
    if key in q.wfmap && q.wfmap[key] in q.entries then Some(q.wfmap[key]) else None
  }

  function EntryOf(q: B.Queue, key: B.Key): Option<B.Entry> {
    if NodeOf(q, key).Some? then Some(q.entries[q.wfmap[key]]) else None
  }

  /** A submission under a key that is queued adds its step index to the entry, unless it is there; under a new key it
      is an entry of its own, as submitted, behind all that came before. Nothing else changes. */
  lemma AddExactly(q: B.Queue, key: B.Key, ind: int, item: B.Item, prio: int, mod: int, swfiid: int,
                   parent: ParentInfo, other: B.Key)
    requires B.Agrees(q)
    ensures var r := B.Add(q, key, ind, item, prio, mod, swfiid, parent);
            match EntryOf(q, key)
            case Some(e) =>
              && NodeOf(r, key) == NodeOf(q, key)
              && EntryOf(r, key) == Some(e.(inds := if ind in e.inds then e.inds else e.inds[ind := item]))
            case None =>
              && EntryOf(r, key) == Some(B.Entry(key, prio, mod, swfiid, parent, map[ind := item]))
              && (NodeOf(q, other).Some? ==> NodeOf(r, key).value > NodeOf(q, other).value)
    ensures var r := B.Add(q, key, ind, item, prio, mod, swfiid, parent);
            other != key ==> NodeOf(r, other) == NodeOf(q, other) && EntryOf(r, other) == EntryOf(q, other)
    ensures B.Add(q, key, ind, item, prio, mod, swfiid, parent).log == q.log + [B.Submit(key, ind, item)]
  {
  }

  /** Taking an entry takes it from its key, and nothing else. */
  lemma TakeExactly(q: B.Queue, pos: B.Pos, other: B.Key)
    requires B.Agrees(q) && C.HasEntry(q, pos)
    ensures var r, e := B.Take(q, pos.prio, pos.i), q.entries[q.sub[pos.prio][pos.i].val];
            && EntryOf(q, e.key) == Some(e) && EntryOf(r, e.key) == None
            && (other != e.key ==> NodeOf(r, other) == NodeOf(q, other) && EntryOf(r, other) == EntryOf(q, other))
            && r.log == q.log + [B.Deliver(e.key, e.inds)]
  {
  }

  /** The queue of a segment changes with submissions and deliveries of that segment only. */
  lemma QueuesElsewhere(s: State, step: Step, segid: int)
    requires Enabled(s, step) && segid in s.channels
    requires !(step.Post? && step.segid == segid) && !(step.GetBackend? && step.segid == segid)
    ensures segid in Apply(s, step).channels && Apply(s, step).channels[segid].queue == s.channels[segid].queue
  {
    match step
    case Post(id, key, ind, item, prio, mod, swfiid, parent, pick) =>
      assert PostStep(s, id, key, ind, item, prio, mod, swfiid, parent, pick).channels[segid] == s.channels[segid];
    case GetBackend(id, thread, found) =>
      assert GetBackendStep(s, id, thread, found).channels[segid] == s.channels[segid];
    case Spurious(id, thread) =>
      assert SpuriousStep(s, id, thread).channels[segid].queue == s.channels[segid].queue;
    case QueueRetry(kind, w, mod, parent, addr) =>
      assert QueueRetryStep(s, kind, w, mod, parent, addr).channels == s.channels;
    case GetRetry(thread, now, d) => PassLeavesChannels(s, thread, now, d);
    case _ =>
  }

  lemma PassLeavesChannels(s: State, thread: Waiter, now: int, d: R.Delays)
    ensures GetRetryStep(s, thread, now, d).channels == s.channels
  {
    var s1 := Woken(s, thread);
    assert s1.channels == s.channels;
    if !Leaves(s, thread) {
      ServeFrame(s1, thread, now, d, R.Scan(s1.queues, s1.segs, d));
    }
  }

  predicate Posts(step: Step, segid: int, key: B.Key) {
    step.Post? && step.segid == segid && step.key == key
  }

  ghost predicate Delivers(s: State, step: Step, segid: int, key: B.Key) {
    segid in s.channels &&
    exists id: nat :: HandsOut(s, step, segid, id) && s.channels[segid].queue.entries[id].key == key
  }

  /** The entry of the key after the submission, given the one before. */
  function Joined(before: Option<B.Entry>, step: Step): B.Entry
    requires step.Post?
  {
    match before
    case Some(e) => e.(inds := if step.ind in e.inds then e.inds else e.inds[step.ind := step.item])
    case None => B.Entry(step.key, step.prio, step.mod, step.swfiid, step.parent, map[step.ind := step.item])
  }

  /** What a step does to the entry of a key. */
  lemma EntriesExactly(s: State, step: Step, segid: int, key: B.Key)
    requires Inv(s) && Enabled(s, step) && segid in s.channels
    ensures segid in Apply(s, step).channels
    ensures var q, r := s.channels[segid].queue, Apply(s, step).channels[segid].queue;
            EntryOf(r, key) ==
              if Posts(step, segid, key) then Some(Joined(EntryOf(q, key), step))
              else if Delivers(s, step, segid, key) then None
              else EntryOf(q, key)
  {
    assert ChannelSafe(s, segid);
    if step.Post? && step.segid == segid {
      PostExactly(s, step, key);
      AddExactly(s.channels[segid].queue, step.key, step.ind, step.item, step.prio, step.mod, step.swfiid,
                 step.parent, key);
    } else if step.GetBackend? && step.segid == segid {
      DeliveryExactly(s, step, key);
    } else {
      QueuesElsewhere(s, step, segid);
    }
  }

  lemma PostExactly(s: State, step: Step, other: B.Key)
    requires Inv(s) && Enabled(s, step) && step.Post?
    ensures var q := s.channels[step.segid].queue;
            Apply(s, step).channels[step.segid].queue ==
            B.Add(q, step.key, step.ind, step.item, step.prio, step.mod, step.swfiid, step.parent)
    ensures var q, r := s.channels[step.segid].queue, Apply(s, step).channels[step.segid].queue;
            && (other != step.key ==> NodeOf(r, other) == NodeOf(q, other) && EntryOf(r, other) == EntryOf(q, other))
            && (EntryOf(q, step.key).None? && NodeOf(q, other).Some? ==>
                  NodeOf(r, step.key).Some? && NodeOf(r, step.key).value > NodeOf(q, other).value)
            && (EntryOf(q, step.key).Some? ==> NodeOf(r, step.key) == NodeOf(q, step.key))
  {
    assert ChannelSafe(s, step.segid);
    AddExactly(s.channels[step.segid].queue, step.key, step.ind, step.item, step.prio, step.mod, step.swfiid,
               step.parent, other);
  }

  lemma DeliveryExactly(s: State, step: Step, key: B.Key)
    requires Inv(s) && Enabled(s, step) && step.GetBackend?
    ensures var q, r := s.channels[step.segid].queue, Apply(s, step).channels[step.segid].queue;
            if Delivers(s, step, step.segid, key) then EntryOf(r, key) == None
            else EntryOf(r, key) == EntryOf(q, key) && NodeOf(r, key) == NodeOf(q, key)
  {
    var q, r := s.channels[step.segid].queue, Apply(s, step).channels[step.segid].queue;
    assert ChannelSafe(s, step.segid);
    DeliveryHolds(s, step.segid, step.thread, step.found);
    if IsUp(s, step.thread) && step.found.Some? {
      var pos := step.found.value;
      var chosen := q.sub[pos.prio][pos.i].val;
      TakeExactly(q, pos, key);
      assert r == B.Take(q, pos.prio, pos.i);
      assert HandsOut(s, step, step.segid, chosen);
      forall id: nat | HandsOut(s, step, step.segid, id) ensures id == chosen {
        FoundIsFirstFree(s, step.segid, step.thread, step.found, id);
      }
    } else {
      HandsOutIfFound(s, step);
      assert r == q;
    }
  }

  /** An entry keeps its node while its key is queued. */
  lemma NodesStay(s: State, step: Step, segid: int, key: B.Key)
    requires Inv(s) && Enabled(s, step) && segid in s.channels && segid in Apply(s, step).channels
    requires NodeOf(s.channels[segid].queue, key).Some? && !Delivers(s, step, segid, key)
    ensures NodeOf(Apply(s, step).channels[segid].queue, key) == NodeOf(s.channels[segid].queue, key)
  {
    if step.Post? && step.segid == segid {
      PostExactly(s, step, key);
    } else if step.GetBackend? && step.segid == segid {
      DeliveryExactly(s, step, key);
    } else {
      QueuesElsewhere(s, step, segid);
    }
  }

  lemma ArrivalNext(s: State, step: Step, segid: int, key: B.Key, later: B.Key)
    requires Inv(s) && Enabled(s, step) && segid in s.channels && segid in Apply(s, step).channels
    requires var q := s.channels[segid].queue;
             && NodeOf(q, key).Some? && !Delivers(s, step, segid, key)
             && if NodeOf(q, later).Some? then
                  !Delivers(s, step, segid, later) && NodeOf(q, key).value < NodeOf(q, later).value
                else Posts(step, segid, later)
    ensures var r := Apply(s, step).channels[segid].queue;
            NodeOf(r, key).Some? && NodeOf(r, later).Some? && NodeOf(r, key).value < NodeOf(r, later).value
  {
    NodesStay(s, step, segid, key);
    if NodeOf(s.channels[segid].queue, later).Some? {
      NodesStay(s, step, segid, later);
    } else {
      PostExactly(s, step, key);
    }
  }

  // ---- what is queued for a retry ----

  /** The entry that an order has in a queue. */
  function RetryOf(q: R.RetryQueue, w: int): Option<R.RetryEntry> {
    if w in q.rwmap && q.rwmap[w] in q.heap then Some(q.heap[q.rwmap[w]]) else None
  }

  predicate Requests(step: Step, k: R.Kind, w: int) {
    step.QueueRetry? && step.kind == k && step.wfiid == w
  }

  /** The entry of the order after the request: a new one as requested, or the one it has, at the earlier time. */
  function Requested(before: Option<R.RetryEntry>, step: Step): R.RetryEntry
    requires step.QueueRetry?
  {
    match before
    case Some(e) => e.(mod := if step.mod < e.mod then step.mod else e.mod)
    case None => R.RetryEntry(step.wfiid, step.mod, step.parent)
  }

  lemma RequestExactly(q: R.RetryQueue, w: int, mod: int, parent: ParentInfo, addr: nat, v: int)
    requires R.Linked(q) && addr !in q.heap
    ensures RetryOf(R.AddRetry(q, w, mod, parent, addr), v) ==
            if v != w then RetryOf(q, v)
            else match RetryOf(q, w)
                 case Some(e) => Some(e.(mod := if mod < e.mod then mod else e.mod))
                 case None => Some(R.RetryEntry(w, mod, parent))
  {
  }

  lemma RemovalExactly(q: R.RetryQueue, w: int, v: int)
    requires R.Linked(q)
    ensures RetryOf(R.RemoveOrder(q, w), v) == if v == w then None else RetryOf(q, v)
    ensures forall a :: a in R.RemoveOrder(q, w).heap ==> R.RemoveOrder(q, w).heap[a].wfiid != w
  {
  }

  lemma HandOutExactly(q: R.RetryQueue, i: nat, v: int)
    requires R.Linked(q) && R.HasEntry(q, i)
    ensures var w := q.heap[q.slots[i].val].wfiid;
            RetryOf(R.HandOut(q, i), v) == if v == w then None else RetryOf(q, v)
  {
  }

  /** A thread that asks for a retry is up and not to return for its connection. */
  predicate Asks(s: State, step: Step) {
    step.GetRetry? && IsUp(s, step.thread) && step.thread.conn !in s.retryConns
  }

  /** When an entry is to be run: at its time, or after it by the delay for its kind. */
  function TimeOf(e: R.RetryEntry, k: R.Kind, d: R.Delays): int {
    match k
    case Fixed => e.mod
    case Delayed => e.mod + d.retry
    case AsyncDelayed => e.mod + d.async
  }

  /** The step starts the retry at position `i` of its queue: it is found, and its time has come or is 0. */
  ghost predicate Starts(s: State, step: Step, k: R.Kind, i: nat) {
    && Asks(s, step) && Finds(s, step.thread, step.delays, k, i) && R.HasEntry(s.queues.Get(k), i)
    && var e := s.queues.Get(k).heap[s.queues.Get(k).slots[i].val];
    TimeOf(e, k, step.delays) == 0 || TimeOf(e, k, step.delays) <= step.now
  }

  ghost predicate StartsRetry(s: State, step: Step, k: R.Kind, w: int) {
    exists i: nat :: Starts(s, step, k, i) && s.queues.Get(k).heap[s.queues.Get(k).slots[i].val].wfiid == w
  }

  /** A pass of a thread that asks and finds nothing: it sleeps without a time-out. */
  lemma PassFindsNothing(s: State, step: Step)
    requires Inv(s) && WakesSound(s) && Enabled(s, step) && Asks(s, step)
    requires forall k: R.Kind, i: nat :: !Finds(s, step.thread, step.delays, k, i)
    ensures var t := Apply(s, step);
            && t.sleepers == s.sleepers[step.thread := NoMark] && t.woken == s.woken - {step.thread}
            && t.retries == s.retries && t.queues == Woken(s, step.thread).queues
  {
    PassServes(s, step.thread, step.now, step.delays);
    PassFinds(s, step.thread, step.delays);
  }

  /** One that finds an entry: it starts the retry, or marks the entry and sleeps until its time. */
  lemma PassFindsEntry(s: State, thread: Waiter, d: R.Delays, k: R.Kind, i: nat)
    requires Inv(s) && Finds(s, thread, d, k, i)
    ensures R.HasEntry(s.queues.Get(k), i)
    ensures R.Scan(Woken(s, thread).queues, s.segs, d) ==
            R.Pick(k, i, TimeOf(s.queues.Get(k).heap[s.queues.Get(k).slots[i].val], k, d))
  {
    PassFinds(s, thread, d);
    var p := R.Scan(Woken(s, thread).queues, s.segs, d);
    FindsOne(s, thread, d, k, i, p.kind, p.i);
  }

  lemma PassStarts(s: State, step: Step, k: R.Kind, i: nat)
    requires Inv(s) && WakesSound(s) && Enabled(s, step) && Starts(s, step, k, i)
    ensures var t, w := Apply(s, step), s.queues.Get(k).heap[s.queues.Get(k).slots[i].val].wfiid;
            && t.sleepers == s.sleepers - {step.thread} && t.woken == s.woken - {step.thread}
            && t.retries == s.retries + multiset{w}
            && w !in s.segments && w !in s.retries
            && R.HasEntry(Woken(s, step.thread).queues.Get(k), i)
            && t.queues == Woken(s, step.thread).queues.Set(k, R.HandOut(Woken(s, step.thread).queues.Get(k), i))
  {
    PassFindsEntry(s, step.thread, step.delays, k, i);
    PassServes(s, step.thread, step.now, step.delays);
    WokenEligible(s, step.thread, k, s.queues.Get(k).slots[i].val);
  }

  lemma PassSleeps(s: State, step: Step, k: R.Kind, i: nat)
    requires Inv(s) && WakesSound(s) && Enabled(s, step) && Asks(s, step)
    requires Finds(s, step.thread, step.delays, k, i) && !Starts(s, step, k, i)
    ensures R.HasEntry(s.queues.Get(k), i)
    ensures var t, a := Apply(s, step), s.queues.Get(k).slots[i].val;
            var time := TimeOf(s.queues.Get(k).heap[a], k, step.delays);
            && step.now < time && t.sleepers == s.sleepers[step.thread := Mark(k, a, time, step.delays)]
            && t.woken == s.woken - {step.thread} && t.retries == s.retries
            && var q := Woken(s, step.thread).queues.Get(k);
               t.queues == Woken(s, step.thread).queues.Set(k, q.(marked := q.marked + {a}))
  {
    PassFindsEntry(s, step.thread, step.delays, k, i);
    PassServes(s, step.thread, step.now, step.delays);
    WokenEligible(s, step.thread, k, s.queues.Get(k).slots[i].val);
    SetAfter(s.sleepers, step.thread, Mark(k, s.queues.Get(k).slots[i].val,
      TimeOf(s.queues.Get(k).heap[s.queues.Get(k).slots[i].val], k, step.delays), step.delays));
  }

  lemma SetAfter(m: map<Waiter, Mark>, thread: Waiter, mark: Mark)
    ensures (m - {thread})[thread := mark] == m[thread := mark]
  {
  }

  /** One that does not ask: it returns, and if it is up its connection is not to return again. */
  lemma PassReturns(s: State, step: Step)
    requires WakesSound(s) && Enabled(s, step) && step.GetRetry? && !Asks(s, step)
    ensures var t := Apply(s, step);
            && t.sleepers == s.sleepers - {step.thread} && t.woken == s.woken - {step.thread}
            && t.retries == s.retries && t.queues == Woken(s, step.thread).queues
            && t.retryConns == if IsUp(s, step.thread) then s.retryConns - {step.thread.conn} else s.retryConns
  {
    assert Woken(s, step.thread).sleepers == s.sleepers - {step.thread};
  }

  /** On the way its own marker goes, and nothing else. */
  lemma OwnMarkerGoes(s: State, thread: Waiter, k: R.Kind)
    ensures Woken(s, thread).queues.Get(k) ==
            s.queues.Get(k).(marked := set a | a in s.queues.Get(k).marked && !IsOwn(s, thread, k, a))
  {
    var q, r := s.queues.Get(k), Woken(s, thread).queues.Get(k);
    assert r == q.(marked := r.marked);
    forall a ensures a in r.marked <==> a in q.marked && !IsOwn(s, thread, k, a) {
    }
  }

  lemma PassRetries(s: State, step: Step)
    requires Inv(s) && WakesSound(s) && Enabled(s, step) && step.GetRetry?
    ensures forall k: R.Kind, i: nat :: Starts(s, step, k, i) ==>
      Apply(s, step).retries == s.retries + multiset{s.queues.Get(k).heap[s.queues.Get(k).slots[i].val].wfiid}
    ensures (forall k: R.Kind, i: nat :: !Starts(s, step, k, i)) ==> Apply(s, step).retries == s.retries
  {
    forall k: R.Kind, i: nat | Starts(s, step, k, i)
      ensures Apply(s, step).retries == s.retries + multiset{s.queues.Get(k).heap[s.queues.Get(k).slots[i].val].wfiid}
    {
      PassStarts(s, step, k, i);
    }
    if !Asks(s, step) {
      PassReturns(s, step);
    } else if k: R.Kind, i: nat :| Finds(s, step.thread, step.delays, k, i) {
      if !Starts(s, step, k, i) {
        PassSleeps(s, step, k, i);
      }
    } else {
      PassFindsNothing(s, step);
    }
  }

  /** A retry holds an order from its start to its release, and starts only in a pass. */
  lemma RetriesExactly(s: State, step: Step)
    requires Enabled(s, step) && !step.GetRetry?
    ensures Apply(s, step).retries == if step.ReleaseRetry? then s.retries - multiset{step.wfiid} else s.retries
  {
    match step
    case Post(segid, key, ind, item, prio, mod, swfiid, parent, pick) =>
      assert PostStep(s, segid, key, ind, item, prio, mod, swfiid, parent, pick).retries == s.retries;
    case GetBackend(segid, thread, found) => assert GetBackendStep(s, segid, thread, found).retries == s.retries;
    case Spurious(segid, thread) => assert SpuriousStep(s, segid, thread).retries == s.retries;
    case QueueRetry(kind, w, mod, parent, addr) =>
      assert QueueRetryStep(s, kind, w, mod, parent, addr).retries == s.retries;
    case _ =>
  }

  lemma SameRetry(q: R.RetryQueue, r: R.RetryQueue, w: int)
    requires r.heap == q.heap && r.rwmap == q.rwmap
    ensures RetryOf(r, w) == RetryOf(q, w)
  {
  }

  lemma QueueRetryFields(s: State, kind: R.Kind, v: int, mod: int, parent: ParentInfo, addr: nat, k: R.Kind)
    ensures var q := if k == kind then R.AddRetry(s.queues.Get(kind), v, mod, parent, addr) else s.queues.Get(k);
            var r := QueueRetryStep(s, kind, v, mod, parent, addr).queues.Get(k);
            r.heap == q.heap && r.rwmap == q.rwmap
  {
    var qs := s.queues.Set(kind, R.AddRetry(s.queues.Get(kind), v, mod, parent, addr));
    assert Requeued(qs).Get(k) == Unmarked(qs.Get(k));
  }

  lemma QueueRetryEntries(s: State, kind: R.Kind, v: int, mod: int, parent: ParentInfo, addr: nat, k: R.Kind, w: int)
    requires Inv(s) && addr !in s.queues.Get(kind).heap
    ensures var step := QueueRetry(kind, v, mod, parent, addr);
            RetryOf(QueueRetryStep(s, kind, v, mod, parent, addr).queues.Get(k), w) ==
            if Requests(step, k, w) then Some(Requested(RetryOf(s.queues.Get(k), w), step))
            else RetryOf(s.queues.Get(k), w)
  {
    var q := if k == kind then R.AddRetry(s.queues.Get(kind), v, mod, parent, addr) else s.queues.Get(k);
    assert R.Sound(s.queues.Get(kind));
    QueueRetryFields(s, kind, v, mod, parent, addr, k);
    SameRetry(q, QueueRetryStep(s, kind, v, mod, parent, addr).queues.Get(k), w);
    RequestExactly(s.queues.Get(kind), v, mod, parent, addr, w);
  }

  lemma RemoveInstanceEntries(s: State, v: int, k: R.Kind, w: int)
    requires Inv(s)
    ensures RetryOf(RemoveInstanceStep(s, v).queues.Get(k), w) == if w == v then None else RetryOf(s.queues.Get(k), w)
    ensures var heap := RemoveInstanceStep(s, v).queues.Get(k).heap; forall a :: a in heap ==> heap[a].wfiid != v
  {
    assert R.Sound(s.queues.Get(k));
    RemovalExactly(s.queues.Get(k), v, w);
    var q := R.RemoveOrder(s.queues.Get(k), v);
    assert Removed(s.queues, v).Get(k) == q && RemoveInstanceStep(s, v).queues.Get(k) == Unmarked(q);
    SameRetry(q, RemoveInstanceStep(s, v).queues.Get(k), w);
  }

  lemma PassTakesEntry(s: State, step: Step, kind: R.Kind, i: nat, k: R.Kind, w: int)
    requires Inv(s) && WakesSound(s) && Enabled(s, step) && Starts(s, step, kind, i)
    ensures RetryOf(Apply(s, step).queues.Get(k), w) ==
            if k == kind && w == s.queues.Get(kind).heap[s.queues.Get(kind).slots[i].val].wfiid then None
            else RetryOf(s.queues.Get(k), w)
  {
    var q := Woken(s, step.thread).queues.Get(kind);
    PassStarts(s, step, kind, i);
    OwnMarkerGoes(s, step.thread, kind);
    OwnMarkerGoes(s, step.thread, k);
    WokenLinked(s, step.thread);
    HandOutExactly(q, i, w);
    SameRetry(s.queues.Get(kind), q, w);
    SameRetry(s.queues.Get(k), Woken(s, step.thread).queues.Get(k), w);
    assert Apply(s, step).queues.Get(k) ==
           if k == kind then R.HandOut(q, i) else Woken(s, step.thread).queues.Get(k);
  }

  lemma PassMarksEntry(s: State, step: Step, kind: R.Kind, i: nat, k: R.Kind, w: int)
    requires Inv(s) && WakesSound(s) && Enabled(s, step) && Asks(s, step)
    requires Finds(s, step.thread, step.delays, kind, i) && !Starts(s, step, kind, i)
    ensures RetryOf(Apply(s, step).queues.Get(k), w) == RetryOf(s.queues.Get(k), w)
  {
    var qs := Woken(s, step.thread).queues;
    PassSleeps(s, step, kind, i);
    var r := qs.Get(kind).(marked := qs.Get(kind).marked + {s.queues.Get(kind).slots[i].val});
    assert Apply(s, step).queues.Get(k) == if k == kind then r else qs.Get(k);
    OwnMarkerGoes(s, step.thread, k);
    SameRetry(s.queues.Get(k), Apply(s, step).queues.Get(k), w);
  }

  lemma PassWithoutEntry(s: State, step: Step, k: R.Kind, w: int)
    requires Inv(s) && WakesSound(s) && Enabled(s, step) && step.GetRetry?
    requires Asks(s, step) ==> forall kind: R.Kind, i: nat :: !Finds(s, step.thread, step.delays, kind, i)
    ensures RetryOf(Apply(s, step).queues.Get(k), w) == RetryOf(s.queues.Get(k), w)
  {
    if Asks(s, step) {
      PassFindsNothing(s, step);
    } else {
      PassReturns(s, step);
    }
    OwnMarkerGoes(s, step.thread, k);
    SameRetry(s.queues.Get(k), Apply(s, step).queues.Get(k), w);
  }

  lemma PassLeavesEntries(s: State, step: Step, k: R.Kind, w: int)
    requires Inv(s) && WakesSound(s) && Enabled(s, step) && step.GetRetry?
    requires forall kind: R.Kind, i: nat :: !Starts(s, step, kind, i)
    ensures RetryOf(Apply(s, step).queues.Get(k), w) == RetryOf(s.queues.Get(k), w)
  {
    if !Asks(s, step) {
      PassWithoutEntry(s, step, k, w);
    } else if kind: R.Kind, i: nat :| Finds(s, step.thread, step.delays, kind, i) {
      PassMarksEntry(s, step, kind, i, k, w);
    } else {
      PassWithoutEntry(s, step, k, w);
    }
  }

  lemma PassEntries(s: State, step: Step, k: R.Kind, w: int)
    requires Inv(s) && WakesSound(s) && Enabled(s, step) && step.GetRetry?
    ensures RetryOf(Apply(s, step).queues.Get(k), w) ==
            if StartsRetry(s, step, k, w) then None else RetryOf(s.queues.Get(k), w)
  {
    if kind: R.Kind, i: nat :| Starts(s, step, kind, i) {
      PassTakesEntry(s, step, kind, i, k, w);
      StartsOne(s, step, kind, i, k, w);
    } else {
      PassLeavesEntries(s, step, k, w);
    }
  }

  /** What a step does to the entry that an order has in a queue. */
  lemma RetryEntriesExactly(s: State, step: Step, k: R.Kind, w: int)
    requires Inv(s) && WakesSound(s) && Enabled(s, step)
    ensures RetryOf(Apply(s, step).queues.Get(k), w) ==
            if Requests(step, k, w) then Some(Requested(RetryOf(s.queues.Get(k), w), step))
            else if step == RemoveInstance(w) || StartsRetry(s, step, k, w) then None
            else RetryOf(s.queues.Get(k), w)
  {
    if step.QueueRetry? {
      QueueRetryEntries(s, step.kind, step.wfiid, step.mod, step.parent, step.addr, k, w);
    } else if step.RemoveInstance? {
      RemoveInstanceEntries(s, step.wfiid, k, w);
    } else if step.GetRetry? {
      PassEntries(s, step, k, w);
    } else {
      OthersLeaveRetries(s, step, k, w);
    }
  }

  lemma OthersLeaveRetries(s: State, step: Step, k: R.Kind, w: int)
    requires Enabled(s, step) && !step.QueueRetry? && !step.RemoveInstance? && !step.GetRetry?
    ensures RetryOf(Apply(s, step).queues.Get(k), w) == RetryOf(s.queues.Get(k), w)
  {
    if step.RequeueRetries? {
      assert Requeue(s, s.queues).queues.Get(k) == Unmarked(s.queues.Get(k));
      SameRetry(s.queues.Get(k), Requeue(s, s.queues).queues.Get(k), w);
    } else {
      RetriesUntouched(s, step);
    }
  }

  lemma StartsOne(s: State, step: Step, kind: R.Kind, i: nat, k: R.Kind, w: int)
    requires Starts(s, step, kind, i)
    ensures StartsRetry(s, step, k, w) <==>
      k == kind && s.queues.Get(kind).heap[s.queues.Get(kind).slots[i].val].wfiid == w
  {
    if j: nat :| Starts(s, step, k, j) {
      FindsOne(s, step.thread, step.delays, kind, i, k, j);
    }
  }

  // ---- who sleeps and who is woken ----

  /** The step wakes everybody who sleeps for entries of the segment: a broadcast to its queue or to all, and the end
      of a retry if the queue has an entry. */
  predicate WakesAll(s: State, step: Step, segid: int) {
    || step == WakeupAll(segid) || step.TerminateConnection? || step.Terminate?
    || (step.ReleaseRetry? && segid in s.channels && s.channels[segid].queue.entries != map[])
  }

  lemma WokenAll(c: C.Channel)
    requires C.Counted(c) && B.Agrees(c.queue)
    ensures C.Wakeup(c).blocked == {}
    ensures C.WakeupUnlessEmpty(c).blocked == if c.queue.entries != map[] then {} else c.blocked
  {
    assert c.waiting == 0 ==> c.blocked == {};
    EmptyQueue(c.queue);
  }

  /** A broadcast leaves nobody asleep. */
  lemma BroadcastSleepers(s: State, step: Step, segid: int)
    requires Inv(s) && Enabled(s, step) && segid in s.channels
    requires step.WakeupAll? || step.TerminateConnection? || step.Terminate? || step.ReleaseRetry?
    ensures segid in Apply(s, step).channels
    ensures Apply(s, step).channels[segid].blocked ==
            if WakesAll(s, step, segid) then {} else s.channels[segid].blocked
  {
    assert ChannelSafe(s, segid);
    WokenAll(s.channels[segid]);
    if step.ReleaseRetry? {
      assert Apply(s, step).channels == BroadcastFilledBackends(s);
    } else if step.WakeupAll? {
      assert Apply(s, step).channels == s.channels[step.segid := C.Wakeup(s.channels[step.segid])];
    } else {
      assert Apply(s, step).channels == BroadcastBackends(s);
    }
  }

  /** Every other step leaves the sleepers of a segment alone, but for a spurious wake-up. */
  lemma OtherSleepers(s: State, step: Step, segid: int)
    requires Enabled(s, step) && segid in s.channels && !step.Post?
    requires !(step.GetBackend? && step.segid == segid)
    requires !step.WakeupAll? && !step.TerminateConnection? && !step.Terminate? && !step.ReleaseRetry?
    ensures segid in Apply(s, step).channels
    ensures Apply(s, step).channels[segid].blocked ==
            if step.Spurious? && step.segid == segid then s.channels[segid].blocked - {step.thread}
            else s.channels[segid].blocked
  {
    match step
    case GetBackend(id, thread, found) =>
      assert GetBackendStep(s, id, thread, found).channels[segid] == s.channels[segid];
    case GetRetry(thread, now, d) => PassLeavesChannels(s, thread, now, d);
    case QueueRetry(kind, w, mod, parent, addr) =>
      assert QueueRetryStep(s, kind, w, mod, parent, addr).channels == s.channels;
    case Spurious(id, thread) =>
      assert SpuriousStep(s, id, thread).channels[segid].blocked ==
        if id == segid then s.channels[segid].blocked - {thread} else s.channels[segid].blocked;
    case _ =>
  }

  lemma EmptyQueue(q: B.Queue)
    requires B.Ordered(q) && B.Slotted(q)
    ensures q.sub == map[] <==> q.entries == map[]
  {
    if q.sub != map[] {
      Inhabited(q.sub.Keys);
      var p :| p in q.sub.Keys;
      assert q.sub[p][0].val in q.entries;
    }
    if q.entries != map[] {
      assert q.entries.Keys != {};
      var id :| id in q.entries.Keys;
      assert q.entries[id].prio in q.sub;
    }
  }

  /** A pass hands out an entry exactly if the thread is up and the selection finds one. */
  lemma HandsOutIfFound(s: State, step: Step)
    requires Inv(s) && Enabled(s, step) && step.GetBackend?
    ensures (exists id: nat :: HandsOut(s, step, step.segid, id)) <==> IsUp(s, step.thread) && step.found.Some?
  {
    DeliveryHolds(s, step.segid, step.thread, step.found);
    if IsUp(s, step.thread) && step.found.Some? {
      var q, pos := s.channels[step.segid].queue, step.found.value;
      assert HandsOut(s, step, step.segid, q.sub[pos.prio][pos.i].val);
    } else if IsUp(s, step.thread) {
      forall id: nat ensures !HandsOut(s, step, step.segid, id) {
        FoundIsFirstFree(s, step.segid, step.thread, step.found, id);
      }
    }
  }

  lemma PassAttends(s: State, step: Step)
    requires Inv(s) && Enabled(s, step) && step.GetBackend?
    ensures !Down(s, step.thread) && step.found.Some? ==> C.HasEntry(s.channels[step.segid].queue, step.found.value)
    ensures Apply(s, step).channels[step.segid] ==
            C.Attend(s.channels[step.segid], step.thread, Down(s, step.thread), step.found)
  {
    assert Apply(s, step) == GetBackendStep(s, step.segid, step.thread, step.found);
  }

  /** A thread goes to sleep in the pass in which it is up and finds nothing; after any pass it has used up what woke
      it. */
  lemma PassSleepers(s: State, step: Step)
    requires Inv(s) && Enabled(s, step) && step.GetBackend?
    ensures var c, d := s.channels[step.segid], Apply(s, step).channels[step.segid];
            && d.signalled == c.signalled - {step.thread}
            && d.blocked == if IsUp(s, step.thread) && forall id: nat :: !HandsOut(s, step, step.segid, id)
                            then c.blocked + {step.thread} else c.blocked
  {
    HandsOutIfFound(s, step);
    PassAttends(s, step);
  }

  /** A submission wakes the thread that the signal picks if its key is new, and nobody else. */
  lemma PostSleepers(s: State, step: Step, segid: int, u: Waiter)
    requires Inv(s) && Enabled(s, step) && step.Post? && segid in s.channels
    ensures segid in Apply(s, step).channels
    ensures var c, d := s.channels[segid], Apply(s, step).channels[segid];
            u in d.blocked <==>
              && u in c.blocked
              && !(step.segid == segid && step.pick == Some(u) && EntryOf(c.queue, step.key).None?)
  {
    var t := PostStep(s, step.segid, step.key, step.ind, step.item, step.prio, step.mod, step.swfiid, step.parent,
                      step.pick);
    assert Apply(s, step) == t;
    if step.segid == segid {
      var c := s.channels[segid];
      assert ChannelSafe(s, segid);
      SignalReaches(c, step.key, step.ind, step.item, step.prio, step.mod, step.swfiid, step.parent, step.pick, u);
    } else {
      assert t.channels[segid] == s.channels[segid];
    }
  }

  lemma SignalReaches(c: C.Channel, key: B.Key, ind: int, item: B.Item, prio: int, mod: int, swfiid: int,
                      parent: ParentInfo, pick: Option<Waiter>, u: Waiter)
    requires B.Agrees(c.queue) && C.Counted(c) && C.CanPick(c, pick)
    ensures u in C.Post(c, key, ind, item, prio, mod, swfiid, parent, pick).blocked <==>
      u in c.blocked && !(pick == Some(u) && EntryOf(c.queue, key).None?)
  {
    assert c.waiting == 0 ==> c.blocked == {};
    assert EntryOf(c.queue, key).None? <==> key !in c.queue.wfmap;
  }

  /** The end, and the ends of connections. */
  lemma EndsExactly(s: State, step: Step)
    requires Enabled(s, step)
    ensures Apply(s, step).term == (s.term || step.Terminate?)
    ensures Apply(s, step).conns ==
            if step.TerminateConnection? then s.conns + {step.conn}
            else if step.CleanupConnection? then s.conns - {step.conn} else s.conns
    ensures Apply(s, step).retryConns ==
            if step.TerminateRetryConnection? then s.retryConns + {step.conn}
            else if step.GetRetry? && IsUp(s, step.thread) then s.retryConns - {step.thread.conn} else s.retryConns
  {
    match step
    case Post(segid, key, ind, item, prio, mod, swfiid, parent, pick) =>
      var t := PostStep(s, segid, key, ind, item, prio, mod, swfiid, parent, pick);
      assert t.term == s.term && t.conns == s.conns && t.retryConns == s.retryConns;
    case GetBackend(segid, thread, found) =>
      var t := GetBackendStep(s, segid, thread, found);
      assert t.term == s.term && t.conns == s.conns && t.retryConns == s.retryConns;
    case Spurious(segid, thread) =>
      var t := SpuriousStep(s, segid, thread);
      assert t.term == s.term && t.conns == s.conns && t.retryConns == s.retryConns;
    case QueueRetry(kind, w, mod, parent, addr) =>
      var t := QueueRetryStep(s, kind, w, mod, parent, addr);
      assert t.term == s.term && t.conns == s.conns && t.retryConns == s.retryConns;
    case GetRetry(thread, now, d) => PassEnds(s, thread, now, d);
    case _ =>
  }

  lemma PassEnds(s: State, thread: Waiter, now: int, d: R.Delays)
    ensures var t := GetRetryStep(s, thread, now, d);
            && t.term == s.term && t.conns == s.conns
            && t.retryConns == if IsUp(s, thread) then s.retryConns - {thread.conn} else s.retryConns
  {
    var s1 := Woken(s, thread);
    assert s1.term == s.term && s1.conns == s.conns && s1.retryConns == s.retryConns;
    if !Leaves(s, thread) {
      ServeSleepers(s1, thread, now, d, R.Scan(s1.queues, s1.segs, d));
      assert s.retryConns - {thread.conn} == s.retryConns;
    }
  }

  /** The step clears all markers: a request for an earlier time than the order has, if it has one, a removal, or a
      request to look again. */
  predicate Clears(s: State, step: Step) {
    || step.RemoveInstance? || step.RequeueRetries?
    || (step.QueueRetry? &&
        var e := RetryOf(s.queues.Get(step.kind), step.wfiid); e.None? || step.mod < e.value.mod)
  }

  /** Everybody is woken, and no step but a pass changes who sleeps. */
  predicate WakesRetries(s: State, step: Step) {
    Clears(s, step) || step.TerminateConnection? || step.TerminateRetryConnection? || step.Terminate?
  }

  /** Whom the steps other than passes wake among the retry threads: all, the one that the signal at the end of the last
      segment picks, or nobody. */
  lemma RetryWakesExactly(s: State, step: Step)
    requires Inv(s) && Enabled(s, step) && !step.GetRetry?
    ensures Apply(s, step).sleepers == s.sleepers
    ensures Apply(s, step).woken ==
            if WakesRetries(s, step) then s.sleepers.Keys
            else if step.ReleaseSegment? && s.segments[step.wfiid] == 1 && step.pick.Some? then
              s.woken + {step.pick.value}
            else s.woken
  {
    SleepersStay(s, step);
    if step.QueueRetry? {
      RequestWakes(s, step);
    } else if step.ReleaseSegment? {
      ReleaseWakes(s, step);
    } else {
      OthersWakeRetries(s, step);
    }
  }

  lemma RequestWakes(s: State, step: Step)
    requires Enabled(s, step) && step.QueueRetry?
    ensures Apply(s, step).woken == if Clears(s, step) then s.sleepers.Keys else s.woken
  {
    var q := s.queues.Get(step.kind);
    assert Clears(s, step) <==> !R.Rejects(q, step.wfiid, step.mod);
    assert Apply(s, step) == QueueRetryStep(s, step.kind, step.wfiid, step.mod, step.parent, step.addr);
  }

  lemma ReleaseWakes(s: State, step: Step)
    requires Inv(s) && Enabled(s, step) && step.ReleaseSegment?
    ensures Apply(s, step).woken ==
            if s.segments[step.wfiid] == 1 && step.pick.Some? then s.woken + {step.pick.value} else s.woken
  {
    ReleaseArbitrates(s.segs, s.segments, s.retries, step.wfiid);
    assert Apply(s, step) == ReleaseStep(s, step.wfiid, step.pick);
  }

  lemma OthersWakeRetries(s: State, step: Step)
    requires Enabled(s, step) && !step.GetRetry? && !step.QueueRetry? && !step.ReleaseSegment?
    ensures Apply(s, step).woken == if WakesRetries(s, step) then s.sleepers.Keys else s.woken
  {
    if step.Post? {
      assert Apply(s, step) == PostStep(s, step.segid, step.key, step.ind, step.item, step.prio, step.mod, step.swfiid,
                                        step.parent, step.pick);
    } else if step.GetBackend? {
      assert Apply(s, step) == GetBackendStep(s, step.segid, step.thread, step.found);
    } else if step.Spurious? {
      assert Apply(s, step) == SpuriousStep(s, step.segid, step.thread);
    } else {
      RestWakesRetries(s, step);
    }
  }

  lemma RestWakesRetries(s: State, step: Step)
    requires Enabled(s, step) && !step.GetRetry? && !step.QueueRetry? && !step.ReleaseSegment?
    requires !step.Post? && !step.GetBackend? && !step.Spurious?
    ensures Apply(s, step).woken == if WakesRetries(s, step) then s.sleepers.Keys else s.woken
  {
  }

  lemma MarkersExactly(s: State, step: Step, k: R.Kind)
    requires Enabled(s, step) && !step.GetRetry?
    ensures Apply(s, step).queues.Get(k).marked == if Clears(s, step) then {} else s.queues.Get(k).marked
  {
    match step
    case QueueRetry(kind, w, mod, parent, addr) =>
      var qs := s.queues.Set(kind, R.AddRetry(s.queues.Get(kind), w, mod, parent, addr));
      assert Requeued(qs).Get(k) == Unmarked(qs.Get(k));
      assert QueueRetryStep(s, kind, w, mod, parent, addr).queues == if Clears(s, step) then Requeued(qs) else qs;
      assert qs.Get(k).marked == s.queues.Get(k).marked;
    case RemoveInstance(w) => assert RemoveInstanceStep(s, w).queues.Get(k) == Unmarked(Removed(s.queues, w).Get(k));
    case RequeueRetries => assert Requeue(s, s.queues).queues.Get(k) == Unmarked(s.queues.Get(k));
    case _ => RetriesUntouched(s, step);
  }
}
