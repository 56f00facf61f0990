/** SegmentEventQueue as a machine: many threads, one mutex. A step is what one thread
    does between taking the mutex and releasing it or starting to wait. */
module Scheduler {
  import opened Orders
  import opened SegmentMap
  import B = BackendQueues
  import opened Channels
  import R = RetryQueues

  /** What a retry thread sleeps on: nothing, or an entry that it has marked, with the time-out of the wait and
      the delays that it looked with. */
  datatype Mark = NoMark | Mark(kind: R.Kind, addr: nat, until: int, delays: R.Delays) {
    predicate IsOn(k: R.Kind, a: nat) {
      Mark? && kind == k && addr == a
    }
  }

  /** `segments` and `retries` record who holds an order, as the callers see it. `sleepers` are the threads in
      a wait on the retry condition, `woken` those of them that were signalled and have not run yet. */
  datatype State = State(
    segs: map<int, int>,
    segments: multiset<int>,
    retries: multiset<int>,
    channels: map<int, Channel>,
    queues: R.Queues,
    sleepers: map<Waiter, Mark>,
    woken: set<Waiter>,
    conns: set<int>,
    retryConns: set<int>,
    term: bool)

  function Start(segids: set<int>): State {
    State(map[], multiset{}, multiset{}, map id | id in segids :: NEW_CHANNEL,
          R.Queues(R.NO_RETRIES, R.NO_RETRIES, R.NO_RETRIES), map[], {}, {}, {}, false)
  }

  datatype Step =
    | Post(segid: int, key: B.Key, ind: int, item: B.Item, prio: int, mod: int, swfiid: int, parent: ParentInfo,
           pick: Option<Waiter>)
    | GetBackend(segid: int, thread: Waiter, found: Option<B.Pos>)
    | Spurious(segid: int, thread: Waiter)
    | WakeupAll(segid: int)
    | GrabSegment(wfiid: int)
    | ReleaseSegment(wfiid: int, pick: Option<Waiter>)
    | ReleaseRetry(wfiid: int)
    | QueueRetry(kind: R.Kind, wfiid: int, mod: int, parent: ParentInfo, addr: nat)
    | RemoveInstance(wfiid: int)
    | RequeueRetries
    | GetRetry(thread: Waiter, now: int, delays: R.Delays)
    | TerminateConnection(conn: int)
    | TerminateRetryConnection(conn: int)
    | CleanupConnection(conn: int)
    | Terminate

  // ---- the steps ----

  /** The queue is being destroyed or the thread's connection is terminated. */
  predicate Down(s: State, thread: Waiter) {
    s.term || thread.conn in s.conns
  }

  /** A signal on the retry condition reaches one of the threads asleep on it, if there is one. */
  predicate CanPickSleeper(s: State, pick: Option<Waiter>) {
    match pick
    case None => s.sleepers.Keys <= s.woken
    case Some(t) => t in s.sleepers && t !in s.woken
  }

  /** When a thread can take the step; releases must match grabs. A thread in a wait on the retry condition
      can go on at any time: signalled, timed out or woken spuriously. */
  ghost predicate Enabled(s: State, step: Step) {
    match step
    case Post(segid, _, _, _, _, _, _, _, pick) => segid in s.channels && CanPick(s.channels[segid], pick)
    case GetBackend(segid, thread, found) =>
      && segid in s.channels && thread !in s.channels[segid].blocked
      && (Down(s, thread) || B.IsOutcome(s.channels[segid].queue, s.segs, found))
    case Spurious(segid, thread) => segid in s.channels && thread in s.channels[segid].blocked
    case WakeupAll(segid) => segid in s.channels
    case ReleaseSegment(w, pick) => w in s.segments && CanPickSleeper(s, pick)
    case ReleaseRetry(w) => w in s.retries
    case QueueRetry(kind, _, _, _, addr) => addr !in s.queues.Get(kind).heap
    case _ => true
  }

  function WithChannel(s: State, segid: int, c: Channel): State {
    s.(channels := s.channels[segid := c])
  }

  function GetBackendStep(s: State, segid: int, thread: Waiter, found: Option<B.Pos>): State
    requires segid in s.channels
    requires !Down(s, thread) && found.Some? ==> HasEntry(s.channels[segid].queue, found.value)
  {
    var c := s.channels[segid];
    var t := WithChannel(s, segid, Attend(c, thread, Down(s, thread), found));
    if Down(s, thread) || found == None then t
    else
      var w := c.queue.entries[c.queue.sub[found.value.prio][found.value.i].val].key.wfiid;
      t.(segs := Grab(s.segs, w), segments := s.segments + multiset{w})
  }

  function BroadcastBackends(s: State): map<int, Channel> {
    map id | id in s.channels :: Wakeup(s.channels[id])
  }

  function BroadcastFilledBackends(s: State): map<int, Channel> {
    map id | id in s.channels :: WakeupUnlessEmpty(s.channels[id])
  }

  function Unmarked(q: R.RetryQueue): R.RetryQueue {
    q.(marked := {})
  }

  /** requeue_retries_intern: every marker goes and every sleeper is woken. */
  function Requeue(s: State, qs: R.Queues): State {
    s.(queues := Requeued(qs), woken := s.sleepers.Keys)
  }

  function Requeued(qs: R.Queues): R.Queues {
    R.Queues(Unmarked(qs.fixed), Unmarked(qs.delayed), Unmarked(qs.async))
  }

  /** After its wait a thread deletes its marker if it is still there. */
  function Awake(qs: R.Queues, mark: Mark): R.Queues {
    match mark
    case NoMark => qs
    case Mark(kind, addr, _, _) => qs.Set(kind, qs.Get(kind).(marked := qs.Get(kind).marked - {addr}))
  }

  /** An entry whose trigger is 0 is never compared with the clock. */
  predicate Due(trigger: int, now: int) {
    trigger == 0 || trigger <= now
  }

  /** The thread leaves its wait, if it was in one. */
  function Woken(s: State, thread: Waiter): State {
    if thread in s.sleepers then
      s.(queues := Awake(s.queues, s.sleepers[thread]), sleepers := s.sleepers - {thread},
         woken := s.woken - {thread})
    else s
  }

  /** The entry that the scan found. */
  function Picked(s: State, p: R.Pick): R.RetryEntry
    requires p.Pick? && R.HasEntry(s.queues.Get(p.kind), p.i)
  {
    s.queues.Get(p.kind).heap[s.queues.Get(p.kind).slots[p.i].val]
  }

  /** What the scan found is handed out if it is due and slept on otherwise. */
  function Serve(s: State, thread: Waiter, now: int, d: R.Delays, p: R.Pick): State
    requires p.Pick? ==> R.HasEntry(s.queues.Get(p.kind), p.i)
  {
    match p
    case NoPick => s.(sleepers := s.sleepers[thread := NoMark])
    case Pick(kind, i, trigger) =>
      var q := s.queues.Get(kind);
      var a := q.slots[i].val;
      if Due(trigger, now) then
        s.(queues := s.queues.Set(kind, R.HandOut(q, i)),
           segs := StartRetry(s.segs, q.heap[a].wfiid),
           retries := s.retries + multiset{q.heap[a].wfiid})
      else
        s.(queues := s.queues.Set(kind, q.(marked := q.marked + {a})),
           sleepers := s.sleepers[thread := Mark(kind, a, trigger, d)])
  }

  /** A terminated thread returns; one whose connection is for retries returns once. */
  function LookForRetry(s: State, thread: Waiter, now: int, d: R.Delays): State {
    if Down(s, thread) then s
    else if thread.conn in s.retryConns then s.(retryConns := s.retryConns - {thread.conn})
    else Serve(s, thread, now, d, R.Scan(s.queues, s.segs, d))
  }

  function GetRetryStep(s: State, thread: Waiter, now: int, d: R.Delays): State {
    LookForRetry(Woken(s, thread), thread, now, d)
  }

  function PostStep(s: State, segid: int, key: B.Key, ind: int, item: B.Item, prio: int, mod: int, swfiid: int,
                    parent: ParentInfo, pick: Option<Waiter>): State
    requires segid in s.channels
  {
    WithChannel(s, segid, Channels.Post(s.channels[segid], key, ind, item, prio, mod, swfiid, parent, pick))
  }

  function SpuriousStep(s: State, segid: int, thread: Waiter): State
    requires segid in s.channels
  {
    var c := s.channels[segid];
    WithChannel(s, segid, c.(blocked := c.blocked - {thread}, signalled := c.signalled + {thread}))
  }

  function GrabStep(s: State, w: int): State {
    if InRetry(s.segs, w) then s else s.(segs := Grab(s.segs, w), segments := s.segments + multiset{w})
  }

  /** The end of the last segment signals one retry thread. */
  function ReleaseStep(s: State, w: int, pick: Option<Waiter>): State {
    s.(segs := Release(s.segs, w), segments := s.segments - multiset{w},
       woken := if w !in Release(s.segs, w) && pick.Some? then s.woken + {pick.value} else s.woken)
  }

  function ReleaseRetryStep(s: State, w: int): State {
    s.(segs := EndRetry(s.segs, w), retries := s.retries - multiset{w}, channels := BroadcastFilledBackends(s))
  }

  function QueueRetryStep(s: State, kind: R.Kind, w: int, mod: int, parent: ParentInfo, addr: nat): State {
    var qs := s.queues.Set(kind, R.AddRetry(s.queues.Get(kind), w, mod, parent, addr));
    if R.Rejects(s.queues.Get(kind), w, mod) then s.(queues := qs) else Requeue(s, qs)
  }

  function RemoveInstanceStep(s: State, w: int): State {
    Requeue(s, Removed(s.queues, w))
  }

  function Removed(qs: R.Queues, w: int): R.Queues {
    R.Queues(R.RemoveOrder(qs.fixed, w), R.RemoveOrder(qs.delayed, w), R.RemoveOrder(qs.async, w))
  }

  function TerminateConnectionStep(s: State, conn: int): State {
    s.(conns := s.conns + {conn}, channels := BroadcastBackends(s), woken := s.sleepers.Keys)
  }

  function TerminateStep(s: State): State {
    s.(term := true, channels := BroadcastBackends(s), woken := s.sleepers.Keys)
  }

  function Apply(s: State, step: Step): State
    requires Enabled(s, step)
  {
    match step
    case Post(segid, key, ind, item, prio, mod, swfiid, parent, pick) =>
      PostStep(s, segid, key, ind, item, prio, mod, swfiid, parent, pick)
    case GetBackend(segid, thread, found) => GetBackendStep(s, segid, thread, found)
    case Spurious(segid, thread) => SpuriousStep(s, segid, thread)
    case WakeupAll(segid) => WithChannel(s, segid, Wakeup(s.channels[segid]))
    case GrabSegment(w) => GrabStep(s, w)
    case ReleaseSegment(w, pick) => ReleaseStep(s, w, pick)
    case ReleaseRetry(w) => ReleaseRetryStep(s, w)
    case QueueRetry(kind, w, mod, parent, addr) => QueueRetryStep(s, kind, w, mod, parent, addr)
    case RemoveInstance(w) => RemoveInstanceStep(s, w)
    case RequeueRetries => Requeue(s, s.queues)
    case GetRetry(thread, now, d) => GetRetryStep(s, thread, now, d)
    case TerminateConnection(conn) => TerminateConnectionStep(s, conn)
    case TerminateRetryConnection(conn) => s.(retryConns := s.retryConns + {conn}, woken := s.sleepers.Keys)
    case CleanupConnection(conn) => s.(conns := s.conns - {conn})
    case Terminate => TerminateStep(s)
  }

  // ---- what every step keeps ----

  ghost predicate ChannelSafe(s: State, segid: int)
    requires segid in s.channels
  {
    B.Agrees(s.channels[segid].queue) && Served(s.channels[segid], s.segs, s.conns, s.term)
  }

  ghost predicate ChannelsSafe(s: State) {
    forall id :: id in s.channels ==> ChannelSafe(s, id)
  }

  /** Every marker refers to a live entry of its queue and belongs to a thread asleep on it. */
  ghost predicate MarkersSafe(s: State) {
    forall kind: R.Kind, a :: a in s.queues.Get(kind).marked ==>
      && a in s.queues.Get(kind).heap
      && exists t :: t in s.sleepers && s.sleepers[t].IsOn(kind, a)
  }

  ghost predicate RetriesSound(s: State) {
    forall kind: R.Kind :: R.Sound(s.queues.Get(kind))
  }

  ghost predicate Inv(s: State) {
    && Arbitrates(s.segs, s.segments, s.retries)
    && ChannelsSafe(s)
    && RetriesSound(s)
    && MarkersSafe(s)
  }
}
