/** Whole runs of the scheduler by the steps taken: what a segment's queue and a retry queue hold and hand out. */
module SchedulerHistories {
  import opened Orders
  import B = BackendQueues
  import C = Channels
  import R = RetryQueues
  import opened Scheduler
  import opened SchedulerSafety
  import opened RetryWakeups
  import opened SchedulerEffects

  // ---- deliveries of a run ----

  lemma {:induction false} SegmentsStay(segids: set<int>, states: seq<State>, steps: seq<Step>, i: nat, segid: int)
    requires IsRun(segids, states, steps) && i < |states| && segid in segids
    ensures segid in states[i].channels
  {
    if i > 0 {
      SegmentsStay(segids, states, steps, i - 1, segid);
      RunSafe(segids, states, steps, i - 1);
      EntriesExactly(states[i - 1], steps[i - 1], segid, B.Key(0, B.Single));
    }
  }

  /** The steps from here to `i` are those after the last delivery of the key. */
  ghost function Since(states: seq<State>, steps: seq<Step>, segid: int, key: B.Key, i: nat): (n: nat)
    requires i <= |steps| < |states|
    ensures n <= i
  {
    if i == 0 then 0
    else if Delivers(states[i - 1], steps[i - 1], segid, key) then i
    else Since(states, steps, segid, key, i - 1)
  }

  /** Step `n` submits the key since then. */
  ghost predicate IsPosted(states: seq<State>, steps: seq<Step>, segid: int, key: B.Key, n: nat, i: nat)
    requires i <= |steps| < |states|
  {
    Since(states, steps, segid, key, i) <= n < i && Posts(steps[n], segid, key)
  }

  /** It is the first to do so, of any step index or of its own. */
  ghost predicate IsFirstPost(states: seq<State>, steps: seq<Step>, segid: int, key: B.Key, n: nat, i: nat)
    requires i <= |steps| < |states|
  {
    && IsPosted(states, steps, segid, key, n, i)
    && forall m :: 0 <= m < n ==> !IsPosted(states, steps, segid, key, m, i)
  }

  ghost predicate IsFirstOf(states: seq<State>, steps: seq<Step>, segid: int, key: B.Key, n: nat, i: nat)
    requires i <= |steps| < |states|
  {
    && IsPosted(states, steps, segid, key, n, i)
    && forall m :: 0 <= m < n && IsPosted(states, steps, segid, key, m, i) ==> steps[m].ind != steps[n].ind
  }

  /** The key is queued with what was submitted for it since its last delivery: at the priority and the time of the
      first submission, and for each step index with the data of the first. */
  ghost predicate IsQueuedSince(states: seq<State>, steps: seq<Step>, segid: int, key: B.Key, i: nat,
                                queued: Option<B.Entry>)
    requires i <= |steps| < |states|
  {
    && (queued.Some? <==> exists n: nat :: IsPosted(states, steps, segid, key, n, i))
    && (queued.Some? ==> CarriesSince(states, steps, segid, key, i, queued.value))
  }

  ghost predicate CarriesSince(states: seq<State>, steps: seq<Step>, segid: int, key: B.Key, i: nat, e: B.Entry)
    requires i <= |steps| < |states|
  {
    && e.key == key
    && (forall n: nat :: IsFirstPost(states, steps, segid, key, n, i) ==>
          && (e.prio, e.mod) == (steps[n].prio, steps[n].mod)
          && (e.swfiid, e.parent) == (steps[n].swfiid, steps[n].parent))
    && (forall ind :: ind in e.inds <==>
          exists n: nat :: IsPosted(states, steps, segid, key, n, i) && steps[n].ind == ind)
    && (forall n: nat :: IsFirstOf(states, steps, segid, key, n, i) ==>
          steps[n].ind in e.inds && e.inds[steps[n].ind] == steps[n].item)
  }

  /** The step neither submits nor delivers the key. */
  lemma SamePosted(states: seq<State>, steps: seq<Step>, segid: int, key: B.Key, i: nat, j: nat, n: nat)
    requires i < |steps| < |states| && j == i + 1 && !Delivers(states[i], steps[i], segid, key)
    ensures IsPosted(states, steps, segid, key, n, j) <==>
      IsPosted(states, steps, segid, key, n, i) || (n == i && Posts(steps[i], segid, key))
  {
  }

  /** A submission extends what was queued. */
  lemma PostedSince(states: seq<State>, steps: seq<Step>, segid: int, key: B.Key, i: nat, j: nat,
                    queued: Option<B.Entry>)
    requires i < |steps| < |states| && j == i + 1 && Posts(steps[i], segid, key)
    requires IsQueuedSince(states, steps, segid, key, i, queued)
    ensures IsQueuedSince(states, steps, segid, key, j, Some(Joined(queued, steps[i])))
  {
    forall n: nat
      ensures IsPosted(states, steps, segid, key, n, j) <==> IsPosted(states, steps, segid, key, n, i) || n == i
    {
      SamePosted(states, steps, segid, key, i, j, n);
    }
    var e := Joined(queued, steps[i]);
    assert IsPosted(states, steps, segid, key, i, j);
    forall n: nat | IsFirstPost(states, steps, segid, key, n, j)
      ensures (e.prio, e.mod) == (steps[n].prio, steps[n].mod)
      ensures (e.swfiid, e.parent) == (steps[n].swfiid, steps[n].parent)
    {
      JoinsFirst(states, steps, segid, key, i, j, queued, n);
    }
    forall n: nat | IsFirstOf(states, steps, segid, key, n, j)
      ensures steps[n].ind in e.inds && e.inds[steps[n].ind] == steps[n].item
    {
      JoinsFirstOf(states, steps, segid, key, i, j, queued, n);
    }
    forall ind ensures ind in e.inds <==>
        exists n: nat :: IsPosted(states, steps, segid, key, n, j) && steps[n].ind == ind
    {
      JoinsIndex(states, steps, segid, key, i, j, queued, ind);
    }
  }

  ghost predicate IsPostedNext(states: seq<State>, steps: seq<Step>, segid: int, key: B.Key, i: nat, j: nat)
    requires i < |steps| < |states| && j == i + 1
  {
    && Posts(steps[i], segid, key)
    && forall n: nat ::
         IsPosted(states, steps, segid, key, n, j) <==> IsPosted(states, steps, segid, key, n, i) || n == i
  }

  lemma JoinsFirst(states: seq<State>, steps: seq<Step>, segid: int, key: B.Key, i: nat, j: nat,
                   queued: Option<B.Entry>, n: nat)
    requires i < |steps| < |states| && j == i + 1 && IsPostedNext(states, steps, segid, key, i, j)
    requires IsQueuedSince(states, steps, segid, key, i, queued) && IsFirstPost(states, steps, segid, key, n, j)
    ensures var e := Joined(queued, steps[i]);
            && (e.prio, e.mod) == (steps[n].prio, steps[n].mod)
            && (e.swfiid, e.parent) == (steps[n].swfiid, steps[n].parent)
  {
    if n < i {
      assert IsFirstPost(states, steps, segid, key, n, i);
    } else {
      forall m: nat ensures !IsPosted(states, steps, segid, key, m, i) {
      }
    }
  }

  lemma JoinsFirstOf(states: seq<State>, steps: seq<Step>, segid: int, key: B.Key, i: nat, j: nat,
                     queued: Option<B.Entry>, n: nat)
    requires i < |steps| < |states| && j == i + 1 && IsPostedNext(states, steps, segid, key, i, j)
    requires IsQueuedSince(states, steps, segid, key, i, queued) && IsFirstOf(states, steps, segid, key, n, j)
    ensures var e := Joined(queued, steps[i]); steps[n].ind in e.inds && e.inds[steps[n].ind] == steps[n].item
  {
    if n < i {
      assert IsFirstOf(states, steps, segid, key, n, i);
    } else {
      forall m: nat | IsPosted(states, steps, segid, key, m, i) ensures steps[m].ind != steps[n].ind {
      }
    }
  }

  lemma JoinsIndex(states: seq<State>, steps: seq<Step>, segid: int, key: B.Key, i: nat, j: nat,
                   queued: Option<B.Entry>, ind: int)
    requires i < |steps| < |states| && j == i + 1 && IsPostedNext(states, steps, segid, key, i, j)
    requires IsQueuedSince(states, steps, segid, key, i, queued)
    ensures ind in Joined(queued, steps[i]).inds <==>
      exists n: nat :: IsPosted(states, steps, segid, key, n, j) && steps[n].ind == ind
  {
    if queued.Some? && ind in queued.value.inds {
      var n: nat :| IsPosted(states, steps, segid, key, n, i) && steps[n].ind == ind;
      assert IsPosted(states, steps, segid, key, n, j);
    } else if ind == steps[i].ind {
      assert IsPosted(states, steps, segid, key, i, j);
    }
  }

  /** A delivery leaves nothing, and any other step what there was. */
  lemma DeliveredSince(states: seq<State>, steps: seq<Step>, segid: int, key: B.Key, i: nat, j: nat)
    requires i < |steps| < |states| && j == i + 1 && Delivers(states[i], steps[i], segid, key)
    ensures IsQueuedSince(states, steps, segid, key, j, None)
  {
  }

  lemma CarriesNext(states: seq<State>, steps: seq<Step>, segid: int, key: B.Key, i: nat, j: nat, e: B.Entry)
    requires i < |steps| < |states| && j == i + 1
    requires forall n: nat :: IsPosted(states, steps, segid, key, n, j) <==> IsPosted(states, steps, segid, key, n, i)
    requires CarriesSince(states, steps, segid, key, i, e)
    ensures CarriesSince(states, steps, segid, key, j, e)
  {
    forall n: nat | IsFirstPost(states, steps, segid, key, n, j)
      ensures IsFirstPost(states, steps, segid, key, n, i)
    {
    }
    forall n: nat | IsFirstOf(states, steps, segid, key, n, j)
      ensures IsFirstOf(states, steps, segid, key, n, i)
    {
    }
  }

  lemma SameSince(states: seq<State>, steps: seq<Step>, segid: int, key: B.Key, i: nat, j: nat,
                  queued: Option<B.Entry>)
    requires i < |steps| < |states| && j == i + 1
    requires !Posts(steps[i], segid, key) && !Delivers(states[i], steps[i], segid, key)
    requires IsQueuedSince(states, steps, segid, key, i, queued)
    ensures IsQueuedSince(states, steps, segid, key, j, queued)
  {
    forall n: nat ensures IsPosted(states, steps, segid, key, n, j) <==> IsPosted(states, steps, segid, key, n, i) {
      SamePosted(states, steps, segid, key, i, j, n);
    }
    if queued.Some? {
      CarriesNext(states, steps, segid, key, i, j, queued.value);
      var n: nat :| IsPosted(states, steps, segid, key, n, i);
      assert IsPosted(states, steps, segid, key, n, j);
    }
  }

  lemma QueuedNext(states: seq<State>, steps: seq<Step>, segid: int, key: B.Key, i: nat, before: Option<B.Entry>,
                   after: Option<B.Entry>)
    requires i < |steps| < |states| && IsQueuedSince(states, steps, segid, key, i, before)
    requires after == if Posts(steps[i], segid, key) then Some(Joined(before, steps[i]))
                      else if Delivers(states[i], steps[i], segid, key) then None else before
    ensures IsQueuedSince(states, steps, segid, key, i + 1, after)
  {
    if Posts(steps[i], segid, key) {
      PostedSince(states, steps, segid, key, i, i + 1, before);
    } else if Delivers(states[i], steps[i], segid, key) {
      DeliveredSince(states, steps, segid, key, i, i + 1);
    } else {
      SameSince(states, steps, segid, key, i, i + 1, before);
    }
  }

  /** In every state of a run a key is queued exactly with what its submissions since its last delivery make of it. */
  lemma {:induction false} QueuedSince(segids: set<int>, states: seq<State>, steps: seq<Step>, i: nat, segid: int,
                                       key: B.Key)
    requires IsRun(segids, states, steps) && i < |states| && segid in segids
    ensures segid in states[i].channels
    ensures IsQueuedSince(states, steps, segid, key, i, EntryOf(states[i].channels[segid].queue, key))
  {
    SegmentsStay(segids, states, steps, i, segid);
    if i > 0 {
      QueuedSince(segids, states, steps, i - 1, segid, key);
      RunSafe(segids, states, steps, i - 1);
      EntriesExactly(states[i - 1], steps[i - 1], segid, key);
      QueuedNext(states, steps, segid, key, i - 1, EntryOf(states[i - 1].channels[segid].queue, key),
                 EntryOf(states[i].channels[segid].queue, key));
    } else {
      assert states[0].channels[segid] == C.NEW_CHANNEL;
    }
  }

  /** What a step of a run hands out is what was submitted for its key since the key's last delivery - the step indexes
      of all those submissions, each with the data of its first, at the priority, time and parent of the first of all -
      and after the step the key is not queued. */
  lemma DeliveriesCarrySubmissions(segids: set<int>, states: seq<State>, steps: seq<Step>, i: nat, segid: int, id: nat)
    requires IsRun(segids, states, steps) && i < |steps| && segid in segids
    requires HandsOut(states[i], steps[i], segid, id)
    ensures var e := states[i].channels[segid].queue.entries[id];
            && CarriesSince(states, steps, segid, e.key, i, e)
            && segid in states[i + 1].channels && EntryOf(states[i + 1].channels[segid].queue, e.key) == None
  {
    var q := states[i].channels[segid].queue;
    var key := q.entries[id].key;
    RunSafe(segids, states, steps, i);
    assert ChannelSafe(states[i], segid);
    QueuedSince(segids, states, steps, i, segid, key);
    assert EntryOf(q, key) == Some(q.entries[id]);
    EntriesExactly(states[i], steps[i], segid, key);
    assert Delivers(states[i], steps[i], segid, key);
  }

  /** Both keys are queued, and the first of them arrived before the other. */
  ghost predicate ArrivedBefore(s: State, segid: int, key: B.Key, later: B.Key) {
    && segid in s.channels
    && var q := s.channels[segid].queue;
    NodeOf(q, key).Some? && NodeOf(q, later).Some? && NodeOf(q, key).value < NodeOf(q, later).value
  }

  lemma ArrivesNow(segids: set<int>, states: seq<State>, steps: seq<Step>, j: nat, i: nat, segid: int,
                   key: B.Key, n: nat, later: B.Key)
    requires IsRun(segids, states, steps) && i == j + 1 <= |steps| && segid in segids && n < j
    requires IsFirstPost(states, steps, segid, key, n, i) && IsFirstPost(states, steps, segid, later, j, i)
    ensures ArrivedBefore(states[i], segid, key, later)
  {
    RunSafe(segids, states, steps, j);
    SegmentsStay(segids, states, steps, i, segid);
    FirstPostBefore(states, steps, segid, key, n, j, i);
    IsThere(segids, states, steps, j, segid, key, n);
    NotThere(segids, states, steps, j, i, segid, later);
    ArrivalNext(states[j], steps[j], segid, key, later);
  }

  lemma ArrivedEarlier(segids: set<int>, states: seq<State>, steps: seq<Step>, j: nat, i: nat, segid: int,
                       key: B.Key, n: nat, later: B.Key, m: nat)
    requires IsRun(segids, states, steps) && i == j + 1 <= |steps| && segid in segids && n < m < j
    requires IsFirstPost(states, steps, segid, key, n, i) && IsFirstPost(states, steps, segid, later, m, i)
    requires ArrivedBefore(states[j], segid, key, later)
    ensures ArrivedBefore(states[i], segid, key, later)
  {
    RunSafe(segids, states, steps, j);
    SegmentsStay(segids, states, steps, i, segid);
    FirstPostBefore(states, steps, segid, key, n, j, i);
    FirstPostBefore(states, steps, segid, later, m, j, i);
    ArrivalNext(states[j], steps[j], segid, key, later);
  }

  /** Of two keys the one that was submitted first is the one that arrived first, which decides between entries of equal
      priority and time. */
  lemma {:induction false} ArrivalOrder(segids: set<int>, states: seq<State>, steps: seq<Step>, i: nat, segid: int,
                                        key: B.Key, n: nat, later: B.Key, m: nat)
    requires IsRun(segids, states, steps) && i < |states| && segid in segids && n < m
    requires IsFirstPost(states, steps, segid, key, n, i) && IsFirstPost(states, steps, segid, later, m, i)
    ensures ArrivedBefore(states[i], segid, key, later)
  {
    var j: nat := i - 1;
    if m == j {
      ArrivesNow(segids, states, steps, j, i, segid, key, n, later);
    } else {
      BothPostedBefore(states, steps, segid, key, n, later, m, j, i);
      ArrivalOrder(segids, states, steps, j, segid, key, n, later, m);
      ArrivedEarlier(segids, states, steps, j, i, segid, key, n, later, m);
    }
  }

  lemma IsThere(segids: set<int>, states: seq<State>, steps: seq<Step>, i: nat, segid: int, key: B.Key, n: nat)
    requires IsRun(segids, states, steps) && i < |states| && segid in segids
    requires IsPosted(states, steps, segid, key, n, i)
    ensures segid in states[i].channels && NodeOf(states[i].channels[segid].queue, key).Some?
  {
    QueuedSince(segids, states, steps, i, segid, key);
  }

  lemma NotThere(segids: set<int>, states: seq<State>, steps: seq<Step>, j: nat, i: nat, segid: int, key: B.Key)
    requires IsRun(segids, states, steps) && i == j + 1 <= |steps| && segid in segids
    requires IsFirstPost(states, steps, segid, key, j, i)
    ensures segid in states[j].channels && NodeOf(states[j].channels[segid].queue, key).None?
    ensures Posts(steps[j], segid, key)
  {
    NotYetPosted(states, steps, segid, key, j, i);
    QueuedSince(segids, states, steps, j, segid, key);
  }

  lemma FirstPostBefore(states: seq<State>, steps: seq<Step>, segid: int, key: B.Key, n: nat, j: nat, i: nat)
    requires i == j + 1 <= |steps| < |states| && n < j && IsFirstPost(states, steps, segid, key, n, i)
    ensures IsFirstPost(states, steps, segid, key, n, j) && !Delivers(states[j], steps[j], segid, key)
  {
    forall m: nat | IsPosted(states, steps, segid, key, m, j) ensures IsPosted(states, steps, segid, key, m, i) {
      SamePosted(states, steps, segid, key, j, i, m);
    }
  }

  lemma BothPostedBefore(states: seq<State>, steps: seq<Step>, segid: int, key: B.Key, n: nat, later: B.Key, m: nat,
                         j: nat, i: nat)
    requires i == j + 1 <= |steps| < |states| && n < m < j
    requires IsFirstPost(states, steps, segid, key, n, i) && IsFirstPost(states, steps, segid, later, m, i)
    ensures IsFirstPost(states, steps, segid, key, n, j) && IsFirstPost(states, steps, segid, later, m, j)
  {
    FirstPostBefore(states, steps, segid, key, n, j, i);
    FirstPostBefore(states, steps, segid, later, m, j, i);
  }

  lemma NotYetPosted(states: seq<State>, steps: seq<Step>, segid: int, key: B.Key, j: nat, i: nat)
    requires i == j + 1 <= |steps| < |states| && IsFirstPost(states, steps, segid, key, j, i)
    ensures forall n: nat :: !IsPosted(states, steps, segid, key, n, j)
    ensures !Delivers(states[j], steps[j], segid, key)
  {
    forall n: nat | IsPosted(states, steps, segid, key, n, j)
      ensures IsPosted(states, steps, segid, key, n, i) && n < j
    {
      SamePosted(states, steps, segid, key, j, i, n);
    }
  }

  // ---- retries of a run ----

  /** The order is removed, or its retry from the queue starts. */
  ghost predicate Ends(s: State, step: Step, k: R.Kind, w: int) {
    step == RemoveInstance(w) || StartsRetry(s, step, k, w)
  }

  /** The steps from here to `i` are those after the order was last removed or handed out. */
  ghost function SinceEnd(states: seq<State>, steps: seq<Step>, k: R.Kind, w: int, i: nat): (n: nat)
    requires i <= |steps| < |states|
    ensures n <= i
  {
    if i == 0 then 0
    else if Ends(states[i - 1], steps[i - 1], k, w) then i
    else SinceEnd(states, steps, k, w, i - 1)
  }

  /** Step `n` asks for a retry of the order since then. */
  ghost predicate IsRequested(states: seq<State>, steps: seq<Step>, k: R.Kind, w: int, n: nat, i: nat)
    requires i <= |steps| < |states|
  {
    SinceEnd(states, steps, k, w, i) <= n < i && Requests(steps[n], k, w)
  }

  ghost predicate IsFirstRequest(states: seq<State>, steps: seq<Step>, k: R.Kind, w: int, n: nat, i: nat)
    requires i <= |steps| < |states|
  {
    && IsRequested(states, steps, k, w, n, i)
    && forall m :: 0 <= m < n ==> !IsRequested(states, steps, k, w, m, i)
  }

  /** The order is queued exactly if a retry was asked for since then: at the earliest time asked for, and with the
      parent of the first request. */
  ghost predicate IsRequestedSince(states: seq<State>, steps: seq<Step>, k: R.Kind, w: int, i: nat,
                                   queued: Option<R.RetryEntry>)
    requires i <= |steps| < |states|
  {
    && (queued.Some? <==> exists n: nat :: IsRequested(states, steps, k, w, n, i))
    && (queued.Some? ==> StandsSince(states, steps, k, w, i, queued.value))
  }

  ghost predicate StandsSince(states: seq<State>, steps: seq<Step>, k: R.Kind, w: int, i: nat, e: R.RetryEntry)
    requires i <= |steps| < |states|
  {
    && e.wfiid == w
    && (exists n: nat :: IsRequested(states, steps, k, w, n, i) && steps[n].mod == e.mod)
    && (forall n: nat :: IsRequested(states, steps, k, w, n, i) ==> e.mod <= steps[n].mod)
    && (forall n: nat :: IsFirstRequest(states, steps, k, w, n, i) ==> e.parent == steps[n].parent)
  }

  lemma SameRequested(states: seq<State>, steps: seq<Step>, k: R.Kind, w: int, i: nat, j: nat, n: nat)
    requires i < |steps| < |states| && j == i + 1 && !Ends(states[i], steps[i], k, w)
    ensures IsRequested(states, steps, k, w, n, j) <==>
      IsRequested(states, steps, k, w, n, i) || (n == i && Requests(steps[i], k, w))
  {
  }

  lemma RequestStands(states: seq<State>, steps: seq<Step>, k: R.Kind, w: int, i: nat, j: nat,
                      queued: Option<R.RetryEntry>)
    requires i < |steps| < |states| && j == i + 1 && Requests(steps[i], k, w)
    requires IsRequestedSince(states, steps, k, w, i, queued)
    ensures IsRequestedSince(states, steps, k, w, j, Some(Requested(queued, steps[i])))
  {
    assert !Ends(states[i], steps[i], k, w);
    forall n: nat ensures IsRequested(states, steps, k, w, n, j) <==> IsRequested(states, steps, k, w, n, i) || n == i {
      SameRequested(states, steps, k, w, i, j, n);
    }
    assert IsRequested(states, steps, k, w, i, j);
    RequestTime(states, steps, k, w, i, j, queued);
    forall n: nat | IsFirstRequest(states, steps, k, w, n, j)
      ensures Requested(queued, steps[i]).parent == steps[n].parent
    {
      RequestParent(states, steps, k, w, i, j, queued, n);
    }
  }

  lemma RequestTime(states: seq<State>, steps: seq<Step>, k: R.Kind, w: int, i: nat, j: nat,
                    queued: Option<R.RetryEntry>)
    requires i < |steps| < |states| && j == i + 1 && Requests(steps[i], k, w)
    requires forall n: nat ::
      IsRequested(states, steps, k, w, n, j) <==> IsRequested(states, steps, k, w, n, i) || n == i
    requires IsRequestedSince(states, steps, k, w, i, queued)
    ensures var e := Requested(queued, steps[i]);
            && e.wfiid == w
            && (exists n: nat :: IsRequested(states, steps, k, w, n, j) && steps[n].mod == e.mod)
            && (forall n: nat :: IsRequested(states, steps, k, w, n, j) ==> e.mod <= steps[n].mod)
  {
    assert IsRequested(states, steps, k, w, i, j);
    if queued.Some? {
      var n: nat :| IsRequested(states, steps, k, w, n, i) && steps[n].mod == queued.value.mod;
      assert IsRequested(states, steps, k, w, n, j);
    }
  }

  lemma RequestParent(states: seq<State>, steps: seq<Step>, k: R.Kind, w: int, i: nat, j: nat,
                      queued: Option<R.RetryEntry>, n: nat)
    requires i < |steps| < |states| && j == i + 1 && Requests(steps[i], k, w)
    requires forall n: nat ::
      IsRequested(states, steps, k, w, n, j) <==> IsRequested(states, steps, k, w, n, i) || n == i
    requires IsRequestedSince(states, steps, k, w, i, queued) && IsFirstRequest(states, steps, k, w, n, j)
    ensures Requested(queued, steps[i]).parent == steps[n].parent
  {
    if n < i {
      assert IsFirstRequest(states, steps, k, w, n, i);
    } else {
      forall m: nat ensures !IsRequested(states, steps, k, w, m, i) {
      }
    }
  }

  lemma EndLeavesNothing(states: seq<State>, steps: seq<Step>, k: R.Kind, w: int, i: nat, j: nat)
    requires i < |steps| < |states| && j == i + 1 && Ends(states[i], steps[i], k, w)
    ensures IsRequestedSince(states, steps, k, w, j, None)
  {
  }

  lemma StillStands(states: seq<State>, steps: seq<Step>, k: R.Kind, w: int, i: nat, j: nat,
                    queued: Option<R.RetryEntry>)
    requires i < |steps| < |states| && j == i + 1
    requires !Requests(steps[i], k, w) && !Ends(states[i], steps[i], k, w)
    requires IsRequestedSince(states, steps, k, w, i, queued)
    ensures IsRequestedSince(states, steps, k, w, j, queued)
  {
    forall n: nat ensures IsRequested(states, steps, k, w, n, j) <==> IsRequested(states, steps, k, w, n, i) {
      SameRequested(states, steps, k, w, i, j, n);
    }
    if queued.Some? {
      var n: nat :| IsRequested(states, steps, k, w, n, i) && steps[n].mod == queued.value.mod;
      assert IsRequested(states, steps, k, w, n, j);
      forall m: nat | IsFirstRequest(states, steps, k, w, m, j) ensures IsFirstRequest(states, steps, k, w, m, i) {
      }
    }
  }

  lemma RequestedNext(states: seq<State>, steps: seq<Step>, k: R.Kind, w: int, i: nat, before: Option<R.RetryEntry>,
                      after: Option<R.RetryEntry>)
    requires i < |steps| < |states| && IsRequestedSince(states, steps, k, w, i, before)
    requires after == if Requests(steps[i], k, w) then Some(Requested(before, steps[i]))
                      else if Ends(states[i], steps[i], k, w) then None else before
    ensures IsRequestedSince(states, steps, k, w, i + 1, after)
  {
    if Requests(steps[i], k, w) {
      RequestStands(states, steps, k, w, i, i + 1, before);
    } else if Ends(states[i], steps[i], k, w) {
      EndLeavesNothing(states, steps, k, w, i, i + 1);
    } else {
      StillStands(states, steps, k, w, i, i + 1, before);
    }
  }

  /** In every state of a run an order is queued for a retry exactly with what was asked for since it was last removed
      or handed out. */
  lemma {:induction false} RequestedSince(segids: set<int>, states: seq<State>, steps: seq<Step>, i: nat, k: R.Kind,
                                          w: int)
    requires IsRun(segids, states, steps) && i < |states|
    ensures IsRequestedSince(states, steps, k, w, i, RetryOf(states[i].queues.Get(k), w))
  {
    if i > 0 {
      RequestedSince(segids, states, steps, i - 1, k, w);
      RunSafe(segids, states, steps, i - 1);
      RunWakes(segids, states, steps, i - 1);
      RetryEntriesExactly(states[i - 1], steps[i - 1], k, w);
      RequestedNext(states, steps, k, w, i - 1, RetryOf(states[i - 1].queues.Get(k), w),
                    RetryOf(states[i].queues.Get(k), w));
    } else {
      assert states[0].queues.Get(k) == R.NO_RETRIES;
    }
  }
}
