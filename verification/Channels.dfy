/** A backend queue with the threads that wait on its condition variable. */
module Channels {
  import opened Orders
  import opened SegmentMap
  import opened BackendQueues

  /** `blocked` threads sleep on the condition variable; `signalled` ones were woken but
      have not run yet. `waiting` is the counter the code keeps. */
  datatype Channel = Channel(queue: Queue, waiting: int, blocked: set<Waiter>, signalled: set<Waiter>)

  const NEW_CHANNEL := Channel(EMPTY, 0, {}, {})

  /** cond.signal wakes `pick`, one of the blocked threads if there are any. */
  ghost predicate CanPick(c: Channel, pick: Option<Waiter>) {
    match pick
    case None => c.blocked == {}
    case Some(w) => w in c.blocked
  }

  function Signal(c: Channel, pick: Option<Waiter>): Channel {
    if c.waiting != 0 && pick.Some? then
      c.(blocked := c.blocked - {pick.value}, signalled := c.signalled + {pick.value})
    else c
  }

  function Wakeup(c: Channel): Channel {
    if c.waiting != 0 then c.(blocked := {}, signalled := c.signalled + c.blocked) else c
  }

  /** A woken thread runs again: it leaves `wait`. */
  function Resume(c: Channel, w: Waiter): Channel {
    if w in c.signalled then c.(waiting := c.waiting - 1, signalled := c.signalled - {w}) else c
  }

  function Block(c: Channel, w: Waiter): Channel {
    c.(waiting := c.waiting + 1, blocked := c.blocked + {w})
  }

  /** A new entry signals one thread, coalescing into a queued one signals nobody. */
  function Post(c: Channel, key: Key, ind: int, item: Item, prio: int, mod: int, swfiid: int, parent: ParentInfo,
                pick: Option<Waiter>): Channel
  {
    var next := c.(queue := Add(c.queue, key, ind, item, prio, mod, swfiid, parent));
    if key in c.queue.wfmap then next else Signal(next, pick)
  }

  ghost predicate HasEntry(q: Queue, pos: Pos) {
    ValidPos(q, pos) && q.sub[pos.prio][pos.i].val in q.entries
  }

  /** One pass of get_backend_event_unlocked: a thread that is `down` returns, one that
      found an entry takes it, any other goes to sleep. */
  function Attend(c: Channel, thread: Waiter, down: bool, found: Option<Pos>): Channel
    requires !down && found.Some? ==> HasEntry(c.queue, found.value)
  {
    var c1 := Resume(c, thread);
    if down then c1
    else match found
    case None => Block(c1, thread)
    case Some(pos) => c1.(queue := Take(c1.queue, pos.prio, pos.i))
  }

  /** release_retry_segment wakes the threads of a queue only if it has entries. */
  function WakeupUnlessEmpty(c: Channel): Channel {
    if c.queue.sub != map[] then Wakeup(c) else c
  }

  /** Woken threads whose connection is still up. */
  function Live(c: Channel, conns: set<int>): set<Waiter> {
    set w | w in c.signalled && w.conn !in conns
  }

  ghost predicate Counted(c: Channel) {
    c.blocked !! c.signalled && c.waiting == |c.blocked| + |c.signalled|
  }

  /** No lost wake-up: while a thread sleeps, every entry that can be taken has its own
      woken thread on the way; and nobody whose connection is down, or anybody after the
      termination, is left asleep. */
  ghost predicate Served(c: Channel, segs: map<int, int>, conns: set<int>, term: bool) {
    && Counted(c)
    && (forall w :: w in c.blocked ==> w.conn !in conns && !term)
    && (c.blocked != {} ==> |Takeable(c.queue, segs)| <= |Live(c, conns)|)
  }

  /** Less to take, more threads on the way, nobody new asleep. */
  lemma ServedMonotone(c: Channel, segs: map<int, int>, d: Channel, segs': map<int, int>, conns: set<int>, term: bool)
    requires Served(c, segs, conns, term) && Counted(d) && d.blocked <= c.blocked
    requires Takeable(d.queue, segs') <= Takeable(c.queue, segs)
    requires Live(c, conns) <= Live(d, conns)
    ensures Served(d, segs', conns, term)
  {
    CardinalityMonotone(Takeable(d.queue, segs'), Takeable(c.queue, segs));
    CardinalityMonotone(Live(c, conns), Live(d, conns));
  }

  lemma PostTakeable(q: Queue, key: Key, ind: int, item: Item, prio: int, mod: int, swfiid: int, parent: ParentInfo,
                     segs: map<int, int>)
    requires Slotted(q) && Indexed(q)
    ensures var r := Add(q, key, ind, item, prio, mod, swfiid, parent);
            Takeable(r, segs) <= Takeable(q, segs) + if key in q.wfmap then {} else {q.next}
  {
  }

  /** One more entry to take is met by the one thread that the signal wakes. */
  lemma SignalServed(c: Channel, q: Queue, x: nat, pick: Option<Waiter>, segs: map<int, int>, conns: set<int>,
                     term: bool)
    requires Served(c, segs, conns, term) && CanPick(c, pick)
    requires Takeable(q, segs) <= Takeable(c.queue, segs) + {x}
    ensures Served(Signal(c.(queue := q), pick), segs, conns, term)
  {
    var d := Signal(c.(queue := q), pick);
    if pick.Some? {
      assert Live(d, conns) == Live(c, conns) + {pick.value};
      CardinalityMonotone(Takeable(q, segs), Takeable(c.queue, segs) + {x});
    }
  }

  lemma PostServed(c: Channel, key: Key, ind: int, item: Item, prio: int, mod: int, swfiid: int, parent: ParentInfo,
                   pick: Option<Waiter>, segs: map<int, int>, conns: set<int>, term: bool)
    requires Agrees(c.queue) && Served(c, segs, conns, term) && CanPick(c, pick)
    ensures Served(Post(c, key, ind, item, prio, mod, swfiid, parent, pick), segs, conns, term)
  {
    PostTakeable(c.queue, key, ind, item, prio, mod, swfiid, parent, segs);
    if key in c.queue.wfmap {
      ServedMonotone(c, segs, Post(c, key, ind, item, prio, mod, swfiid, parent, pick), segs, conns, term);
    } else {
      SignalServed(c, Add(c.queue, key, ind, item, prio, mod, swfiid, parent), c.queue.next, pick, segs, conns, term);
    }
  }

  lemma TakeTakeable(q: Queue, pos: Pos, segs: map<int, int>)
    requires Agrees(q) && IsChoice(q, segs, pos)
    ensures var id := q.sub[pos.prio][pos.i].val;
            && id in Takeable(q, segs)
            && Takeable(Take(q, pos.prio, pos.i), Grab(segs, q.entries[id].key.wfiid)) == Takeable(q, segs) - {id}
  {
  }

  /** A thread that was woken, or that comes new, takes an entry. */
  lemma TakeServed(c: Channel, w: Waiter, pos: Pos, segs: map<int, int>, conns: set<int>, term: bool)
    requires Agrees(c.queue) && Served(c, segs, conns, term) && IsChoice(c.queue, segs, pos)
    requires w !in c.blocked && w.conn !in conns
    ensures var id := c.queue.sub[pos.prio][pos.i].val;
            Served(Resume(c, w).(queue := Take(c.queue, pos.prio, pos.i)), Grab(segs, c.queue.entries[id].key.wfiid),
                   conns, term)
  {
    var d := Resume(c, w).(queue := Take(c.queue, pos.prio, pos.i));
    TakeTakeable(c.queue, pos, segs);
    if w in c.signalled {
      assert Live(d, conns) == Live(c, conns) - {w};
    }
  }

  /** A thread that finds nothing to take goes to sleep. */
  lemma BlockServed(c: Channel, w: Waiter, segs: map<int, int>, conns: set<int>, term: bool)
    requires Served(c, segs, conns, term) && Takeable(c.queue, segs) == {}
    requires w !in c.blocked && w.conn !in conns && !term
    ensures Served(Block(Resume(c, w), w), segs, conns, term)
  {
  }

  /** A thread whose connection is down returns. */
  lemma QuitServed(c: Channel, w: Waiter, segs: map<int, int>, conns: set<int>, term: bool)
    requires Served(c, segs, conns, term) && w !in c.blocked && (w.conn in conns || term)
    ensures Served(Resume(c, w), segs, conns, term)
  {
    if c.blocked != {} {
      assert Live(Resume(c, w), conns) == Live(c, conns);
    }
  }

  /** A broadcast leaves nobody asleep, whatever else changes. */
  lemma WakeupServed(c: Channel, segs: map<int, int>, conns: set<int>, term: bool)
    requires Counted(c)
    ensures Served(Wakeup(c), segs, conns, term) && Wakeup(c).blocked == {}
  {
    if c.waiting == 0 {
      assert c.blocked == {};
    } else {
      assert c.signalled + c.blocked == c.blocked + c.signalled;
    }
  }

  /** The end of a retry can make any number of entries takeable. */
  lemma EndRetryServed(c: Channel, segs: map<int, int>, segs': map<int, int>, conns: set<int>, term: bool)
    requires Slotted(c.queue) && Served(c, segs, conns, term)
    ensures Served(WakeupUnlessEmpty(c), segs', conns, term)
  {
    if c.queue.sub != map[] {
      WakeupServed(c, segs', conns, term);
    } else {
      assert forall id :: id !in c.queue.entries;
      assert Takeable(c.queue, segs') == {};
    }
  }
}
