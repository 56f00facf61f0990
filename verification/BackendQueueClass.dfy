/** BackendQueue and its three kinds as an object: methods run under the caller's mutex. */
module BackendQueueClass {
  import opened Orders
  import opened Multimap
  import opened SegmentMap
  import B = BackendQueues
  import C = Channels

  class BackendQueue {
    var entries: map<nat, B.Entry>
    var sub: map<int, seq<Slot<nat>>>
    var wfmap: map<B.Key, nat>
    var next: nat
    var waiting: int
    ghost var log: seq<B.Op>
    ghost var blocked: set<Waiter>
    ghost var signalled: set<Waiter>

    ghost function Contents(): B.Queue
      reads this
    {
      B.Queue(entries, sub, wfmap, next, log)
    }

    ghost function Abs(): C.Channel
      reads this
    {
      C.Channel(Contents(), waiting, blocked, signalled)
    }

    ghost predicate Valid()
      reads this
    {
      B.Agrees(Contents())
    }

    constructor ()
      ensures Valid() && Abs() == C.NEW_CHANNEL
    {
      entries, sub, wfmap, next, waiting := map[], map[], map[], 0, 0;
      log, blocked, signalled := [], {}, {};
    }

    /** Wakes `pick`: which sleeping thread that is, is up to the condition variable. */
    method Signal(ghost pick: Option<Waiter>)
      requires C.CanPick(Abs(), pick)
      modifies this
      ensures Abs() == C.Signal(old(Abs()), pick)
    {
      if waiting != 0 {
        if pick.Some? {
          blocked, signalled := blocked - {pick.value}, signalled + {pick.value};
        }
      }
    }

    method Wakeup()
      modifies this
      ensures Abs() == C.Wakeup(old(Abs()))
    {
      if waiting != 0 {
        blocked, signalled := {}, signalled + blocked;
      }
    }

    /** The first half of `wait`. */
    method Block(ghost w: Waiter)
      modifies this
      ensures Abs() == C.Block(old(Abs()), w)
    {
      waiting := waiting + 1;
      blocked := blocked + {w};
    }

    /** The second half of `wait`, if the thread was in one. */
    method Resume(w: Waiter, woken: bool)
      requires woken == (w in signalled)
      modifies this
      ensures Abs() == C.Resume(old(Abs()), w)
    {
      if woken {
        waiting := waiting - 1;
        signalled := signalled - {w};
      }
    }

    /** The key has an entry: the step index joins it unless it is there already. */
    method Join(key: B.Key, ind: int, item: B.Item)
      requires key in wfmap && wfmap[key] in entries
      modifies this
      ensures Abs() == old(Abs()).(queue := B.Coalesce(old(Contents()), key, ind, item))
    {
      log := log + [B.Submit(key, ind, item)];
      var id := wfmap[key];
      var e := entries[id];
      if ind !in e.inds {
        entries := entries[id := e.(inds := e.inds[ind := item])];
      }
    }

    method Append(key: B.Key, ind: int, item: B.Item, prio: int, mod: int, swfiid: int, parent: ParentInfo)
      modifies this
      ensures Abs() == old(Abs()).(queue := B.Open(old(Contents()), key, ind, item, prio, mod, swfiid, parent))
    {
      log := log + [B.Submit(key, ind, item)];
      var q := if prio in sub then sub[prio] else [];
      entries := entries[next := B.Entry(key, prio, mod, swfiid, parent, map[ind := item])];
      sub := sub[prio := Insert(q, mod, next)];
      wfmap := wfmap[key := next];
      next := next + 1;
    }

    /** Files a submission: under the entry that its key has already, or as a new one. */
    method Add(key: B.Key, ind: int, item: B.Item, prio: int, mod: int, swfiid: int, parent: ParentInfo,
               ghost pick: Option<Waiter>)
      requires Valid() && C.CanPick(Abs(), pick)
      modifies this
      ensures Valid()
      ensures Abs() == C.Post(old(Abs()), key, ind, item, prio, mod, swfiid, parent, pick)
    {
      B.AddKeeps(Contents(), key, ind, item, prio, mod, swfiid, parent);
      if key in wfmap {
        Join(key, ind, item);
      } else {
        Append(key, ind, item, prio, mod, swfiid, parent);
        Signal(pick);
      }
    }

    /** The nested scan of get_backend_event_unlocked. */
    method FindTakeable(segs: map<int, int>) returns (found: Option<B.Pos>)
      requires Valid()
      ensures B.IsOutcome(Contents(), segs, found)
    {
      var rest := sub.Keys;
      while rest != {}
        invariant rest <= sub.Keys
        invariant forall p, i :: p in sub.Keys - rest && 0 <= i < |sub[p]| ==>
          InRetry(segs, entries[sub[p][i].val].key.wfiid)
        invariant forall p, r :: p in sub && p !in rest && r in rest ==> p < r
        decreases |rest|
      {
        var prio := MinKey(rest);
        var q := sub[prio];
        for i := 0 to |q|
          invariant forall j :: 0 <= j < i ==> InRetry(segs, entries[q[j].val].key.wfiid)
        {
          if !InRetry(segs, entries[q[i].val].key.wfiid) {
            FirstIsChoice(Contents(), segs, B.Pos(prio, i));
            return Some(B.Pos(prio, i));
          }
        }
        rest := rest - {prio};
        assert forall r :: r in rest ==> prio < r;
      }
      NothingToTake(Contents(), segs);
      return None;
    }

    /** Erases the entry at `pos`, its multimap if that was the last one, and its lookup. */
    method Take(pos: B.Pos) returns (e: B.Entry)
      requires Valid() && B.ValidPos(Contents(), pos)
      modifies this
      ensures Valid() && e == old(entries[sub[pos.prio][pos.i].val])
      ensures Abs() == old(Abs()).(queue := B.Take(old(Contents()), pos.prio, pos.i))
    {
      B.TakeKeeps(Contents(), pos.prio, pos.i);
      var id := sub[pos.prio][pos.i].val;
      e := entries[id];
      var q := Erase(sub[pos.prio], pos.i);
      sub := if q == [] then sub - {pos.prio} else sub[pos.prio := q];
      wfmap := wfmap - {e.key};
      entries := entries - {id};
      log := log + [B.Deliver(e.key, e.inds)];
    }

    /** One pass of get_backend_event_unlocked by `thread`, which enters or was `woken`. */
    method Attend(thread: Waiter, woken: bool, down: bool, segs: map<int, int>)
      returns (r: Outcome<B.Entry>, found: Option<B.Pos>)
      requires Valid() && woken == (thread in signalled)
      modifies this
      ensures Valid()
      ensures down || B.IsOutcome(old(Contents()), segs, found)
      ensures Abs() == C.Attend(old(Abs()), thread, down, found)
      ensures r.Returned? <==> down
      ensures r.Delivered? <==> !down && found.Some?
      ensures r.Delivered? ==> r.value == old(entries[sub[found.value.prio][found.value.i].val])
    {
      Resume(thread, woken);
      if down {
        return Returned, None;
      }
      found := FindTakeable(segs);
      if found.Some? {
        var e := Take(found.value);
        return Delivered(e), found;
      }
      Block(thread);
      return Waiting, None;
    }
  }

  /** What a call for work ends with. */
  datatype Outcome<+T> = Returned | Waiting | Delivered(value: T)

  lemma FirstIsChoice(q: B.Queue, segs: map<int, int>, pos: B.Pos)
    requires B.Ordered(q) && B.Slotted(q) && B.ValidPos(q, pos)
    requires !InRetry(segs, q.entries[q.sub[pos.prio][pos.i].val].key.wfiid)
    requires forall i :: 0 <= i < pos.i ==> InRetry(segs, q.entries[q.sub[pos.prio][i].val].key.wfiid)
    requires forall p, i :: p in q.sub && p < pos.prio && 0 <= i < |q.sub[p]| ==>
      InRetry(segs, q.entries[q.sub[p][i].val].key.wfiid)
    ensures B.IsChoice(q, segs, pos)
  {
    var id := q.sub[pos.prio][pos.i].val;
    forall x | x in B.Takeable(q, segs) ensures B.NoLater(q, id, x) {
      var e := q.entries[x];
      var j :| 0 <= j < |q.sub[e.prio]| && q.sub[e.prio][j] == Slot(e.mod, x);
      if e.prio == pos.prio && pos.i < j {
        assert B.Before(q.sub[pos.prio][pos.i], q.sub[pos.prio][j]);
      }
    }
  }

  lemma NothingToTake(q: B.Queue, segs: map<int, int>)
    requires B.Slotted(q)
    requires forall p, i :: p in q.sub && 0 <= i < |q.sub[p]| ==> InRetry(segs, q.entries[q.sub[p][i].val].key.wfiid)
    ensures B.Takeable(q, segs) == {}
  {
    forall x | x in q.entries ensures InRetry(segs, q.entries[x].key.wfiid) {
      var e := q.entries[x];
      var j :| 0 <= j < |q.sub[e.prio]| && q.sub[e.prio][j] == Slot(e.mod, x);
    }
  }

  /** get_hash of an asynchronous entry: four lists, in step index order. */
  method AsyncLists(inds: map<int, B.Item>)
    returns (il: seq<int>, ql: seq<string>, dl: seq<string>, cl: seq<bool>)
    requires forall ind :: ind in inds ==> inds[ind].Async?
    ensures |il| == |ql| == |dl| == |cl|
    ensures forall i, j :: 0 <= i < j < |il| ==> il[i] < il[j]
    ensures forall ind :: ind in il <==> ind in inds
    ensures forall i :: 0 <= i < |il| ==> il[i] in inds && inds[il[i]] == B.Async(ql[i], dl[i], cl[i])
  {
    il, ql, dl, cl := [], [], [], [];
    var rest := inds.Keys;
    while rest != {}
      invariant rest <= inds.Keys
      invariant |il| == |ql| == |dl| == |cl|
      invariant forall i, j :: 0 <= i < j < |il| ==> il[i] < il[j]
      invariant forall ind :: ind in il <==> ind in inds.Keys - rest
      invariant forall i, r :: 0 <= i < |il| && r in rest ==> il[i] < r
      invariant forall i :: 0 <= i < |il| ==> il[i] in inds && inds[il[i]] == B.Async(ql[i], dl[i], cl[i])
      decreases |rest|
    {
      var ind := MinKey(rest);
      var item := inds[ind];
      il, ql, dl, cl := il + [ind], ql + [item.queuekey], dl + [item.data], cl + [item.corrected];
      rest := rest - {ind};
    }
  }
}
