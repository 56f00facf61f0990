/** OrderExpiryCache: orders queue per workflow roughly by creation time, and getEvents
    reports how many at the head of each queue have exceeded their service level. */
module OrderExpiryCaches {
  import opened Orders

  const DEFAULT_SLA_THRESHOLD := 1800

  /** How far an order may be created before the one queued ahead of it. */
  const SLACK := 29

  /** `num` numbers the submissions of one workflow; the code does not store it. */
  datatype Order = Order(wfiid: int, created: int, num: nat)

  type Cache = map<int, seq<Order>>

  function Queued(cache: Cache, wfid: int): seq<Order> {
    if wfid in cache then cache[wfid] else []
  }

  function Count(counts: map<int, nat>, wfid: int): nat {
    if wfid in counts then counts[wfid] else 0
  }

  function Sum(a: map<int, nat>, b: map<int, nat>): map<int, nat> {
    map w | w in a.Keys + b.Keys :: Count(a, w) + Count(b, w)
  }

  // ---- what the operations compute ----

  /** The assertion guarding a submission. */
  predicate Accepts(q: seq<Order>, created: int) {
    |q| == 0 || q[|q| - 1].created < created || q[|q| - 1].created - created < 30
  }

  /** A workflow without a threshold of its own, or with 0, gets the default; no hash at all is an empty one. */
  function Threshold(slas: map<int, int>, delay: int, wfid: int): int {
    (if wfid in slas && slas[wfid] != 0 then slas[wfid] else DEFAULT_SLA_THRESHOLD) + delay
  }

  predicate Late(o: Order, now: int, limit: int) {
    now - o.created >= limit
  }

  predicate IsLatePrefix(q: seq<Order>, n: nat, now: int, limit: int) {
    && n <= |q|
    && (forall k :: 0 <= k < n ==> Late(q[k], now, limit))
    && (n < |q| ==> !Late(q[n], now, limit))
  }

  lemma {:induction false} LatePrefixExists(q: seq<Order>, now: int, limit: int)
    ensures exists n: nat :: IsLatePrefix(q, n, now, limit)
  {
    if |q| == 0 || !Late(q[0], now, limit) {
      assert IsLatePrefix(q, 0, now, limit);
    } else {
      LatePrefixExists(q[1..], now, limit);
      var n: nat :| IsLatePrefix(q[1..], n, now, limit);
      assert forall k :: 0 < k < |q| ==> q[k] == q[1..][k - 1];
      assert IsLatePrefix(q, n + 1, now, limit);
    }
  }

  /** The length of the longest prefix of late orders. */
  ghost function LatePrefix(q: seq<Order>, now: int, limit: int): (n: nat)
    ensures IsLatePrefix(q, n, now, limit)
  {
    LatePrefixExists(q, now, limit);
    var n: nat :| IsLatePrefix(q, n, now, limit);
    n
  }

  predicate IsFirst(q: seq<Order>, i: nat, wfiid: int) {
    && i <= |q|
    && (forall k :: 0 <= k < i ==> q[k].wfiid != wfiid)
    && (i < |q| ==> q[i].wfiid == wfiid)
  }

  lemma {:induction false} FirstExists(q: seq<Order>, wfiid: int)
    ensures exists i: nat :: IsFirst(q, i, wfiid)
  {
    if |q| == 0 || q[0].wfiid == wfiid {
      assert IsFirst(q, 0, wfiid);
    } else {
      FirstExists(q[1..], wfiid);
      var i: nat :| IsFirst(q[1..], i, wfiid);
      assert forall k :: 0 < k < |q| ==> q[k] == q[1..][k - 1];
      assert IsFirst(q, i + 1, wfiid);
    }
  }

  /** The position of the first entry of an order, or the length of the queue. */
  ghost function Find(q: seq<Order>, wfiid: int): (i: nat)
    ensures IsFirst(q, i, wfiid)
  {
    FirstExists(q, wfiid);
    var i: nat :| IsFirst(q, i, wfiid);
    i
  }

  ghost function Reports(cache: Cache, slas: map<int, int>, delay: int, now: int): map<int, nat> {
    map w | w in cache && LatePrefix(cache[w], now, Threshold(slas, delay, w)) > 0 ::
      LatePrefix(cache[w], now, Threshold(slas, delay, w))
  }

  /** A workflow goes when its last orders are reported, but an empty queue left by a removal stays. */
  ghost predicate Stays(q: seq<Order>, now: int, limit: int) {
    LatePrefix(q, now, limit) == 0 || LatePrefix(q, now, limit) < |q|
  }

  ghost function Unreported(cache: Cache, slas: map<int, int>, delay: int, now: int): Cache {
    map w | w in cache && Stays(cache[w], now, Threshold(slas, delay, w)) ::
      cache[w][LatePrefix(cache[w], now, Threshold(slas, delay, w))..]
  }

  function Lookup<V>(m: map<int, V>, wfid: int): Option<V> {
    if wfid in m then Some(m[wfid]) else None
  }

  /** What one workflow reports and keeps. */
  ghost predicate Settled(q: seq<Order>, limit: int, now: int, report: Option<nat>, rest: Option<seq<Order>>) {
    var n := LatePrefix(q, now, limit);
    && report == (if n > 0 then Some(n) else None)
    && rest == (if Stays(q, now, limit) then Some(q[n..]) else None)
  }

  lemma AllSettled(cache: Cache, slas: map<int, int>, delay: int, now: int, reports: map<int, nat>, rest: Cache)
    requires reports.Keys <= cache.Keys && rest.Keys <= cache.Keys
    requires forall w :: w in cache ==>
      Settled(cache[w], Threshold(slas, delay, w), now, Lookup(reports, w), Lookup(rest, w))
    ensures reports == Reports(cache, slas, delay, now)
    ensures rest == Unreported(cache, slas, delay, now)
  {
    var reported, unreported := Reports(cache, slas, delay, now), Unreported(cache, slas, delay, now);
    forall w ensures Lookup(reports, w) == Lookup(reported, w) && Lookup(rest, w) == Lookup(unreported, w) {
      assert w in cache ==> Settled(cache[w], Threshold(slas, delay, w), now, Lookup(reports, w), Lookup(rest, w));
    }
    assert forall w :: (w in reports <==> Lookup(reports, w).Some?) && (w in reported <==> Lookup(reported, w).Some?);
    assert forall w :: (w in rest <==> Lookup(rest, w).Some?) && (w in unreported <==> Lookup(unreported, w).Some?);
  }

  /** The cache and, per workflow, how many orders came in, were reported and were removed. */
  datatype State = State(cache: Cache, submitted: map<int, nat>, reported: map<int, nat>, removed: map<int, nat>)

  const EMPTY := State(map[], map[], map[], map[])

  function Submit(s: State, wfid: int, wfiid: int, created: int): State {
    var order := Order(wfiid, created, Count(s.submitted, wfid));
    s.(cache := s.cache[wfid := Queued(s.cache, wfid) + [order]], submitted := Sum(s.submitted, map[wfid := 1]))
  }

  ghost function Expire(s: State, slas: map<int, int>, delay: int, now: int): State {
    s.(cache := Unreported(s.cache, slas, delay, now), reported := Sum(s.reported, Reports(s.cache, slas, delay, now)))
  }

  ghost function Remove(s: State, wfid: int, wfiid: int): State {
    var q := Queued(s.cache, wfid);
    var i := Find(q, wfiid);
    if i == |q| then s
    else s.(cache := s.cache[wfid := q[..i] + q[i + 1..]], removed := Sum(s.removed, map[wfid := 1]))
  }

  /** 0 also answers for a workflow that is not in the cache. */
  ghost function RemoveResult(cache: Cache, wfid: int, wfiid: int): int {
    if wfid in cache && Find(cache[wfid], wfiid) == |cache[wfid]| then -1 else 0
  }

  /** What 0 is documented to say: there was an entry to delete. */
  ghost predicate IsQueued(cache: Cache, wfid: int, wfiid: int) {
    wfid in cache && exists order :: order in cache[wfid] && order.wfiid == wfiid
  }

  /** The answer says so exactly for the workflows that are in the cache. */
  lemma RemoveResultExactly(cache: Cache, wfid: int, wfiid: int)
    ensures (RemoveResult(cache, wfid, wfiid) == 0 <==> IsQueued(cache, wfid, wfiid)) <==> wfid in cache
  {
    if wfid in cache && Find(cache[wfid], wfiid) < |cache[wfid]| {
      assert cache[wfid][Find(cache[wfid], wfiid)] in cache[wfid];
    }
  }

  /** Nothing was queued, and 0 is returned. */
  lemma RemoveUnknown(wfid: int, wfiid: int)
    ensures RemoveResult(EMPTY.cache, wfid, wfiid) == 0 && !IsQueued(EMPTY.cache, wfid, wfiid)
    ensures Remove(EMPTY, wfid, wfiid) == EMPTY
  {
  }

  // ---- the class ----

  class OrderExpiryCache {
    var cache: Cache
    ghost var submitted: map<int, nat>
    ghost var reported: map<int, nat>
    ghost var removed: map<int, nat>

    ghost function Abs(): State
      reads this
    {
      State(cache, submitted, reported, removed)
    }

    constructor ()
      ensures Abs() == EMPTY
    {
      cache, submitted, reported, removed := map[], map[], map[], map[];
    }

    method QueueOrder(wfid: int, wfiid: int, created: int, num: nat)
      requires Accepts(Queued(cache, wfid), created)
      requires num == Count(submitted, wfid)
      modifies this
      ensures Abs() == Submit(old(Abs()), wfid, wfiid, created)
    {
      if wfid !in cache {
        cache := cache[wfid := []];
      }
      cache := cache[wfid := cache[wfid] + [Order(wfiid, created, num)]];
      submitted := Sum(submitted, map[wfid := 1]);
    }

    /** The scan of one queue, which counts the orders to report. */
    method Scan(wfid: int, now: int, seconds: int) returns (offset: nat)
      requires wfid in cache
      ensures offset == LatePrefix(cache[wfid], now, seconds)
    {
      offset := 0;
      while offset < |cache[wfid]| && !(now - cache[wfid][offset].created < seconds)
        invariant offset <= |cache[wfid]|
        invariant forall k :: 0 <= k < offset ==> Late(cache[wfid][k], now, seconds)
      {
        offset := offset + 1;
      }
    }

    /** The turn of one workflow: what it reports, and what it keeps. */
    method GetWorkflow(wfid: int, now: int, seconds: int) returns (offset: nat)
      requires wfid in cache
      modifies `cache
      ensures Settled(old(cache[wfid]), seconds, now, if offset > 0 then Some(offset) else None, Lookup(cache, wfid))
      ensures cache.Keys <= old(cache).Keys && forall w :: w != wfid ==> Lookup(cache, w) == Lookup(old(cache), w)
    {
      offset := Scan(wfid, now, seconds);
      if offset > 0 {
        cache := cache[wfid := cache[wfid][offset..]];
        if cache[wfid] == [] {
          cache := cache - {wfid};
        }
      }
    }

    method GetEvents(slas: map<int, int>, delay: int, now: int) returns (rv: map<int, nat>)
      modifies `cache, `reported
      ensures rv == Reports(old(cache), slas, delay, now)
      ensures Abs() == Expire(old(Abs()), slas, delay, now)
    {
      rv := map[];
      ghost var was := cache;
      var todo := cache.Keys;
      while todo != {}
        invariant todo <= was.Keys && rv.Keys <= was.Keys && cache.Keys <= was.Keys
        invariant forall w :: w in todo ==> Lookup(cache, w) == Some(was[w]) && Lookup(rv, w) == None
        invariant forall w :: w in was && w !in todo ==>
          Settled(was[w], Threshold(slas, delay, w), now, Lookup(rv, w), Lookup(cache, w))
        invariant reported == old(reported)
        decreases |todo|
      {
        var wfid := MinKey(todo);
        assert Lookup(cache, wfid) == Some(was[wfid]);
        var offset := GetWorkflow(wfid, now, Threshold(slas, delay, wfid));
        if offset > 0 {
          rv := rv[wfid := offset];
        }
        todo := todo - {wfid};
      }
      AllSettled(was, slas, delay, now, rv, cache);
      reported := Sum(reported, rv);
    }

    method RemoveOrder(wfid: int, wfiid: int) returns (rc: int)
      modifies this
      ensures rc == RemoveResult(old(cache), wfid, wfiid)
      ensures Abs() == Remove(old(Abs()), wfid, wfiid)
    {
      if wfid !in cache {
        return 0;
      }
      var q := cache[wfid];
      for i := 0 to |q|
        invariant forall k :: 0 <= k < i ==> q[k].wfiid != wfiid
      {
        if q[i].wfiid == wfiid {
          cache := cache[wfid := q[..i] + q[i + 1..]];
          removed := Sum(removed, map[wfid := 1]);
          return 0;
        }
      }
      return -1;
    }
  }

  // ---- what every run keeps ----

  /** Later submissions have higher numbers and are at most the slack per submission older. */
  predicate Rough(q: seq<Order>) {
    forall i, j :: 0 <= i < j < |q| ==>
      && q[i].num < q[j].num
      && q[j].created >= q[i].created - SLACK * (q[j].num - q[i].num)
  }

  ghost predicate Numbered(q: seq<Order>, submitted: nat) {
    forall o :: o in q ==> o.num < submitted
  }

  /** What holds of one workflow: its queue, and that each order that came in for it is queued,
      reported or removed. */
  ghost predicate Good(q: seq<Order>, submitted: nat, reported: nat, removed: nat) {
    && Rough(q)
    && Numbered(q, submitted)
    && submitted == |q| + reported + removed
  }

  ghost predicate GoodFor(s: State, w: int) {
    Good(Queued(s.cache, w), Count(s.submitted, w), Count(s.reported, w), Count(s.removed, w))
  }

  ghost predicate Inv(s: State) {
    forall w :: GoodFor(s, w)
  }

  lemma RoughPush(q: seq<Order>, o: Order)
    requires Rough(q) && Numbered(q, o.num) && Accepts(q, o.created)
    ensures Rough(q + [o])
  {
    forall i | 0 <= i < |q| ensures o.created >= q[i].created - SLACK * (o.num - q[i].num) {
      var back := q[|q| - 1];
      assert back.num < o.num && back.created - o.created <= SLACK;
      assert SLACK * (o.num - q[i].num) == SLACK * (o.num - back.num) + SLACK * (back.num - q[i].num);
    }
  }

  lemma RoughErase(q: seq<Order>, i: nat)
    requires i < |q| && Rough(q)
    ensures Rough(q[..i] + q[i + 1..])
  {
    var r := q[..i] + q[i + 1..];
    forall a, b | 0 <= a < b < |r|
      ensures r[a].num < r[b].num && r[b].created >= r[a].created - SLACK * (r[b].num - r[a].num)
    {
      assert r[a] == q[if a < i then a else a + 1] && r[b] == q[if b < i then b else b + 1];
    }
  }

  lemma GoodPush(q: seq<Order>, o: Order, submitted: nat, reported: nat, removed: nat)
    requires Good(q, submitted, reported, removed) && Accepts(q, o.created) && o.num == submitted
    ensures Good(q + [o], submitted + 1, reported, removed)
  {
    RoughPush(q, o);
  }

  lemma SubmitKeeps(s: State, wfid: int, wfiid: int, created: int)
    requires Inv(s) && Accepts(Queued(s.cache, wfid), created)
    ensures Inv(Submit(s, wfid, wfiid, created))
  {
    var t := Submit(s, wfid, wfiid, created);
    forall w ensures GoodFor(t, w) {
      assert GoodFor(s, w);
      if w == wfid {
        GoodPush(Queued(s.cache, w), Order(wfiid, created, Count(s.submitted, w)),
                 Count(s.submitted, w), Count(s.reported, w), Count(s.removed, w));
      }
    }
  }

  /** Reported and remaining orders together are the queue as it was, in order; the reported are late
      and the first remaining one is not. */
  lemma ReportsSplitQueues(cache: Cache, slas: map<int, int>, delay: int, now: int, w: int)
    ensures var n := Count(Reports(cache, slas, delay, now), w);
            var rest := Queued(Unreported(cache, slas, delay, now), w);
            var q := Queued(cache, w);
            && n <= |q| && rest == q[n..]
            && IsLatePrefix(q, n, now, Threshold(slas, delay, w))
  {
    if w in cache {
      var q, limit := cache[w], Threshold(slas, delay, w);
      assert q[0..] == q;
      assert LatePrefix(q, now, limit) == |q| ==> q[|q|..] == [];
    }
  }

  /** The first `n` orders have reached the age, and the next has not. */
  predicate OldAtHead(q: seq<Order>, n: nat, now: int, age: int) {
    && n <= |q|
    && (forall k :: 0 <= k < n ==> now - q[k].created >= age)
    && (n < |q| ==> now - q[n].created < age)
  }

  /** The reported orders of a workflow are those at its head that have reached its own service level, if it has
      one that is not 0, and otherwise 1800 seconds, by the delay; a workflow goes with its last reported order. */
  lemma EventsExactly(cache: Cache, slas: map<int, int>, delay: int, now: int, w: int)
    requires w in cache
    ensures var n := Count(Reports(cache, slas, delay, now), w);
            && (w in slas && slas[w] != 0 ==> OldAtHead(cache[w], n, now, slas[w] + delay))
            && (w !in slas || slas[w] == 0 ==> OldAtHead(cache[w], n, now, 1800 + delay))
            && (w in Reports(cache, slas, delay, now) <==> n > 0)
            && (w in Unreported(cache, slas, delay, now) <==> n == 0 || n < |cache[w]|)
            && (w in Unreported(cache, slas, delay, now) ==> Unreported(cache, slas, delay, now)[w] == cache[w][n..])
  {
  }

  lemma GoodTail(q: seq<Order>, n: nat, submitted: nat, reported: nat, removed: nat)
    requires n <= |q| && Good(q, submitted, reported, removed)
    ensures Good(q[n..], submitted, reported + n, removed)
  {
  }

  lemma ExpireKeeps(s: State, slas: map<int, int>, delay: int, now: int)
    requires Inv(s)
    ensures Inv(Expire(s, slas, delay, now))
  {
    var t := Expire(s, slas, delay, now);
    forall w ensures GoodFor(t, w) {
      assert GoodFor(s, w);
      ReportsSplitQueues(s.cache, slas, delay, now, w);
      GoodTail(Queued(s.cache, w), Count(Reports(s.cache, slas, delay, now), w),
               Count(s.submitted, w), Count(s.reported, w), Count(s.removed, w));
    }
  }

  lemma GoodErase(q: seq<Order>, i: nat, submitted: nat, reported: nat, removed: nat)
    requires i < |q| && Good(q, submitted, reported, removed)
    ensures Good(q[..i] + q[i + 1..], submitted, reported, removed + 1)
  {
    RoughErase(q, i);
  }

  lemma RemoveKeeps(s: State, wfid: int, wfiid: int)
    requires Inv(s)
    ensures Inv(Remove(s, wfid, wfiid))
  {
    var t := Remove(s, wfid, wfiid);
    var q := Queued(s.cache, wfid);
    var i := Find(q, wfiid);
    assert GoodFor(s, wfid);
    if i < |q| {
      GoodErase(q, i, Count(s.submitted, wfid), Count(s.reported, wfid), Count(s.removed, wfid));
      forall w ensures GoodFor(t, w) {
        assert GoodFor(s, w);
        assert Queued(t.cache, w) == if w == wfid then q[..i] + q[i + 1..] else Queued(s.cache, w);
      }
    }
  }

  // ---- runs ----

  datatype Op = Queue(wfid: int, wfiid: int, created: int)
              | Get(slas: map<int, int>, delay: int, now: int)
              | Del(wfid: int, wfiid: int)

  predicate Allowed(s: State, op: Op) {
    op.Queue? ==> Accepts(Queued(s.cache, op.wfid), op.created)
  }

  ghost function Step(s: State, op: Op): State {
    match op
    case Queue(wfid, wfiid, created) => Submit(s, wfid, wfiid, created)
    case Get(slas, delay, now) => Expire(s, slas, delay, now)
    case Del(wfid, wfiid) => Remove(s, wfid, wfiid)
  }

  ghost function Exec(ops: seq<Op>): State {
    if |ops| == 0 then EMPTY else Step(Exec(ops[..|ops| - 1]), ops[|ops| - 1])
  }

  ghost predicate IsRun(ops: seq<Op>) {
    |ops| == 0 || (IsRun(ops[..|ops| - 1]) && Allowed(Exec(ops[..|ops| - 1]), ops[|ops| - 1]))
  }

  lemma {:induction false} RunKeeps(ops: seq<Op>)
    requires IsRun(ops)
    ensures Inv(Exec(ops))
  {
    if |ops| > 0 {
      var s := Exec(ops[..|ops| - 1]);
      RunKeeps(ops[..|ops| - 1]);
      match ops[|ops| - 1]
      case Queue(wfid, wfiid, created) => SubmitKeeps(s, wfid, wfiid, created);
      case Get(slas, delay, now) => ExpireKeeps(s, slas, delay, now);
      case Del(wfid, wfiid) => RemoveKeeps(s, wfid, wfiid);
    }
  }

  /** In any run, an order that getEvents leaves behind is younger than its service level, or than the default
      if it has none, by the delay and the slack for each submission between it and the head of its queue. */
  lemma LateExpiryBound(ops: seq<Op>, slas: map<int, int>, delay: int, now: int, w: int, k: nat)
    requires IsRun(ops)
    requires k < |Queued(Expire(Exec(ops), slas, delay, now).cache, w)|
    ensures var q := Queued(Expire(Exec(ops), slas, delay, now).cache, w);
            && (w in slas && slas[w] != 0 ==>
                  now - q[k].created < slas[w] + delay + 29 * (q[k].num - q[0].num))
            && (w !in slas || slas[w] == 0 ==>
                  now - q[k].created < 1800 + delay + 29 * (q[k].num - q[0].num))
  {
    var s := Exec(ops);
    RunKeeps(ops);
    ExpireKeeps(s, slas, delay, now);
    assert GoodFor(Expire(s, slas, delay, now), w);
    ReportsSplitQueues(s.cache, slas, delay, now, w);
  }

  /** What came in for a workflow, in order: the orders and when they were created. */
  function Submissions(ops: seq<Op>, w: int): seq<(int, int)> {
    if |ops| == 0 then []
    else
      var op := ops[|ops| - 1];
      Submissions(ops[..|ops| - 1], w) + if op.Queue? && op.wfid == w then [(op.wfiid, op.created)] else []
  }

  predicate StandsFirst(q: seq<Order>, i: nat, wfiid: int) {
    i < |q| && q[i].wfiid == wfiid && forall j :: 0 <= j < i ==> q[j].wfiid != wfiid
  }

  /** A submission joins the end of its workflow's queue and is counted; the other workflows stay. */
  lemma SubmittedExactly(s: State, wfid: int, wfiid: int, created: int, w: int)
    ensures var q, t := Queued(s.cache, w), Step(s, Queue(wfid, wfiid, created));
            && Queued(t.cache, w) == (if w == wfid then q + [Order(wfiid, created, Count(s.submitted, w))] else q)
            && Count(t.submitted, w) == Count(s.submitted, w) + (if w == wfid then 1 else 0)
            && t.reported == s.reported && t.removed == s.removed
  {
  }

  /** What a report takes from the head of a queue is counted. */
  lemma ReportedExactly(s: State, slas: map<int, int>, delay: int, now: int, w: int)
    ensures var q, t := Queued(s.cache, w), Step(s, Get(slas, delay, now));
            && |Queued(t.cache, w)| <= |q| && Queued(t.cache, w) == q[|q| - |Queued(t.cache, w)|..]
            && Count(t.reported, w) == Count(s.reported, w) + |q| - |Queued(t.cache, w)|
            && t.submitted == s.submitted && t.removed == s.removed
  {
    ReportsSplitQueues(s.cache, slas, delay, now, w);
  }

  /** A removal takes the first entry of its order, and nothing if there is none. */
  lemma RemovedExactly(s: State, wfid: int, wfiid: int, w: int)
    ensures var q, t := Queued(s.cache, w), Step(s, Del(wfid, wfiid));
            && (forall i: nat :: w == wfid && StandsFirst(q, i, wfiid) ==>
                  Queued(t.cache, w) == q[..i] + q[i + 1..] && Count(t.removed, w) == Count(s.removed, w) + 1)
            && (w != wfid || (forall o :: o in q ==> o.wfiid != wfiid) ==>
                  Queued(t.cache, w) == q && Count(t.removed, w) == Count(s.removed, w))
            && t.submitted == s.submitted && t.reported == s.reported
  {
  }

  /** A queued order with number `n` is the `n`th that came in, and as many are counted as came in. */
  lemma {:induction false} QueuedAreSubmissions(ops: seq<Op>, w: int)
    ensures var s := Exec(ops);
            && Count(s.submitted, w) == |Submissions(ops, w)|
            && forall o :: o in Queued(s.cache, w) ==>
                 o.num < |Submissions(ops, w)| && Submissions(ops, w)[o.num] == (o.wfiid, o.created)
  {
    if |ops| > 0 {
      var prior, op := ops[..|ops| - 1], ops[|ops| - 1];
      QueuedAreSubmissions(prior, w);
      match op
      case Queue(wfid, wfiid, created) => SubmittedExactly(Exec(prior), wfid, wfiid, created, w);
      case Get(slas, delay, now) => ReportedExactly(Exec(prior), slas, delay, now, w);
      case Del(wfid, wfiid) => RemovedExactly(Exec(prior), wfid, wfiid, w);
    }
  }

  /** In any run, as many orders as came in for a workflow are queued, were reported or were removed. */
  lemma NothingLost(ops: seq<Op>, w: int)
    requires IsRun(ops)
    ensures var s := Exec(ops);
            |Submissions(ops, w)| == |Queued(s.cache, w)| + Count(s.reported, w) + Count(s.removed, w)
  {
    RunKeeps(ops);
    QueuedAreSubmissions(ops, w);
    assert GoodFor(Exec(ops), w);
  }

  // ---- the bound cannot be improved ----

  /** Each of `n` orders is created the whole slack before the one ahead of it. */
  ghost predicate HasFallen(s: State, wfid: int, created: int, n: nat) {
    var q := Queued(s.cache, wfid);
    |q| == n == Count(s.submitted, wfid) && forall k :: 0 <= k < n ==> q[k] == Order(k, created - SLACK * k, k)
  }

  lemma FallsOn(s: State, wfid: int, created: int, n: nat)
    requires HasFallen(s, wfid, created, n)
    ensures Accepts(Queued(s.cache, wfid), created - SLACK * n)
    ensures HasFallen(Submit(s, wfid, n, created - SLACK * n), wfid, created, n + 1)
  {
  }

  lemma RunAppend(ops: seq<Op>, op: Op)
    ensures Exec(ops + [op]) == Step(Exec(ops), op)
    ensures IsRun(ops + [op]) <==> IsRun(ops) && Allowed(Exec(ops), op)
  {
    assert (ops + [op])[..|ops + [op]| - 1] == ops;
  }

  lemma {:induction false} FallingRun(wfid: int, created: int, n: nat) returns (ops: seq<Op>)
    ensures IsRun(ops) && HasFallen(Exec(ops), wfid, created, n)
  {
    ops := [];
    if n > 0 {
      ops := FallingRun(wfid, created, n - 1);
      var op := Queue(wfid, n - 1, created - SLACK * (n - 1));
      FallsOn(Exec(ops), wfid, created, n - 1);
      RunAppend(ops, op);
      ops := ops + [op];
    }
  }

  /** `getEvents` leaves an order at distance `k` from the head that is one second below the bound. */
  ghost predicate LeavesOldest(s: State, slas: map<int, int>, delay: int, now: int, wfid: int, k: nat, age: int) {
    var q := Queued(Expire(s, slas, delay, now).cache, wfid);
    && k < |q|
    && q[k].num - q[0].num == k
    && now - q[k].created == age + 29 * k - 1
  }

  lemma FallenIsOldest(s: State, slas: map<int, int>, delay: int, now: int, wfid: int, k: nat, age: int)
    requires age == (if wfid in slas && slas[wfid] != 0 then slas[wfid] else 1800) + delay
    requires HasFallen(s, wfid, now - age + 1, k + 1)
    ensures LeavesOldest(s, slas, delay, now, wfid, k, age)
  {
    var q := Queued(s.cache, wfid);
    ReportsSplitQueues(s.cache, slas, delay, now, wfid);
    assert q[0].created == now - age + 1;
    assert q[0..] == q;
  }

  /** At every distance from the head there is a run that leaves an order of the greatest age allowed. */
  lemma BoundIsTight(wfid: int, slas: map<int, int>, delay: int, now: int, k: nat, age: int)
    requires age == (if wfid in slas && slas[wfid] != 0 then slas[wfid] else 1800) + delay
    ensures exists ops :: IsRun(ops) && LeavesOldest(Exec(ops), slas, delay, now, wfid, k, age)
  {
    var ops := FallingRun(wfid, now - age + 1, k + 1);
    FallenIsOldest(Exec(ops), slas, delay, now, wfid, k, age);
  }
}
