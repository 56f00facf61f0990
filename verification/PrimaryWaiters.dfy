/** The primary queue with the threads that wait on its condition variable, as a machine over the
    reference lists. */
module PrimaryWaiters {
  import opened Orders
  import opened Multimap
  import opened Conditions
  import opened PrimaryQueues

  /** `deadlines` has, for each thread inside a wait, the trigger at which it times out, if it does. */
  datatype State = State(lists: Lists, cond: Condition, deadlines: map<int, Option<int>>)

  const EMPTY := State(Lists([], []), NOBODY, map[])

  /** An order as init_primary_queue finds it. */
  datatype Order = Order(e: PrimaryEvent, scheduled: Option<int>)

  datatype Step =
    | Add(e: PrimaryEvent, scheduled: Option<int>, now: int, pick: Option<int>)
    | Init(orders: seq<Order>, now: int)
    | Wakeup
    | Get(t: int, now: int, down: bool, i: nat)
    | Resched(wfiid: int, scheduled: Option<int>, now: int, next: Lists)
    | Reprioritize(wfiid: int, prio: int, next: Lists, pick: Option<int>)
    | Remove(wfiid: int)
    | Spurious(t: int)

  /** A submission with a trigger in the future. */
  predicate IsLater(scheduled: Option<int>, now: int) {
    scheduled.Some? && scheduled.value > now
  }

  /** What addToScheduled answers: the order is new, first in the list, and no order is active. */
  ghost predicate AsksForBroadcast(l: Lists, trigger: int, e: PrimaryEvent) {
    !IsScheduled(l.scheduled, e.wfiid) && l.active == [] && UpperBound(l.scheduled, trigger) == 0
  }

  /** The part of `add` that wakes waiting threads. */
  ghost function Notified(s: State, e: PrimaryEvent, scheduled: Option<int>, now: int, pick: Option<int>): Condition {
    if !IsLater(scheduled, now) then s.cond.Notify(pick)
    else if AsksForBroadcast(s.lists, scheduled.value, e) then s.cond.Broadcast()
    else s.cond
  }

  /** Whoever was woken is among all. */
  lemma NotifiedBroadcast(s: State, e: PrimaryEvent, scheduled: Option<int>, now: int, pick: Option<int>)
    ensures Notified(s, e, scheduled, now, pick).Broadcast() == s.cond.Broadcast()
  {
  }

  /** The orders are submitted one after the other. */
  ghost function SubmitAll(l: Lists, orders: seq<Order>, now: int): Lists
    decreases |orders|
  {
    if orders == [] then l else SubmitAll(Submit(l, orders[0].e, orders[0].scheduled, now), orders[1..], now)
  }

  /** Nothing is submitted of no list, and each order after those before it. */
  lemma {:induction false} SubmitAllExactly(l: Lists, orders: seq<Order>, now: int, n: nat)
    requires n < |orders|
    ensures SubmitAll(l, [], now) == l
    ensures SubmitAll(l, orders[..n + 1], now) ==
            Submit(SubmitAll(l, orders[..n], now), orders[n].e, orders[n].scheduled, now)
    decreases n
  {
    var first := Submit(l, orders[0].e, orders[0].scheduled, now);
    assert orders[..n + 1][1..] == orders[1..][..n];
    if n > 0 {
      assert orders[..n][1..] == orders[1..][..n - 1];
      SubmitAllExactly(first, orders[1..], now, n - 1);
    }
  }

  ghost predicate CanSubmitAll(l: Lists, orders: seq<Order>, now: int)
    decreases |orders|
  {
    orders == [] ||
    (CanSubmit(l, orders[0].e.wfiid, orders[0].scheduled, now) &&
     CanSubmitAll(Submit(l, orders[0].e, orders[0].scheduled, now), orders[1..], now))
  }

  /** The assertions of the code hold, and a scheduled order is not removed. */
  ghost predicate Enabled(s: State, step: Step) {
    match step
    case Add(e, scheduled, now, pick) => CanSubmit(s.lists, e.wfiid, scheduled, now) && s.cond.CanPick(pick)
    case Init(orders, now) => CanSubmitAll(s.lists, orders, now)
    case Wakeup => true
    case Get(t, now, down, i) =>
      && s.cond.CanRun(t)
      && (down || Activate(s.lists, now).active == [] || IsNext(Activate(s.lists, now).active, i))
    case Resched(w, scheduled, now, next) => Rescheduled(s.lists, w, scheduled, now, next)
    case Reprioritize(w, prio, next, pick) => Reprioritized(s.lists, w, prio, next) && s.cond.CanPick(pick)
    case Remove(w) => !IsScheduled(s.lists.scheduled, w)
    case Spurious(_) => true
  }

  ghost predicate Known(l: Lists, w: int) {
    IsActive(l.active, w) || IsScheduled(l.scheduled, w)
  }

  /** The thread leaves its wait, if it was in one. */
  function Left(s: State, t: int): State {
    s.(cond := s.cond.Resume(t), deadlines := s.deadlines - {t})
  }

  /** The next order is taken or waited for, with a time-out if an order is scheduled. */
  ghost function TakeOrWait(s: State, t: int, i: nat): State
    requires s.lists.active == [] || i < |s.lists.active|
  {
    var l := s.lists;
    if l.active != [] then s.(lists := l.(active := Without(l.active, l.active[i].wfiid)))
    else s.(cond := s.cond.Enter(t), deadlines := s.deadlines[t := FirstTrigger(l)])
  }

  /** One pass of get_primary_event. */
  ghost function GetStep(s: State, t: int, now: int, down: bool, i: nat): State
    requires down || Activate(s.lists, now).active == [] || i < |Activate(s.lists, now).active|
  {
    if down then Left(s, t) else TakeOrWait(Left(s, t).(lists := Activate(s.lists, now)), t, i)
  }

  /** The order that is taken once the due orders are active. */
  ghost predicate Picks(s: State, now: int, i: nat, e: PrimaryEvent) {
    var active := Activate(s.lists, now).active;
    IsNext(active, i) && e == active[i]
  }

  function FirstTrigger(l: Lists): Option<int> {
    if l.scheduled == [] then None else Some(l.scheduled[0].key)
  }

  ghost function Apply(s: State, step: Step): State
    requires Enabled(s, step)
  {
    match step
    case Add(e, scheduled, now, pick) =>
      s.(lists := Submit(s.lists, e, scheduled, now), cond := Notified(s, e, scheduled, now, pick))
    case Init(orders, now) => s.(lists := SubmitAll(s.lists, orders, now), cond := s.cond.Broadcast())
    case Wakeup => s.(cond := s.cond.Broadcast())
    case Get(t, now, down, i) => GetStep(s, t, now, down, i)
    case Resched(w, _, _, next) => s.(lists := next, cond := if Known(s.lists, w) then s.cond.Broadcast() else s.cond)
    case Reprioritize(w, _, next, pick) =>
      s.(lists := next,
         cond := if IsActive(s.lists.active, w) && !IsScheduled(s.lists.scheduled, w) then s.cond.Notify(pick)
                 else s.cond)
    case Remove(w) => s.(lists := s.lists.(active := Without(s.lists.active, w)))
    case Spurious(t) => s.(cond := s.cond.Signal(t))
  }

  // ---- what a pass does ----

  /** With an order active, once the due ones are, the thread takes the chosen one, which leaves the queue; without, it
      sleeps with the first trigger that is left as its time-out; terminated, it leaves. */
  lemma GetExactly(s: State, t: int, now: int, down: bool, i: nat)
    requires Inv(s) && Enabled(s, Get(t, now, down, i))
    ensures var l, m := Activate(s.lists, now), Apply(s, Get(t, now, down, i));
            if down then m.lists == s.lists && t !in m.cond.inside && t !in m.deadlines
            else if l.active != [] then
              && m.lists.scheduled == l.scheduled
              && (forall e :: e in m.lists.active <==> e in l.active && e.wfiid != l.active[i].wfiid)
              && (Unique(l.active) ==> m.lists.active == l.active[..i] + l.active[i + 1..])
              && t !in m.cond.inside && t !in m.deadlines
            else
              && m.lists == l && m.cond.Asleep(t)
              && t in m.deadlines && m.deadlines[t] == if l.scheduled == [] then None else Some(l.scheduled[0].key)
    ensures forall u :: u != t ==>
      (Apply(s, Get(t, now, down, i)).cond.Asleep(u) <==> s.cond.Asleep(u))
  {
    var l := Activate(s.lists, now);
    if !down && l.active != [] {
      WithoutMembers(l.active, l.active[i].wfiid);
      if Unique(l.active) {
        EraseIsWithout(l.active, i);
      }
    }
    forall u ensures u != t ==> (GetStep(s, t, now, down, i).cond.Asleep(u) <==> s.cond.Asleep(u)) {
      SleepersExactly(s.cond, t, u, None);
      SleepersExactly(s.cond.Resume(t), t, u, None);
    }
  }

  /** A new order wakes the one that the signal picks, or, scheduled before all others while none is active,
      everybody. */
  lemma AddWakes(s: State, e: PrimaryEvent, scheduled: Option<int>, now: int, pick: Option<int>, u: int)
    requires Inv(s) && Enabled(s, Add(e, scheduled, now, pick))
    ensures var t := Apply(s, Add(e, scheduled, now, pick));
            if scheduled.Some? && scheduled.value > now then
              if s.lists.active == [] && (forall x :: x in s.lists.scheduled ==> x.val.wfiid != e.wfiid)
                && (s.lists.scheduled == [] || scheduled.value < s.lists.scheduled[0].key)
              then !t.cond.Asleep(u) else t.cond == s.cond
            else t.cond.Asleep(u) <==> pick != Some(u) && s.cond.Asleep(u)
  {
    SleepersExactly(s.cond, u, u, pick);
    if scheduled.Some? && s.lists.scheduled != [] {
      assert UpperBound(s.lists.scheduled, scheduled.value) == 0 <==> scheduled.value < s.lists.scheduled[0].key;
    }
  }

  /** A new priority wakes the one that the signal picks, if the order is active. */
  lemma ReprioritizeWakes(s: State, w: int, prio: int, next: Lists, pick: Option<int>, u: int)
    requires Inv(s) && Enabled(s, Reprioritize(w, prio, next, pick))
    ensures var t := Apply(s, Reprioritize(w, prio, next, pick));
            if (exists e :: e in s.lists.active && e.wfiid == w)
              && (forall x :: x in s.lists.scheduled ==> x.val.wfiid != w)
            then t.cond.Asleep(u) <==> pick != Some(u) && s.cond.Asleep(u) else t.cond == s.cond
  {
    SleepersExactly(s.cond, u, u, pick);
  }

  /** A new schedule, a whole list and a wake-up wake everybody; a removal wakes nobody. */
  lemma OthersWake(s: State, step: Step, u: int)
    requires Inv(s) && Enabled(s, step) && (step.Init? || step.Wakeup? || step.Resched? || step.Remove?)
    ensures (step.Init? || step.Wakeup?) ==> !Apply(s, step).cond.Asleep(u)
    ensures step.Resched? && ((exists e :: e in s.lists.active && e.wfiid == step.wfiid) ||
                              (exists x :: x in s.lists.scheduled && x.val.wfiid == step.wfiid)) ==>
      !Apply(s, step).cond.Asleep(u)
    ensures step.Remove? ==> Apply(s, step).cond == s.cond
  {
    BroadcastSound(s.cond);
  }

  // ---- waiting past a trigger ----

  /** The thread sleeps, nothing has woken it, and it times out after `trigger` or never. */
  predicate SleepsPast(s: State, t: int, trigger: int) {
    s.cond.Asleep(t) && t in s.deadlines && (s.deadlines[t].None? || s.deadlines[t].value > trigger)
  }

  ghost predicate SomeSleepPast(s: State, trigger: int) {
    exists t :: SleepsPast(s, t, trigger)
  }

  /** A thread sleeps past the first trigger. */
  ghost predicate Overslept(s: State) {
    s.lists.scheduled != [] && SomeSleepPast(s, s.lists.scheduled[0].key)
  }

  ghost predicate Inv(s: State) {
    s.cond.Sound() && s.deadlines.Keys == s.cond.inside && Sorted(s.lists.scheduled)
  }

  lemma StepKeeps(s: State, step: Step)
    requires Inv(s) && Enabled(s, step)
    ensures Inv(Apply(s, step))
  {
    WaitersKept(s, step);
    SortedKept(s, step);
  }

  lemma WaitersKept(s: State, step: Step)
    requires Inv(s) && Enabled(s, step)
    ensures var t := Apply(s, step); t.cond.Sound() && t.deadlines.Keys == t.cond.inside
  {
    match step
    case Get(t, now, down, i) => GetKeeps(s, t, now, down, i);
    case Add(_, _, _, pick) =>
      NotifySound(s.cond, pick);
      BroadcastSound(s.cond);
    case Reprioritize(_, _, _, pick) => NotifySound(s.cond, pick);
    case Resched(_, _, _, _) => BroadcastSound(s.cond);
    case Init(_, _) => BroadcastSound(s.cond);
    case Wakeup => BroadcastSound(s.cond);
    case Spurious(t) => SignalSound(s.cond, t);
    case Remove(_) =>
  }

  lemma GetKeeps(s: State, t: int, now: int, down: bool, i: nat)
    requires Inv(s) && Enabled(s, Get(t, now, down, i))
    ensures var s' := GetStep(s, t, now, down, i); s'.cond.Sound() && s'.deadlines.Keys == s'.cond.inside
  {
    ResumeSound(s.cond, t);
    EnterSound(s.cond.Resume(t), t);
  }

  lemma SubmitSorted(l: Lists, e: PrimaryEvent, scheduled: Option<int>, now: int)
    requires Sorted(l.scheduled)
    ensures Sorted(Submit(l, e, scheduled, now).scheduled)
  {
    if scheduled.Some? {
      InsertSorted(l.scheduled, scheduled.value, e);
    }
  }

  lemma {:induction false} SubmitAllSorted(l: Lists, orders: seq<Order>, now: int)
    requires Sorted(l.scheduled)
    ensures Sorted(SubmitAll(l, orders, now).scheduled)
    decreases |orders|
  {
    if orders != [] {
      SubmitSorted(l, orders[0].e, orders[0].scheduled, now);
      SubmitAllSorted(Submit(l, orders[0].e, orders[0].scheduled, now), orders[1..], now);
    }
  }

  lemma EraseSorted(q: seq<Slot<PrimaryEvent>>, k: nat)
    requires Sorted(q) && k < |q|
    ensures Sorted(Erase(q, k))
  {
    var r := Erase(q, k);
    forall i, j | 0 <= i < j < |r| ensures r[i].key <= r[j].key {
      assert r[i] == q[if i < k then i else i + 1] && r[j] == q[if j < k then j else j + 1];
    }
  }

  lemma RescheduledSorted(l: Lists, w: int, scheduled: Option<int>, now: int, m: Lists)
    requires Sorted(l.scheduled) && Rescheduled(l, w, scheduled, now, m)
    ensures Sorted(m.scheduled)
  {
    if IsScheduled(l.scheduled, w) {
      var k :| 0 <= k < |l.scheduled| && l.scheduled[k].val.wfiid == w &&
        m == Submit(l.(scheduled := Erase(l.scheduled, k)), l.scheduled[k].val, scheduled, now);
      EraseSorted(l.scheduled, k);
      SubmitSorted(l.(scheduled := Erase(l.scheduled, k)), l.scheduled[k].val, scheduled, now);
    } else if IsActive(l.active, w) {
      var e :| e in l.active && e.wfiid == w && m == Submit(l.(active := Without(l.active, w)), e, scheduled, now);
      SubmitSorted(l.(active := Without(l.active, w)), e, scheduled, now);
    }
  }

  lemma SortedKept(s: State, step: Step)
    requires Inv(s) && Enabled(s, step)
    ensures Sorted(Apply(s, step).lists.scheduled)
  {
    match step
    case Add(e, scheduled, now, _) => SubmitSorted(s.lists, e, scheduled, now);
    case Init(orders, now) => SubmitAllSorted(s.lists, orders, now);
    case Resched(w, scheduled, now, next) => RescheduledSorted(s.lists, w, scheduled, now, next);
    case Get(_, now, _, _) => ActivateLater(s.lists, now);
    case _ =>
  }

  /** What stays scheduled has no earlier trigger. */
  lemma ActivateLater(l: Lists, now: int)
    requires Sorted(l.scheduled)
    ensures var rest := Activate(l, now).scheduled;
            && Sorted(rest)
            && (rest != [] ==> l.scheduled != [] && l.scheduled[0].key <= rest[0].key)
  {
  }

  /** The step schedules a new order while another is active and a thread sleeps past its trigger. */
  ghost predicate Oversleeps(s: State, step: Step) {
    && step.Add? && IsLater(step.scheduled, step.now) && !IsScheduled(s.lists.scheduled, step.e.wfiid)
    && s.lists.active != [] && SomeSleepPast(s, step.scheduled.value)
  }

  /** Fewer sleepers, and no earlier trigger. */
  lemma NoneLater(s: State, t: State)
    requires t.lists.scheduled != [] ==>
      s.lists.scheduled != [] && s.lists.scheduled[0].key <= t.lists.scheduled[0].key
    requires forall u, trigger :: SleepsPast(t, u, trigger) ==> SleepsPast(s, u, trigger)
    ensures Overslept(t) ==> Overslept(s)
  {
    if Overslept(t) {
      var u :| SleepsPast(t, u, t.lists.scheduled[0].key);
      assert SleepsPast(s, u, t.lists.scheduled[0].key);
      assert SleepsPast(s, u, s.lists.scheduled[0].key);
    }
  }

  lemma BroadcastTimely(s: State, t: State)
    requires Inv(s) && t.cond == s.cond.Broadcast()
    ensures !Overslept(t)
  {
    BroadcastSound(s.cond);
  }

  /** A new order behind the first trigger changes nothing; one before it is the first. */
  lemma ScheduleExactly(s: State, trigger: int, e: PrimaryEvent)
    requires Inv(s) && !Overslept(s)
    ensures var t := s.(lists := s.lists.(scheduled := Insert(s.lists.scheduled, trigger, e)));
            Overslept(t) <==> SomeSleepPast(s, trigger)
  {
    var l := s.lists.scheduled;
    var t := s.(lists := s.lists.(scheduled := Insert(l, trigger, e)));
    var first := t.lists.scheduled[0].key;
    assert first == if l != [] && l[0].key <= trigger then l[0].key else trigger;
    forall u, at ensures SleepsPast(t, u, at) <==> SleepsPast(s, u, at) {
    }
    if u :| SleepsPast(s, u, trigger) {
      assert SleepsPast(t, u, first);
    }
  }

  lemma AddExactly(s: State, step: Step)
    requires Inv(s) && step.Add? && Enabled(s, step) && !Overslept(s)
    ensures Overslept(Apply(s, step)) <==> Oversleeps(s, step)
  {
    var t := Apply(s, step);
    if !IsLater(step.scheduled, step.now) || IsScheduled(s.lists.scheduled, step.e.wfiid) {
      NoneLater(s, t);
    } else {
      var trigger := step.scheduled.value;
      ScheduleExactly(s, trigger, step.e);
      if AsksForBroadcast(s.lists, trigger, step.e) {
        BroadcastTimely(s, t);
      } else if s.lists.active == [] {
        assert s.lists.scheduled[0].key <= trigger;
        if u :| SleepsPast(s, u, trigger) {
          assert SleepsPast(s, u, s.lists.scheduled[0].key);
        }
      }
    }
  }

  lemma GetTimely(s: State, t: int, now: int, down: bool, i: nat)
    requires Inv(s) && Enabled(s, Get(t, now, down, i))
    ensures Overslept(GetStep(s, t, now, down, i)) ==> Overslept(s)
  {
    var s' := GetStep(s, t, now, down, i);
    ActivateLater(s.lists, now);
    if Overslept(s') {
      var first := s'.lists.scheduled[0].key;
      var u :| SleepsPast(s', u, first);
      assert u != t;
      assert SleepsPast(s, u, s.lists.scheduled[0].key);
    }
  }

  /** Of all steps only that one leaves a thread asleep past a trigger: with a broadcast asked for only if no order
      is active, an order scheduled while one is active wakes nobody. */
  lemma OversleepsExactly(s: State, step: Step)
    requires Inv(s) && Enabled(s, step) && !Overslept(s)
    ensures Overslept(Apply(s, step)) <==> Oversleeps(s, step)
  {
    match step
    case Add(_, _, _, _) => AddExactly(s, step);
    case Init(_, _) => BroadcastTimely(s, Apply(s, step));
    case Wakeup => BroadcastTimely(s, Apply(s, step));
    case Get(t, now, down, i) => GetTimely(s, t, now, down, i);
    case Resched(w, _, _, _) =>
      if Known(s.lists, w) {
        BroadcastTimely(s, Apply(s, step));
      } else {
        NoneLater(s, Apply(s, step));
      }
    case Reprioritize(_, _, _, _) => NoneLater(s, Apply(s, step));
    case Remove(_) => NoneLater(s, Apply(s, step));
    case Spurious(_) => NoneLater(s, Apply(s, step));
  }

  // ---- runs ----

  ghost predicate IsRun(states: seq<State>, steps: seq<Step>) {
    && |states| == |steps| + 1
    && states[0] == EMPTY
    && forall i :: 0 <= i < |steps| ==> Enabled(states[i], steps[i]) && states[i + 1] == Apply(states[i], steps[i])
  }

  lemma {:induction false} RunKeeps(states: seq<State>, steps: seq<Step>, n: nat)
    requires IsRun(states, steps) && n < |states|
    ensures Inv(states[n])
  {
    if n > 0 {
      RunKeeps(states, steps, n - 1);
      StepKeeps(states[n - 1], steps[n - 1]);
    }
  }

  lemma {:induction false} NeverOverslept(states: seq<State>, steps: seq<Step>, n: nat)
    requires IsRun(states, steps) && n < |states|
    requires forall j :: 0 <= j < n ==> !Oversleeps(states[j], steps[j])
    ensures !Overslept(states[n])
  {
    if n > 0 {
      NeverOverslept(states, steps, n - 1);
      RunKeeps(states, steps, n - 1);
      OversleepsExactly(states[n - 1], steps[n - 1]);
    }
  }

  /** A run reaches a state with a thread asleep past a trigger if and only if it takes such a step. */
  lemma RunOversleepsExactly(states: seq<State>, steps: seq<Step>)
    requires IsRun(states, steps)
    ensures (exists i :: 0 <= i < |states| && Overslept(states[i])) <==>
            (exists i :: 0 <= i < |steps| && Oversleeps(states[i], steps[i]))
  {
    if i :| 0 <= i < |steps| && Oversleeps(states[i], steps[i]) {
      RunKeeps(states, steps, i);
      if !Overslept(states[i]) {
        OversleepsExactly(states[i], steps[i]);
        assert Overslept(states[i + 1]);
      }
    } else {
      forall i | 0 <= i < |states| ensures !Overslept(states[i]) {
        NeverOverslept(states, steps, i);
      }
    }
  }

  lemma Extend(states: seq<State>, steps: seq<Step>, step: Step) returns (states': seq<State>, steps': seq<Step>)
    requires IsRun(states, steps) && Enabled(states[|states| - 1], step)
    ensures IsRun(states', steps') && |states'| == |states| + 1
    ensures states'[|states'| - 1] == Apply(states[|states| - 1], step)
  {
    states', steps' := states + [Apply(states[|states| - 1], step)], steps + [step];
  }

  /** Two threads asleep with nothing in the queue. */
  function BothAsleep(a: int, b: int): State {
    State(Lists([], []), NOBODY.Enter(a).Enter(b), map[a := None, b := None])
  }

  lemma FallsAsleep(s: State, t: int)
    requires s.lists == Lists([], []) && t !in s.cond.inside && t !in s.deadlines
    ensures Enabled(s, Get(t, 0, false, 0))
    ensures GetStep(s, t, 0, false, 0) == State(s.lists, s.cond.Enter(t), s.deadlines[t := None])
  {
    assert Activate(s.lists, 0) == s.lists;
    assert s.deadlines - {t} == s.deadlines;
  }

  lemma BothAsleepReached(a: int, b: int) returns (states: seq<State>, steps: seq<Step>)
    requires a != b
    ensures IsRun(states, steps) && |states| == 3 && states[2] == BothAsleep(a, b)
  {
    FallsAsleep(EMPTY, a);
    var s1 := State(Lists([], []), NOBODY.Enter(a), map[a := None]);
    FallsAsleep(s1, b);
    assert s1.deadlines[b := None] == map[a := None, b := None];
    states, steps := [EMPTY], [];
    states, steps := Extend(states, steps, Get(a, 0, false, 0));
    states, steps := Extend(states, steps, Get(b, 0, false, 0));
  }

  /** One was woken for an order, and a second order is scheduled. */
  function OneWoken(a: int, b: int, e: PrimaryEvent, f: PrimaryEvent): State {
    BothAsleep(a, b).(lists := Lists([e], [Slot(1, f)]), cond := BothAsleep(a, b).cond.Signal(a))
  }

  lemma OneWokenSteps(a: int, b: int, e: PrimaryEvent, f: PrimaryEvent)
    requires a != b && e.wfiid != f.wfiid
    ensures var s := BothAsleep(a, b);
            var t := s.(lists := Lists([e], []), cond := s.cond.Signal(a));
            && Enabled(s, Add(e, None, 0, Some(a))) && Apply(s, Add(e, None, 0, Some(a))) == t
            && Enabled(t, Add(f, Some(1), 0, Some(b))) && Apply(t, Add(f, Some(1), 0, Some(b))) == OneWoken(a, b, e, f)
  {
    assert !IsActive([], e.wfiid) && !IsScheduled([], f.wfiid);
    assert [] + [e] == [e];
  }

  lemma OneLeft(a: int, b: int, e: PrimaryEvent, f: PrimaryEvent)
    requires a != b && e.wfiid != f.wfiid
    ensures var s := OneWoken(a, b, e, f);
            && Enabled(s, Get(a, 0, false, 0))
            && var t := GetStep(s, a, 0, false, 0);
            && Overslept(t) && t.cond.woken == {} && t.lists == Lists([], [Slot(1, f)])
  {
    var s := OneWoken(a, b, e, f);
    assert Activate(s.lists, 0) == s.lists && Without([e], e.wfiid) == [];
    assert IsNext(s.lists.active, 0);
    assert SleepsPast(GetStep(s, a, 0, false, 0), b, 1);
  }

  /** Two threads sleep with nothing scheduled. An order wakes one of them, a second order is scheduled before
      that one runs, and when it has taken the first nobody is left to wake for the second. */
  lemma ScheduledBehindActive(a: int, b: int, e: PrimaryEvent, f: PrimaryEvent)
    requires a != b && e.wfiid != f.wfiid
    ensures exists states: seq<State>, steps: seq<Step> ::
      && IsRun(states, steps) && |states| == 6
      && Overslept(states[5]) && states[5].cond.woken == {} && states[5].lists == Lists([], [Slot(1, f)])
  {
    OneWokenSteps(a, b, e, f);
    OneLeft(a, b, e, f);
    var states, steps := BothAsleepReached(a, b);
    states, steps := Extend(states, steps, Add(e, None, 0, Some(a)));
    states, steps := Extend(states, steps, Add(f, Some(1), 0, Some(b)));
    states, steps := Extend(states, steps, Get(a, 0, false, 0));
  }
}
