/** A condition variable with the counter kept beside it: the threads inside a wait, and those of
    them that have been woken but have not run yet. */
module Conditions {
  import opened Orders

  datatype Condition = Condition(inside: set<int>, woken: set<int>, waiting: int) {
    predicate Asleep(t: int) {
      t in inside && t !in woken
    }

    predicate AllWoken() {
      inside <= woken
    }

    predicate CanRun(t: int) {
      t !in inside || t in woken
    }

    function Enter(t: int): Condition {
      Condition(inside + {t}, woken, waiting + 1)
    }

    /** The thread runs again, if it was inside. */
    function Resume(t: int): Condition {
      if t in inside then Condition(inside - {t}, woken - {t}, waiting - 1) else this
    }

    /** A broadcast is sent only if somebody is counted. */
    function Broadcast(): Condition {
      if waiting != 0 then Condition(inside, inside, waiting) else this
    }

    /** One thread is woken by a signal, or spuriously. */
    function Signal(t: int): Condition {
      if t in inside then Condition(inside, woken + {t}, waiting) else this
    }

    /** A signal is sent only if somebody is counted, and reaches `pick`. */
    function Notify(pick: Option<int>): Condition {
      if waiting != 0 && pick.Some? then Signal(pick.value) else this
    }

    /** A signal reaches some sleeping thread if there is one. */
    predicate CanPick(pick: Option<int>) {
      if pick.Some? then Asleep(pick.value) else AllWoken()
    }

    predicate Sound() {
      woken <= inside && waiting == |inside|
    }
  }

  const NOBODY := Condition({}, {}, 0)

  lemma EnterSound(c: Condition, t: int)
    requires c.Sound() && t !in c.inside
    ensures c.Enter(t).Sound()
  {
  }

  lemma ResumeSound(c: Condition, t: int)
    requires c.Sound() && c.CanRun(t)
    ensures c.Resume(t).Sound() && t !in c.Resume(t).inside
    ensures c.AllWoken() ==> c.Resume(t).AllWoken()
  {
  }

  lemma SignalSound(c: Condition, t: int)
    requires c.Sound()
    ensures c.Signal(t).Sound() && c.Signal(t).inside == c.inside
    ensures c.AllWoken() ==> c.Signal(t).AllWoken()
  {
  }

  lemma NotifySound(c: Condition, pick: Option<int>)
    requires c.Sound()
    ensures c.Notify(pick).Sound() && c.Notify(pick).inside == c.inside
  {
    if pick.Some? {
      SignalSound(c, pick.value);
    }
  }

  lemma BroadcastSound(c: Condition)
    requires c.Sound()
    ensures c.Broadcast().Sound() && c.Broadcast().inside == c.inside && c.Broadcast().AllWoken()
  {
    assert c.waiting == 0 ==> c.inside == {};
  }

  /** Who sleeps after each operation, thread by thread. */
  lemma SleepersExactly(c: Condition, t: int, u: int, pick: Option<int>)
    requires c.Sound()
    ensures t !in c.inside ==> (c.Enter(t).Asleep(u) <==> u == t || c.Asleep(u))
    ensures c.Resume(t).Asleep(u) <==> u != t && c.Asleep(u)
    ensures c.Resume(t).inside == c.inside - {t}
    ensures !c.Broadcast().Asleep(u) && c.Broadcast().inside == c.inside
    ensures c.Signal(t).Asleep(u) <==> u != t && c.Asleep(u)
    ensures c.CanPick(pick) ==> (c.Notify(pick).Asleep(u) <==> pick != Some(u) && c.Asleep(u))
  {
    BroadcastSound(c);
    assert c.waiting == 0 ==> c.inside == {};
  }

  lemma OnlyOne(s: set<int>, t: int, u: int)
    requires |s| <= 1 && t in s && u in s
    ensures t == u
  {
    assert |s - {t}| == |s| - 1;
    assert u == t || u in s - {t};
  }
}
