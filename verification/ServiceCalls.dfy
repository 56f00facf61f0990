/** The calls of a service and its stop, as a machine: the service mutex is held through a step, and a
    wait on the condition variable ends one step and starts another. */
module ServiceCalls {
  import opened Conditions
  import opened Orders

  /** Where a thread is in stop(): tearing the service down, waiting for it to be idle, or in the
      final wait. */
  datatype Phase = Tearing(idle: bool) | Idling | Ending

  /** The fields of the service. Behind them: the calls in progress by thread, how many references aborts
      dropped and how many returning calls found none to give back, who won the stop, and the
      threads in stop(). */
  datatype State = State(refs: int, statcond: Condition, stopping: int, stopped: bool, behind: Behind)

  datatype Behind = Behind(
    calls: multiset<int>, dropped: int, absorbed: int, winners: seq<int>, stoppers: map<int, Phase>)

  const START := State(0, NOBODY, 0, false, Behind(multiset{}, 0, 0, [], map[]))

  datatype Step =
    | Call(t: int)
    | Return(t: int)
    | Abort(t: int, stop: bool)
    | BeginStop(t: int, idle: bool)
    | TornDown(t: int)
    | WaitIdle(t: int)
    | WaitEnd(t: int)
    | Spurious(t: int)

  predicate Enabled(s: State, step: Step) {
    match step
    case Call(_) => true
    case Return(t) => t in s.behind.calls
    case Abort(t, _) => t > 0
    case BeginStop(t, _) => t > 0 && t !in s.behind.stoppers
    case TornDown(t) => t in s.behind.stoppers && s.behind.stoppers[t].Tearing?
    case WaitIdle(t) => t in s.behind.stoppers && s.behind.stoppers[t].Idling? && s.statcond.CanRun(t)
    case WaitEnd(t) => t in s.behind.stoppers && s.behind.stoppers[t].Ending? && s.statcond.CanRun(t)
    case Spurious(_) => true
  }

  /** The reference taken by callMethod, ref and startService; refused once the service has stopped. */
  function CallStep(s: State, t: int): State {
    if s.stopped then s
    else s.(refs := s.refs + 1, behind := s.behind.(calls := s.behind.calls + multiset{t}))
  }

  /** deref: a call that outlived an abort may find no reference to give back. */
  function ReturnStep(s: State, t: int): State {
    var calls := s.behind.calls - multiset{t};
    if s.refs == 0 then s.(behind := s.behind.(calls := calls, absorbed := s.behind.absorbed + 1))
    else s.(refs := s.refs - 1, behind := s.behind.(calls := calls),
            statcond := if s.refs == 1 then s.statcond.Broadcast() else s.statcond)
  }

  /** stopNowIntern: the first thread wins. */
  function StopNow(s: State, t: int): State {
    if s.stopping == 0 then s.(stopping := t, behind := s.behind.(winners := s.behind.winners + [t])) else s
  }

  function DropReferences(s: State): State {
    s.(refs := 0, statcond := s.statcond.Broadcast(), behind := s.behind.(dropped := s.behind.dropped + s.refs))
  }

  function AbortStep(s: State, t: int, stop: bool): State {
    if stop then StopNow(DropReferences(s), t) else DropReferences(s)
  }

  function Move(s: State, t: int, phase: Phase): State {
    s.(behind := s.behind.(stoppers := s.behind.stoppers[t := phase]))
  }

  function AfterTeardown(idle: bool): Phase {
    if idle then Idling else Ending
  }

  /** Only the winner tears the service down. */
  function BeginStopStep(s: State, t: int, idle: bool): State {
    Move(StopNow(s, t), t, if s.stopping == 0 then Tearing(idle) else AfterTeardown(idle))
  }

  /** Either wait goes on while there are references. */
  function WaitIdleStep(s: State, t: int): State {
    var c := s.statcond.Resume(t);
    if s.refs != 0 then s.(statcond := c.Enter(t)) else Move(s.(statcond := c), t, Ending)
  }

  function WaitEndStep(s: State, t: int): State {
    var c := s.statcond.Resume(t);
    if s.refs != 0 then s.(statcond := c.Enter(t))
    else s.(statcond := c, stopped := true, behind := s.behind.(stoppers := s.behind.stoppers - {t}))
  }

  function Apply(s: State, step: Step): State {
    match step
    case Call(t) => CallStep(s, t)
    case Return(t) => ReturnStep(s, t)
    case Abort(t, stop) => AbortStep(s, t, stop)
    case BeginStop(t, idle) => BeginStopStep(s, t, idle)
    case TornDown(t) =>
      if t in s.behind.stoppers && s.behind.stoppers[t].Tearing?
      then Move(s, t, AfterTeardown(s.behind.stoppers[t].idle)) else s
    case WaitIdle(t) => WaitIdleStep(s, t)
    case WaitEnd(t) => WaitEndStep(s, t)
    case Spurious(t) => s.(statcond := s.statcond.Signal(t))
  }

  // ---- what every step keeps ----

  /** The calls in progress are the references plus those that aborts dropped and no return absorbed. */
  predicate Accounts(refs: int, b: Behind) {
    0 <= refs && 0 <= b.absorbed <= b.dropped && |b.calls| == refs + b.dropped - b.absorbed
  }

  predicate WonOnce(stopping: int, winners: seq<int>) {
    winners == if stopping == 0 then [] else [stopping]
  }

  predicate Inv(s: State) {
    && Accounts(s.refs, s.behind)
    && (s.stopped ==> s.refs == 0)
    && s.statcond.Sound() && (s.refs == 0 ==> s.statcond.AllWoken())
    && s.statcond.inside <= s.behind.stoppers.Keys
    && WonOnce(s.stopping, s.behind.winners)
  }

  lemma WaitKeeps(s: State, t: int)
    requires Inv(s) && t in s.behind.stoppers && s.statcond.CanRun(t)
    ensures Inv(WaitIdleStep(s, t)) && Inv(WaitEndStep(s, t))
  {
    ResumeSound(s.statcond, t);
    EnterSound(s.statcond.Resume(t), t);
  }

  lemma ReturnKeeps(s: State, t: int)
    requires Inv(s) && t in s.behind.calls
    ensures Inv(ReturnStep(s, t))
  {
    assert s.statcond.waiting == 0 ==> s.statcond.inside == {};
  }

  lemma AbortKeeps(s: State, t: int, stop: bool)
    requires Inv(s) && t > 0
    ensures Inv(AbortStep(s, t, stop))
  {
    assert s.statcond.waiting == 0 ==> s.statcond.inside == {};
  }

  lemma StepKeeps(s: State, step: Step)
    requires Inv(s) && Enabled(s, step)
    ensures Inv(Apply(s, step))
  {
    match step
    case WaitIdle(t) => WaitKeeps(s, t);
    case WaitEnd(t) => WaitKeeps(s, t);
    case Return(t) => ReturnKeeps(s, t);
    case Abort(t, stop) => AbortKeeps(s, t, stop);
    case _ =>
  }

  lemma StepStaysStopped(s: State, step: Step)
    requires s.stopped
    ensures Apply(s, step).stopped
  {
  }

  // ---- what each step does ----

  /** Calls begin and end with their steps, except that a stopped service refuses them. */
  lemma CallsExactly(s: State, step: Step)
    requires Inv(s) && Enabled(s, step)
    ensures Apply(s, step).behind.calls == match step
            case Call(t) => if s.stopped then s.behind.calls else s.behind.calls + multiset{t}
            case Return(t) => s.behind.calls - multiset{t}
            case _ => s.behind.calls
    ensures Apply(s, step).refs == match step
            case Call(_) => if s.stopped then 0 else s.refs + 1
            case Return(_) => if s.refs > 0 then s.refs - 1 else 0
            case Abort(_, _) => 0
            case _ => s.refs
  {
  }

  /** The first stop, or abort with a stop, wins; the service has stopped when a thread that waits at the end
      finds no reference. */
  lemma StopsExactly(s: State, step: Step)
    requires Inv(s) && Enabled(s, step)
    ensures Apply(s, step).stopping ==
            if s.stopping == 0 && (step.BeginStop? || (step.Abort? && step.stop)) then step.t else s.stopping
    ensures Apply(s, step).stopped <==> s.stopped || (step.WaitEnd? && s.refs == 0)
  {
  }

  /** Where a thread in stop() goes: only the winner tears down, an idle stop waits twice, and each wait goes on
      while there are references. */
  lemma StopperMoves(s: State, step: Step)
    requires Inv(s) && Enabled(s, step)
    ensures var stoppers, next := s.behind.stoppers, Apply(s, step).behind.stoppers;
            match step
            case BeginStop(t, idle) =>
              next == stoppers[t := if s.stopping == 0 then Tearing(idle) else if idle then Idling else Ending]
            case TornDown(t) => next == stoppers[t := if stoppers[t].idle then Idling else Ending]
            case WaitIdle(t) => next == if s.refs == 0 then stoppers[t := Ending] else stoppers
            case WaitEnd(t) => next == if s.refs == 0 then stoppers - {t} else stoppers
            case _ => next == stoppers
  {
  }

  lemma StopperSleeps(s: State, step: Step)
    requires Inv(s) && Enabled(s, step) && (step.WaitIdle? || step.WaitEnd?)
    ensures Apply(s, step).statcond.Asleep(step.t) <==> s.refs != 0
  {
    var c := s.statcond.Resume(step.t);
    ResumeSound(s.statcond, step.t);
    SleepersExactly(c, step.t, step.t, None);
    match step
    case WaitIdle(t) => assert WaitIdleStep(s, t).statcond == if s.refs != 0 then c.Enter(t) else c;
    case WaitEnd(t) => assert WaitEndStep(s, t).statcond == if s.refs != 0 then c.Enter(t) else c;
  }

  // ---- runs ----

  /** What threads can do from a state. */
  predicate IsRunFrom(s: State, states: seq<State>, steps: seq<Step>) {
    && |states| == |steps| + 1
    && states[0] == s
    && forall i :: 0 <= i < |steps| ==> Enabled(states[i], steps[i]) && states[i + 1] == Apply(states[i], steps[i])
  }

  predicate IsRun(states: seq<State>, steps: seq<Step>) {
    IsRunFrom(START, states, steps)
  }

  lemma {:induction false} RunFromKeeps(s: State, states: seq<State>, steps: seq<Step>, n: nat)
    requires Inv(s) && IsRunFrom(s, states, steps) && n < |states|
    ensures Inv(states[n])
  {
    if n > 0 {
      RunFromKeeps(s, states, steps, n - 1);
      StepKeeps(states[n - 1], steps[n - 1]);
    }
  }

  lemma RunKeeps(states: seq<State>, steps: seq<Step>, n: nat)
    requires IsRun(states, steps) && n < |states|
    ensures Inv(states[n])
  {
    RunFromKeeps(START, states, steps, n);
  }

  /** Once stopped a service stays stopped and has no references. */
  lemma {:induction false} StoppedForGood(states: seq<State>, steps: seq<Step>, i: nat, n: nat)
    requires IsRun(states, steps) && i <= n < |states| && states[i].stopped
    ensures states[n].stopped && states[n].refs == 0
  {
    RunKeeps(states, steps, n);
    if i < n {
      StoppedForGood(states, steps, i, n - 1);
      StepStaysStopped(states[n - 1], steps[n - 1]);
    }
  }

  /** References are never negative and never more than the calls in progress. */
  lemma ReferencesAreCalls(states: seq<State>, steps: seq<Step>, n: nat)
    requires IsRun(states, steps) && n < |states|
    ensures 0 <= states[n].refs <= |states[n].behind.calls|
  {
    RunKeeps(states, steps, n);
  }

  // ---- aborts ----

  /** An abort drops what references there are. */
  predicate DropsNothing(s: State, step: Step) {
    step.Abort? ==> s.refs == 0
  }

  ghost predicate NeverDrops(states: seq<State>, steps: seq<Step>)
    requires |states| == |steps| + 1
  {
    forall i :: 0 <= i < |steps| ==> DropsNothing(states[i], steps[i])
  }

  lemma {:induction false} NothingDropped(s: State, states: seq<State>, steps: seq<Step>, n: nat)
    requires IsRunFrom(s, states, steps) && n < |states| && NeverDrops(states, steps)
    ensures states[n].behind.dropped == s.behind.dropped
  {
    if n > 0 {
      NothingDropped(s, states, steps, n - 1);
      assert DropsNothing(states[n - 1], steps[n - 1]);
    }
  }

  /** While no abort has dropped a reference, references are exactly the calls in progress and none is
      left once the service has stopped. */
  lemma NoCallsOnceStopped(states: seq<State>, steps: seq<Step>, n: nat)
    requires IsRun(states, steps) && n < |states| && NeverDrops(states, steps)
    ensures states[n].refs == |states[n].behind.calls|
    ensures states[n].stopped ==> states[n].behind.calls == multiset{}
  {
    RunKeeps(states, steps, n);
    NothingDropped(START, states, steps, n);
  }

  /** The service stops under calls that are still in progress. */
  predicate StopsUnderCalls(s: State) {
    s.stopped && s.behind.calls != multiset{}
  }

  /** From every state that can be reached with a reference, whatever aborts came before, an abort can be
      followed by a stop under the very calls that are in progress now. */
  lemma AbortStrandsCalls(s: State, v: int, stop: bool) returns (states: seq<State>, steps: seq<Step>)
    requires Inv(s) && s.refs > 0 && v > 0
    ensures IsRunFrom(AbortStep(s, v, stop), states, steps) && NeverDrops(states, steps)
    ensures var last := states[|states| - 1]; StopsUnderCalls(last) && last.behind.calls == s.behind.calls
  {
    var t := FreshThread(s.behind.stoppers.Keys);
    var s1 := AbortStep(s, v, stop);
    AbortKeeps(s, v, stop);
    var s2 := Apply(s1, BeginStop(t, false));
    StepKeeps(s1, BeginStop(t, false));
    var s3 := Apply(s2, TornDown(t));
    var s4 := Apply(s3, WaitEnd(t));
    if s2.behind.stoppers[t].Tearing? {
      states, steps := [s1, s2, s3, s4], [BeginStop(t, false), TornDown(t), WaitEnd(t)];
    } else {
      states, steps := [s1, s2, s4], [BeginStop(t, false), WaitEnd(t)];
    }
    assert |s.behind.calls| > 0;
  }

  /** Whatever follows the abort, short of another abort that drops references, the service does not stop
      under calls. */
  ghost predicate Harmless(s: State, v: int, stop: bool) {
    forall states, steps ::
      IsRunFrom(AbortStep(s, v, stop), states, steps) && NeverDrops(states, steps) ==>
        !StopsUnderCalls(states[|states| - 1])
  }

  /** In a run in which no abort has dropped a reference, the next abort is harmless if and only if it finds
      no reference. */
  lemma AbortHarmlessExactly(states: seq<State>, steps: seq<Step>, v: int, stop: bool)
    requires IsRun(states, steps) && NeverDrops(states, steps) && v > 0
    ensures var s := states[|states| - 1]; Harmless(s, v, stop) <==> s.refs == 0
  {
    var s := states[|states| - 1];
    RunKeeps(states, steps, |states| - 1);
    if s.refs == 0 {
      NothingDropped(START, states, steps, |states| - 1);
      AbortKeeps(s, v, stop);
      forall later, more | IsRunFrom(AbortStep(s, v, stop), later, more) && NeverDrops(later, more)
        ensures !StopsUnderCalls(later[|later| - 1])
      {
        RunFromKeeps(AbortStep(s, v, stop), later, more, |later| - 1);
        NothingDropped(AbortStep(s, v, stop), later, more, |later| - 1);
      }
    } else {
      var later, more := AbortStrandsCalls(s, v, stop);
    }
  }

  /** At most one thread ever wins the stop. */
  lemma StopWonOnce(states: seq<State>, steps: seq<Step>, n: nat)
    requires IsRun(states, steps) && n < |states|
    ensures |states[n].behind.winners| <= 1
    ensures states[n].stopping != 0 <==> states[n].behind.winners == [states[n].stopping]
  {
    RunKeeps(states, steps, n);
  }

  /** A thread asleep in stop() has references to wait for. */
  lemma StoppersAreWoken(states: seq<State>, steps: seq<Step>, n: nat, t: int)
    requires IsRun(states, steps) && n < |states| && states[n].statcond.Asleep(t)
    ensures states[n].refs > 0 && t in states[n].behind.stoppers
  {
    RunKeeps(states, steps, n);
  }

  /** After an abort a return can also give back the reference of a later call, so that the service stops
      under a call that began after the abort. */
  lemma AbortLosesCall(t: int, u: int, v: int)
    requires v > 0
    ensures exists states: seq<State>, steps: seq<Step> ::
      && IsRun(states, steps) && |states| > 0
      && states[|states| - 1].stopped && states[|states| - 1].behind.calls == multiset{u}
  {
    var steps := [Call(t), Abort(v, false), Call(u), Return(t), BeginStop(v, false), TornDown(v), WaitEnd(v)];
    var s1 := Apply(START, Call(t));
    var s2 := Apply(s1, Abort(v, false));
    var s3 := Apply(s2, Call(u));
    var s4 := Apply(s3, Return(t));
    var s5 := Apply(s4, BeginStop(v, false));
    var s6 := Apply(s5, TornDown(v));
    var s7 := Apply(s6, WaitEnd(v));
    assert IsRun([START, s1, s2, s3, s4, s5, s6, s7], steps);
  }
}
