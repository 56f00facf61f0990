/** The service object: the reference block of a call, deref, the stop and the abort take steps of the call
    machine, and the resource methods steps of the resource machine. */
module ServiceClass {
  import opened Orders
  import opened Conditions
  import C = ServiceCalls
  import R = ServiceResources

  datatype Answer = Fine | ServiceStopped | NoSuchResource | DuplicateResource

  class CoreService {
    var refs: int
    var statcond: Condition
    var stopping: int
    var stopped: bool
    var rsc: seq<R.Resource>

    ghost var behind: C.Behind
    ghost var drainers: set<int>
    ghost var taken: map<int, int>
    ghost var known: set<int>
    ghost var stops: multiset<int>

    ghost function Calls(): C.State
      reads `refs, `statcond, `stopping, `stopped, `behind
    {
      C.State(refs, statcond, stopping, stopped, behind)
    }

    ghost function Resources(): R.State
      reads `rsc, `drainers, `taken, `known, `stops
    {
      R.State(rsc, drainers, taken, known, stops)
    }

    constructor ()
      ensures Calls() == C.START && Resources() == R.START
    {
      refs, statcond, stopping, stopped, rsc := 0, NOBODY, 0, false, [];
      behind := C.START.behind;
      drainers, taken, known, stops := {}, map[], {}, multiset{};
    }

    /** The reference block of callMethod, and the same in ref and startService. */
    method Ref(t: int) returns (answer: Answer)
      modifies `refs, `behind
      ensures Calls() == C.CallStep(old(Calls()), t)
      ensures answer == if stopped then ServiceStopped else Fine
    {
      if stopped {
        return ServiceStopped;
      }
      refs := refs + 1;
      behind := behind.(calls := behind.calls + multiset{t});
      return Fine;
    }

    method Deref(t: int) returns (last: bool)
      modifies `refs, `statcond, `behind
      ensures Calls() == C.ReturnStep(old(Calls()), t)
      ensures last <==> refs == 0
    {
      behind := behind.(calls := behind.calls - multiset{t}, absorbed := behind.absorbed + if refs == 0 then 1 else 0);
      if refs == 0 {
        return true;
      }
      refs := refs - 1;
      if refs == 0 {
        if statcond.waiting != 0 {
          statcond := statcond.Broadcast();
        }
        return true;
      }
      return false;
    }

    method StopNowIntern(t: int) returns (first: bool)
      requires t > 0
      modifies `stopping, `behind
      ensures Calls() == C.StopNow(old(Calls()), t)
      ensures first <==> old(stopping) == 0
    {
      if stopping == 0 {
        behind := behind.(winners := behind.winners + [t]);
        stopping := t;
        return true;
      }
      return false;
    }

    method DropReferences()
      modifies `refs, `statcond, `behind
      ensures Calls() == C.DropReferences(old(Calls()))
    {
      behind := behind.(dropped := behind.dropped + refs);
      refs := 0;
      if statcond.waiting != 0 {
        statcond := statcond.Broadcast();
      }
    }

    /** True if the service is already stopping; without `stop` its resources are stopped here. */
    method Aborted(t: int, stop: bool, schedule: seq<Option<R.Step>>) returns (already: bool, ghost steps: seq<R.Step>)
      requires t > 0 && t !in taken && t !in drainers && R.Fits(R.StartDrainStep(Resources(), t), t, schedule)
      modifies `refs, `statcond, `stopping, `behind, `rsc, `drainers, `taken, `known, `stops
      ensures Calls() == C.AbortStep(old(Calls()), t, stop)
      ensures already <==> stop && old(stopping) != 0
      ensures stop ==> Resources() == old(Resources())
      ensures !stop ==> rsc == [] && t !in taken && t !in drainers && R.IsDrain(steps, t, schedule)
      ensures R.After(old(Resources()), steps) == Some(Resources())
    {
      DropReferences();
      if stop {
        var first := StopNowIntern(t);
        return !first, [];
      }
      steps := StopAllResources(t, schedule);
      return false, steps;
    }

    /** A turn of either wait in stop(): true when there are no references left. */
    method Wait(t: int) returns (idle: bool)
      modifies `statcond
      ensures idle <==> refs == 0
      ensures statcond == if refs == 0 then old(statcond).Resume(t) else old(statcond).Resume(t).Enter(t)
    {
      statcond := statcond.Resume(t);
      if refs != 0 {
        statcond := statcond.Enter(t);
      }
      return refs == 0;
    }

    /** The wait of an idle stop. */
    method WaitIdle(t: int) returns (idle: bool)
      modifies `statcond, `behind
      ensures Calls() == C.WaitIdleStep(old(Calls()), t) && (idle <==> refs == 0)
    {
      idle := Wait(t);
      if idle {
        behind := behind.(stoppers := behind.stoppers[t := C.Ending]);
      }
    }

    /** The wait on the way out of stop(), after which no call can be made. */
    method WaitEnd(t: int) returns (done: bool)
      modifies `statcond, `stopped, `behind
      ensures Calls() == C.WaitEndStep(old(Calls()), t) && (done <==> refs == 0)
    {
      done := Wait(t);
      if done {
        stopped, behind := true, behind.(stoppers := behind.stoppers - {t});
      }
    }

    /** The start of stop(): the winner, and nobody else, goes on to tear the service down. */
    method BeginStop(t: int, idle: bool) returns (tearsDown: bool)
      requires t > 0
      modifies `stopping, `behind
      ensures Calls() == C.BeginStopStep(old(Calls()), t, idle)
      ensures tearsDown <==> old(stopping) == 0
    {
      tearsDown := StopNowIntern(t);
      behind := behind.(stoppers := behind.stoppers[t := if tearsDown then C.Tearing(idle) else C.AfterTeardown(idle)]);
    }

    method AddResource(tag: string, id: int) returns (answer: Answer)
      requires id !in known
      modifies `rsc, `known, `stops
      ensures Resources() == R.AddStep(old(Resources()), tag, id)
      ensures answer == if R.Has(old(rsc), tag) then DuplicateResource else Fine
    {
      known := known + {id};
      if R.Has(rsc, tag) {
        StopResource(id);
        return DuplicateResource;
      }
      rsc := rsc + [R.Resource(tag, id)];
      return Fine;
    }

    /** The call of a resource's own stop method. */
    method StopResource(ghost id: int)
      modifies `stops
      ensures stops == old(stops) + multiset{id}
    {
      stops := stops + multiset{id};
    }

    /** removeResource up to the end of its lock. */
    method Unregister(t: int, tag: string) returns (found: bool)
      requires t !in taken
      modifies `rsc, `taken
      ensures found == R.Has(old(rsc), tag)
      ensures Resources() == R.RemoveStep(old(Resources()), t, tag)
    {
      if R.Has(rsc, tag) {
        taken := taken[t := R.IdOf(rsc, tag)];
        rsc := R.Without(rsc, tag);
        return true;
      }
      return false;
    }

    /** The resource leaves the hash and is stopped; in between other threads do as the schedule says. */
    method RemoveResource(t: int, tag: string, schedule: seq<Option<R.Step>>)
      returns (answer: Answer, ghost steps: seq<R.Step>)
      requires t !in taken && (R.Has(rsc, tag) ==> R.Fits(R.RemoveStep(Resources(), t, tag), t, schedule))
      modifies `rsc, `drainers, `taken, `known, `stops
      ensures answer == if R.Has(old(rsc), tag) then Fine else NoSuchResource
      ensures answer.NoSuchResource? ==> Resources() == old(Resources())
      ensures answer.Fine? ==> t !in taken && R.IsRemoval(steps, t, tag, schedule)
      ensures answer.Fine? ==> R.After(old(Resources()), steps) == Some(Resources())
    {
      var found := Unregister(t, tag);
      if !found {
        return NoSuchResource, [];
      }
      steps := [R.Remove(t, tag)];
      assert R.After(old(Resources()), steps[..0]) == Some(old(Resources()));
      var rest;
      rest, steps := Others(t, schedule, old(Resources()), steps);
      R.OneMore(old(Resources()), steps, R.StopTaken(t));
      steps := steps + [R.StopTaken(t)];
      StopTaken(t);
      return Fine, steps;
    }

    /** What a thread has taken out is stopped without the lock. */
    method StopTaken(t: int)
      requires t in taken
      modifies `taken, `stops
      ensures Resources() == R.StopTakenStep(old(Resources()), t)
    {
      StopResource(taken[t]);
      taken := taken - {t};
    }

    /** The locked part of a turn of the draining loop. */
    method TakeFirst(t: int) returns (found: bool)
      requires t !in taken
      modifies `rsc, `drainers, `taken
      ensures found == (old(rsc) != []) && Resources() == R.TakeFirstStep(old(Resources()), t)
    {
      if rsc == [] {
        drainers := drainers - {t};
        return false;
      }
      rsc, taken := rsc[1..], taken[t := rsc[0].id];
      return true;
    }

    /** A step of any thread. */
    method Perform(step: R.Step)
      requires R.Enabled(Resources(), step)
      modifies `rsc, `drainers, `taken, `known, `stops
      ensures Resources() == R.Apply(old(Resources()), step)
    {
      match step {
        case Add(tag, id) => var _ := AddResource(tag, id);
        case Remove(t, tag) => var _ := Unregister(t, tag);
        case StartDrain(t) => drainers := drainers + {t};
        case TakeFirst(t) => var _ := TakeFirst(t);
        case StopTaken(t) => StopTaken(t);
      }
    }

    /** The mutex is free: other threads take their steps until the draining thread `t` goes on. */
    method Others(t: int, schedule: seq<Option<R.Step>>, ghost start: R.State, ghost before: seq<R.Step>)
      returns (rest: seq<Option<R.Step>>, ghost steps: seq<R.Step>)
      requires R.Fits(Resources(), t, schedule) && R.After(start, before) == Some(Resources())
      modifies `rsc, `drainers, `taken, `known, `stops
      ensures R.After(start, steps) == Some(Resources())
      ensures R.Fits(R.DrainStep(Resources(), t), t, rest)
      ensures (t in taken <==> t in old(taken)) && (t in drainers <==> t in old(drainers))
      ensures if schedule == [] then rest == [] && rsc == old(rsc) else |rest| < |schedule|
      ensures forall o :: o in rest ==> o in schedule
      ensures before <= steps
      ensures forall step :: step in steps[|before|..] ==> !R.IsBy(step, t) && Some(step) in schedule
    {
      rest, steps := schedule, before;
      while rest != []
        invariant R.Fits(Resources(), t, rest) && R.After(start, steps) == Some(Resources())
        invariant (t in taken <==> t in old(taken)) && (t in drainers <==> t in old(drainers))
        invariant |rest| <= |schedule| && (rest == schedule ==> rsc == old(rsc))
        invariant forall o :: o in rest ==> o in schedule
        invariant before <= steps
        invariant forall step :: step in steps[|before|..] ==> !R.IsBy(step, t) && Some(step) in schedule
        decreases |rest|
      {
        var next := rest[0];
        rest := rest[1..];
        if next.None? {
          return;
        }
        R.OneMore(start, steps, next.value);
        Perform(next.value);
        steps := steps + [next.value];
      }
    }

    /** The first resource of the hash is taken out and stopped until there is none, while other threads add,
        remove and drain as the schedule says. */
    method StopAllResources(t: int, schedule: seq<Option<R.Step>>) returns (ghost steps: seq<R.Step>)
      requires t !in taken && t !in drainers && R.Fits(R.StartDrainStep(Resources(), t), t, schedule)
      modifies `rsc, `drainers, `taken, `known, `stops
      ensures rsc == [] && t !in taken && t !in drainers && R.IsDrain(steps, t, schedule)
      ensures R.After(old(Resources()), steps) == Some(Resources())
    {
      steps := [R.StartDrain(t)];
      drainers := drainers + {t};
      var rest, found := schedule, true;
      while found
        invariant t !in taken && (t in drainers <==> found)
        invariant R.After(old(Resources()), steps) == Some(Resources())
        invariant if found then R.Fits(Resources(), t, rest) else rsc == []
        invariant R.IsDrain(steps, t, schedule) && forall o :: o in rest ==> o in schedule
        decreases found, |rest|, |rsc|
      {
        rest, steps := Others(t, rest, old(Resources()), steps);
        R.OneMore(old(Resources()), steps, R.TakeFirst(t));
        steps := steps + [R.TakeFirst(t)];
        found := TakeFirst(t);
        if found {
          rest, steps := Others(t, rest, old(Resources()), steps);
          R.OneMore(old(Resources()), steps, R.StopTaken(t));
          steps := steps + [R.StopTaken(t)];
          StopTaken(t);
        }
      }
    }
  }
}
