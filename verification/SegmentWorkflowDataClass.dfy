/** The object itself: each method is what one thread does under the segment manager's lock up to its
    return or its next wait, and takes the machine's step. */
module SegmentWorkflowDataClass {
  import opened Orders
  import opened Conditions
  import opened SegmentWorkflowData

  /** deref returns whether the data can be purged, unless it fails to stop a queue. */
  datatype DerefResult = CanBePurged | StillReferenced | NoQueueToStop

  /** What becomes of a request that may have to wait; a thread that wakes may find the data deleted. */
  datatype Answer = Granted | Waiting | Deleted

  class CoreSegmentWorkflowData {
    const remote: bool
    var refs: int
    var qrefs: int
    var trefs: int
    var rcond: Condition
    var rip: bool
    var restartCond: Condition
    var restartCounter: bool
    var bcond: Condition
    var bcnt: int
    var wc: WorkflowQueue
    ghost var held: Held

    ghost function Abs(): State
      reads this
    {
      State(remote, refs, qrefs, trefs, rcond, rip, restartCond, restartCounter, bcond, bcnt, wc, held)
    }

    constructor (remote: bool, qref: bool, temp: bool)
      requires !(qref && temp)
      ensures Abs() == Construct(remote, if qref then Queue else if temp then Temp else Plain)
    {
      this.remote := remote;
      refs := 1;
      qrefs := if qref then 1 else 0;
      trefs := if temp && !qref then 1 else 0;
      rcond, restartCond, bcond, rip, restartCounter, bcnt := NOBODY, NOBODY, NOBODY, false, false, 0;
      wc := if qref then Running else if temp then Absent else Idle;
      held := Held(multiset{if qref then Queue else if temp then Temp else Plain}, 0, None, {}, false);
    }

    method Ref(ghost h: Handle, qref: bool, temp: bool) returns (rc: int)
      requires h != Hold && qref == (h == Queue) && temp == (h == Temp) && FindsQueue(Abs(), h)
      modifies this
      ensures Abs() == RefStep(old(Abs()), h) && rc == refs == old(refs) + 1
    {
      var noQueue := refs == trefs;
      if temp {
        trefs := trefs + 1;
      }
      refs := refs + 1;
      if noQueue && refs > trefs {
        wc := Idle;
      }
      if qref {
        qrefs := qrefs + 1;
        if qrefs == 1 {
          wc := Running;
        }
      }
      held := held.(handles := held.handles + multiset{h}, halted := held.halted && !(qref && qrefs == 1));
      return refs;
    }

    /** Whoever waits for the data to go may go on, or a restart may be on its own. */
    method WakeRestart(canpurge: bool, pick: Option<int>)
      modifies `restartCounter, `restartCond
      ensures restartCounter == (old(restartCounter) && !canpurge)
      ensures restartCond ==
        if !canpurge && old(restartCond).waiting != 0 && LastReference(refs, qrefs, trefs) && pick.Some?
        then old(restartCond).Signal(pick.value) else old(restartCond)
    {
      if canpurge {
        restartCounter := false;
      } else if restartCond.waiting != 0 && qrefs == 1 && refs == trefs + 1 {
        if pick.Some? {
          restartCond := restartCond.Signal(pick.value);
        }
      }
    }

    method Deref(ghost h: Handle, qref: bool, temp: bool, pick: Option<int>) returns (r: DerefResult)
      requires qref == (h == Queue) && temp == (h == Temp)
      requires refs > 0 && (qref ==> qrefs > 0 && !wc.Absent?)
      modifies `refs, `qrefs, `trefs, `restartCounter, `restartCond, `wc, `held
      ensures Abs() == DerefStep(old(Abs()), h, pick)
      ensures r == if StopsMissingQueue(old(Abs()), h) then NoQueueToStop
                   else if CanPurge(old(Abs()), h) then CanBePurged else StillReferenced
    {
      held := held.(handles := held.handles - multiset{h});
      var canpurge := false;
      if qref {
        qrefs := qrefs - 1;
        if qrefs == 0 {
          wc := Idle;
          canpurge := true;
        }
      }
      if temp {
        trefs := trefs - 1;
      }
      refs := refs - 1;
      if refs == 0 && !canpurge {
        canpurge := true;
      }
      WakeRestart(canpurge, pick);
      if refs != 0 && trefs == refs {
        if wc.Absent? {
          return NoQueueToStop;
        }
        wc := Idle;
      }
      return if canpurge then CanBePurged else StillReferenced;
    }

    /** The loop of startReset as far as it gets. */
    method StartReset(t: int, deleted: bool) returns (answer: Answer)
      requires !remote && !(t in bcond.inside && t in rcond.inside)
      requires deleted ==> t in bcond.inside || t in rcond.inside
      modifies `rcond, `bcond, `rip, `held
      ensures answer.Deleted? <==> deleted
      ensures Abs() == if deleted then old(Abs()) else StartResetStep(old(Abs()), t)
      ensures !deleted ==> (answer.Granted? <==> t !in rcond.inside && t !in bcond.inside)
    {
      if t in rcond.inside {
        var a := WaitReset(t, deleted);
        if !a.Granted? {
          return a;
        }
      } else if t in bcond.inside {
        if deleted {
          return Deleted;
        }
        bcond := bcond.Resume(t);
      }
      if bcnt == 0 && !rip {
        rip, held := true, held.(resetter := Some(t));
        return Granted;
      }
      if bcnt != 0 {
        bcond := bcond.Enter(t);
      } else {
        rcond := rcond.Enter(t);
      }
      return Waiting;
    }

    /** The loop of waitReset as far as it gets. */
    method WaitReset(t: int, deleted: bool) returns (answer: Answer)
      requires deleted ==> t in rcond.inside
      modifies `rcond
      ensures answer == if deleted then Deleted else if rip then Waiting else Granted
      ensures rcond == if deleted then old(rcond)
                       else if rip then old(rcond).Resume(t).Enter(t) else old(rcond).Resume(t)
    {
      if deleted {
        return Deleted;
      }
      rcond := rcond.Resume(t);
      if rip {
        rcond := rcond.Enter(t);
        return Waiting;
      }
      return Granted;
    }

    /** reset, for a workflow that is replaced: the queue goes and comes back. */
    method Reset()
      requires !remote && (refs > trefs ==> !wc.Absent?) && (qrefs > 0 ==> refs > trefs)
      modifies `wc, `held
      ensures Abs() == ResetStep(old(Abs()))
    {
      if refs > trefs {
        wc := Absent;
      }
      if refs > trefs {
        wc := Idle;
      }
      if qrefs != 0 {
        wc, held := Running, held.(halted := false);
      }
    }

    method EndReset()
      modifies `rcond, `rip, `held
      ensures Abs() == EndResetStep(old(Abs()))
    {
      if rcond.waiting != 0 {
        rcond := rcond.Broadcast();
      }
      rip, held := false, held.(resetter := None);
    }

    method BlockRef(t: int, deleted: bool) returns (answer: Answer)
      requires deleted ==> t in rcond.inside
      modifies `rcond, `refs, `bcnt, `held
      ensures answer == if deleted then Deleted else if rip then Waiting else Granted
      ensures Abs() == if deleted then old(Abs()) else BlockStep(old(Abs()), t, true)
    {
      answer := WaitReset(t, deleted);
      if answer.Granted? {
        refs, bcnt := refs + 1, bcnt + 1;
        held := held.(handles := held.handles + multiset{Hold}, blocks := held.blocks + 1);
      }
    }

    method BlockForDelete(t: int, deleted: bool) returns (answer: Answer)
      requires deleted ==> t in rcond.inside
      modifies `rcond, `bcnt, `held
      ensures answer == if deleted then Deleted else if rip then Waiting else Granted
      ensures Abs() == if deleted then old(Abs()) else BlockStep(old(Abs()), t, false)
    {
      answer := WaitReset(t, deleted);
      if answer.Granted? {
        bcnt, held := bcnt + 1, held.(blocks := held.blocks + 1);
      }
    }

    method BlockDeref()
      modifies `bcnt, `bcond, `held
      ensures Abs() == BlockDerefStep(old(Abs()))
    {
      bcnt, held := bcnt - 1, held.(blocks := held.blocks - 1);
      if bcnt == 0 && bcond.waiting != 0 {
        bcond := bcond.Broadcast();
      }
    }

    /** The loop of derefWaitRestart as far as it gets; true when the restart may go on. */
    method DerefWaitRestart(t: int) returns (ok: bool)
      requires remote
      modifies `refs, `qrefs, `restartCounter, `restartCond, `bcond, `wc, `held
      ensures Abs() == DerefWaitRestartStep(old(Abs()), t)
      ensures ok <==> old(Restartable(Abs()))
    {
      bcond, restartCond := bcond.Resume(t), restartCond.Resume(t);
      if bcnt != 0 {
        bcond, held := bcond.Enter(t), held.(restarters := held.restarters + {t});
        return false;
      }
      if qrefs != 1 || refs != trefs + 1 {
        restartCond, held := restartCond.Enter(t), held.(restarters := held.restarters + {t});
        return false;
      }
      held := held.(restarters := held.restarters - {t}, handles := held.handles - multiset{Queue});
      qrefs, refs := qrefs - 1, refs - 1;
      restartCounter, wc := false, Absent;
      return true;
    }

    /** canDelete: nobody holds a reference or a block. */
    method CanBeDeleted() returns (b: bool)
      requires Inv(Abs())
      ensures b <==> held.handles == multiset{} && held.blocks == 0
    {
      assert |held.handles| == 0 <==> held.handles == multiset{};
      return refs == 0 && bcnt == 0;
    }

    method StartStopWorkflow()
      requires !restartCounter && !wc.Absent?
      modifies `wc, `restartCounter, `held
      ensures Abs() == Apply(old(Abs()), Step.StartStop)
    {
      wc, restartCounter, held := Idle, true, held.(halted := true);
    }
  }
}
