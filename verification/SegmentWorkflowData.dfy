/** AbstractCoreSegmentWorkflowData as a machine: the segment manager's lock is held through a step,
    and a wait on a condition variable ends one step and starts another. */
module SegmentWorkflowData {
  import opened Orders
  import opened Conditions

  /** A reference is a queue reference, a temporary one, the one of a manual block, or none of these. */
  datatype Handle = Plain | Queue | Temp | Hold

  /** WC, and whether it was last told to start. */
  datatype WorkflowQueue = Absent | Idle | Running {
    function Stop(): WorkflowQueue {
      if Absent? then Absent else Idle
    }
  }

  /** Who holds references, blocks and the reset, which threads are restarting, and whether
      startStopWorkflow has stopped the queue since it last started. */
  datatype Held = Held(
    handles: multiset<Handle>, blocks: int, resetter: Option<int>, restarters: set<int>, halted: bool)

  /** The fields of the object and what is behind them. */
  datatype State = State(
    remote: bool,
    refs: int, qrefs: int, trefs: int,
    rcond: Condition, rip: bool, restartCond: Condition, rc: bool, bcond: Condition, bcnt: int,
    wc: WorkflowQueue, held: Held)

  function Construct(remote: bool, h: Handle): State
    requires h != Hold
  {
    State(remote, 1, if h == Queue then 1 else 0, if h == Temp then 1 else 0,
          NOBODY, false, NOBODY, false, NOBODY, 0,
          if h == Queue then Running else if h == Temp then Absent else Idle,
          Held(multiset{h}, 0, None, {}, false))
  }

  /** What a restart waits for apart from blocks: its queue reference is the last one that is not temporary. */
  predicate LastReference(refs: int, qrefs: int, trefs: int) {
    qrefs == 1 && refs == trefs + 1
  }

  datatype Step =
    | Ref(h: Handle)
    | Deref(h: Handle, pick: Option<int>)
    | StartReset(t: int)
    | Reset(t: int)
    | EndReset(t: int)
    | Block(t: int, reference: bool)
    | BlockDeref
    | DerefWaitRestart(t: int)
    | StartStop
    | SignalRestart
    | Spurious(t: int)

  /** The assertion of ref: a queue reference finds a queue to start. */
  predicate FindsQueue(s: State, h: Handle) {
    h == Queue && s.qrefs == 0 ==> !s.wc.Absent? || s.refs == s.trefs
  }

  /** References, blocks and the reset are released by those that hold them, a restarting thread keeps
      its queue reference while it waits, and the assertions of the code hold. */
  ghost predicate Enabled(s: State, step: Step) {
    match step
    case Ref(h) => h != Hold && FindsQueue(s, h)
    case Deref(h, pick) =>
      s.held.handles[h] > (if h == Queue then |s.held.restarters| else 0) && s.restartCond.CanPick(pick)
    case StartReset(t) =>
      && !s.remote && t !in s.held.restarters
      && s.bcond.CanRun(t) && s.rcond.CanRun(t) && !(t in s.bcond.inside && t in s.rcond.inside)
    case Reset(t) => s.held.resetter == Some(t) && (s.refs > s.trefs ==> !s.wc.Absent?)
    case EndReset(t) => s.held.resetter == Some(t)
    case Block(t, _) => t !in s.bcond.inside && s.rcond.CanRun(t)
    case BlockDeref => s.held.blocks > 0
    case DerefWaitRestart(t) =>
      && s.remote && s.bcond.CanRun(t) && s.restartCond.CanRun(t)
      && !(t in s.bcond.inside && t in s.restartCond.inside)
      && if t in s.held.restarters then t in s.bcond.inside || t in s.restartCond.inside
         else t !in s.bcond.inside && s.held.handles[Queue] > |s.held.restarters|
    case StartStop => !s.rc && !s.wc.Absent?
    case SignalRestart => true
    case Spurious(_) => true
  }

  // ---- references ----

  function RefStep(s: State, h: Handle): State {
    var trefs := if h == Temp then s.trefs + 1 else s.trefs;
    var creates := s.refs == s.trefs && s.refs + 1 > trefs;
    var starts := h == Queue && s.qrefs == 0;
    s.(refs := s.refs + 1, trefs := trefs, qrefs := if h == Queue then s.qrefs + 1 else s.qrefs,
       wc := if starts then Running else if creates then Idle else s.wc,
       held := s.held.(handles := s.held.handles + multiset{h}, halted := s.held.halted && !starts))
  }

  /** `canpurge`: the last queue reference or the last reference goes. */
  predicate CanPurge(s: State, h: Handle) {
    (h == Queue && s.qrefs == 1) || s.refs == 1
  }

  function DerefStep(s: State, h: Handle, pick: Option<int>): State {
    var refs := s.refs - 1;
    var qrefs := if h == Queue then s.qrefs - 1 else s.qrefs;
    var trefs := if h == Temp then s.trefs - 1 else s.trefs;
    var signals := !CanPurge(s, h) && s.restartCond.waiting != 0 && LastReference(refs, qrefs, trefs) && pick.Some?;
    s.(refs := refs, qrefs := qrefs, trefs := trefs,
       rc := s.rc && !CanPurge(s, h),
       restartCond := if signals then s.restartCond.Signal(pick.value) else s.restartCond,
       wc := if (h == Queue && qrefs == 0) || (refs != 0 && trefs == refs) then s.wc.Stop() else s.wc,
       held := s.held.(handles := s.held.handles - multiset{h}))
  }

  /** Only temporary references would remain, and deref stops a queue that does not exist. */
  predicate StopsMissingQueue(s: State, h: Handle) {
    s.wc.Absent? && s.refs != 1 && s.refs - 1 == if h == Temp then s.trefs - 1 else s.trefs
  }

  // ---- reset and blocks ----

  /** A thread on entry or on waking takes the reset, or waits for the blocks or for the other reset;
      one woken from the latter looks at the reset first. */
  function StartResetStep(s: State, t: int): State {
    var rcond, bcond := s.rcond.Resume(t), s.bcond.Resume(t);
    if t in s.rcond.inside && s.rip then s.(rcond := rcond.Enter(t))
    else if s.bcnt == 0 && !s.rip then
      s.(rcond := rcond, bcond := bcond, rip := true, held := s.held.(resetter := Some(t)))
    else if s.bcnt != 0 then s.(rcond := rcond, bcond := bcond.Enter(t))
    else s.(rcond := rcond.Enter(t), bcond := bcond)
  }

  /** The queue of a workflow with references is replaced, and started again for queue references. */
  function ResetStep(s: State): State {
    s.(wc := if s.qrefs != 0 then Running else if s.refs > s.trefs then Idle else s.wc,
       held := s.held.(halted := s.held.halted && s.qrefs == 0))
  }

  function EndResetStep(s: State): State {
    s.(rcond := s.rcond.Broadcast(), rip := false, held := s.held.(resetter := None))
  }

  /** blockRef and blockForDelete: wait for the end of a reset, then block. */
  function BlockStep(s: State, t: int, reference: bool): State {
    var rcond := s.rcond.Resume(t);
    if s.rip then s.(rcond := rcond.Enter(t))
    else s.(rcond := rcond, bcnt := s.bcnt + 1, refs := if reference then s.refs + 1 else s.refs,
            held := s.held.(blocks := s.held.blocks + 1,
                            handles := if reference then s.held.handles + multiset{Hold} else s.held.handles))
  }

  function BlockDerefStep(s: State): State {
    s.(bcnt := s.bcnt - 1, bcond := if s.bcnt == 1 then s.bcond.Broadcast() else s.bcond,
       held := s.held.(blocks := s.held.blocks - 1))
  }

  // ---- restart ----

  predicate Restartable(s: State) {
    s.bcnt == 0 && LastReference(s.refs, s.qrefs, s.trefs)
  }

  /** A thread on entry or on waking restarts, or waits for the blocks or for the other references. */
  function DerefWaitRestartStep(s: State, t: int): State {
    var bcond, restartCond := s.bcond.Resume(t), s.restartCond.Resume(t);
    if s.bcnt != 0 then
      s.(bcond := bcond.Enter(t), restartCond := restartCond, held := s.held.(restarters := s.held.restarters + {t}))
    else if !LastReference(s.refs, s.qrefs, s.trefs) then
      s.(bcond := bcond, restartCond := restartCond.Enter(t), held := s.held.(restarters := s.held.restarters + {t}))
    else
      s.(bcond := bcond, restartCond := restartCond, qrefs := s.qrefs - 1, refs := s.refs - 1, rc := false,
         wc := Absent,
         held := s.held.(restarters := s.held.restarters - {t}, handles := s.held.handles - multiset{Queue}))
  }

  function Apply(s: State, step: Step): State {
    match step
    case Ref(h) => RefStep(s, h)
    case Deref(h, pick) => DerefStep(s, h, pick)
    case StartReset(t) => StartResetStep(s, t)
    case Reset(_) => ResetStep(s)
    case EndReset(_) => EndResetStep(s)
    case Block(t, reference) => BlockStep(s, t, reference)
    case BlockDeref => BlockDerefStep(s)
    case DerefWaitRestart(t) => DerefWaitRestartStep(s, t)
    case StartStop => s.(rc := true, wc := s.wc.Stop(), held := s.held.(halted := true))
    case SignalRestart => s.(rc := false)
    case Spurious(t) =>
      s.(rcond := s.rcond.Signal(t), bcond := s.bcond.Signal(t), restartCond := s.restartCond.Signal(t))
  }

  // ---- the invariant ----

  predicate Accounts(refs: int, qrefs: int, trefs: int, handles: multiset<Handle>) {
    refs == |handles| && qrefs == handles[Queue] && trefs == handles[Temp]
  }

  /** A reset and a manual block exclude each other, and there is at most one reset. */
  predicate Excludes(rip: bool, resetter: Option<int>, bcnt: int, blocks: int) {
    bcnt == blocks >= 0 && (rip <==> resetter.Some?) && (rip ==> bcnt == 0)
  }

  predicate Waits(s: State) {
    s.rcond.Sound() && s.bcond.Sound() && s.restartCond.Sound()
  }

  /** Nobody sleeps on a condition that has come true. */
  predicate SleepsRightly(s: State) {
    && (!s.rip ==> s.rcond.AllWoken())
    && (s.bcnt == 0 ==> s.bcond.AllWoken())
    && (LastReference(s.refs, s.qrefs, s.trefs) ==> s.restartCond.AllWoken())
  }

  /** Each restarting thread is inside one of its two waits and has a queue reference of its own. */
  predicate Restarting(forBlocks: set<int>, forReferences: set<int>, restarters: set<int>, qrefs: int) {
    && forReferences <= restarters <= forBlocks + forReferences
    && forBlocks !! forReferences
    && |restarters| <= qrefs
  }

  /** The queue runs exactly while there are queue references, unless startStopWorkflow stopped it. */
  predicate RunsForReferences(s: State) {
    && (s.wc.Running? <==> s.qrefs > 0 && !s.held.halted)
    && (s.qrefs > 0 ==> !s.wc.Absent?)
  }

  predicate Inv(s: State) {
    && Accounts(s.refs, s.qrefs, s.trefs, s.held.handles)
    && Excludes(s.rip, s.held.resetter, s.bcnt, s.held.blocks)
    && Waits(s)
    && SleepsRightly(s)
    && Restarting(s.bcond.inside, s.restartCond.inside, s.held.restarters, s.qrefs)
    && RunsForReferences(s)
  }

  lemma HandleCount(m: multiset<Handle>)
    ensures |m| == m[Plain] + m[Queue] + m[Temp] + m[Hold]
  {
    var none: multiset<Handle> := multiset{};
    var same := none[Plain := m[Plain]][Queue := m[Queue]][Temp := m[Temp]][Hold := m[Hold]];
    assert m == same by {
      forall h: Handle ensures m[h] == same[h] {
        match h case Plain => case Queue => case Temp => case Hold =>
      }
    }
  }

  // ---- each step keeps it ----

  lemma RefKeeps(s: State, h: Handle)
    requires Inv(s) && Enabled(s, Ref(h))
    ensures Inv(RefStep(s, h))
  {
    HandleCount(s.held.handles);
  }

  lemma DerefKeeps(s: State, h: Handle, pick: Option<int>)
    requires Inv(s) && Enabled(s, Deref(h, pick))
    ensures Inv(DerefStep(s, h, pick))
  {
    HandleCount(s.held.handles);
    var s' := DerefStep(s, h, pick);
    HandleCount(s'.held.handles);
    if LastReference(s'.refs, s'.qrefs, s'.trefs) {
      forall t | t in s.restartCond.inside ensures t in s'.restartCond.woken {
        if pick.Some? {
          OnlyOne(s.held.restarters, t, pick.value);
        }
      }
    }
  }

  lemma RestartingFrame(forBlocks: set<int>, forReferences: set<int>, restarters: set<int>, qrefs: int, t: int)
    requires Restarting(forBlocks, forReferences, restarters, qrefs) && t !in restarters
    ensures Restarting(forBlocks + {t}, forReferences, restarters, qrefs)
    ensures Restarting(forBlocks - {t}, forReferences, restarters, qrefs)
  {
  }

  lemma TakeResetKeeps(s: State, t: int)
    requires Inv(s) && Enabled(s, StartReset(t)) && s.bcnt == 0 && !s.rip
    ensures Inv(StartResetStep(s, t))
  {
    ResumeSound(s.rcond, t);
    ResumeSound(s.bcond, t);
  }

  lemma WaitForBlocksKeeps(s: State, t: int)
    requires Inv(s) && Enabled(s, StartReset(t)) && s.bcnt != 0
    ensures Inv(StartResetStep(s, t))
  {
    ResumeSound(s.rcond, t);
    ResumeSound(s.bcond, t);
    EnterSound(s.bcond.Resume(t), t);
    RestartingFrame(s.bcond.inside, s.restartCond.inside, s.held.restarters, s.qrefs, t);
    assert s.bcond.Resume(t).Enter(t).inside == s.bcond.inside + {t};
  }

  lemma WaitForResetKeeps(s: State, t: int)
    requires Inv(s) && Enabled(s, StartReset(t)) && s.rip
    ensures Inv(StartResetStep(s, t))
  {
    ResumeSound(s.rcond, t);
    ResumeSound(s.bcond, t);
    EnterSound(s.rcond.Resume(t), t);
    var s' := StartResetStep(s, t);
    assert s'.bcond == s.bcond.Resume(t);
  }

  lemma BlockKeeps(s: State, t: int, reference: bool)
    requires Inv(s) && Enabled(s, Block(t, reference))
    ensures Inv(BlockStep(s, t, reference))
  {
    HandleCount(s.held.handles);
  }

  lemma RestartWaitsForBlocks(s: State, t: int)
    requires Inv(s) && Enabled(s, DerefWaitRestart(t)) && s.bcnt != 0
    ensures Inv(DerefWaitRestartStep(s, t))
  {
    HandleCount(s.held.handles);
    ResumeSound(s.bcond, t);
    ResumeSound(s.restartCond, t);
    EnterSound(s.bcond.Resume(t), t);
    assert t in s.held.restarters ==> s.held.restarters + {t} == s.held.restarters;
    var s' := DerefWaitRestartStep(s, t);
    assert Restarting(s'.bcond.inside, s'.restartCond.inside, s'.held.restarters, s.qrefs);
  }

  lemma RestartWaitsForReferences(s: State, t: int)
    requires Inv(s) && Enabled(s, DerefWaitRestart(t)) && s.bcnt == 0 && !Restartable(s)
    ensures Inv(DerefWaitRestartStep(s, t))
  {
    HandleCount(s.held.handles);
    ResumeSound(s.bcond, t);
    ResumeSound(s.restartCond, t);
    EnterSound(s.restartCond.Resume(t), t);
    assert t in s.held.restarters ==> s.held.restarters + {t} == s.held.restarters;
    var s' := DerefWaitRestartStep(s, t);
    assert Restarting(s'.bcond.inside, s'.restartCond.inside, s'.held.restarters, s.qrefs);
  }

  lemma RestartKeeps(s: State, t: int)
    requires Inv(s) && Enabled(s, DerefWaitRestart(t)) && Restartable(s)
    ensures Inv(DerefWaitRestartStep(s, t))
  {
    HandleCount(s.held.handles);
    ResumeSound(s.bcond, t);
    ResumeSound(s.restartCond, t);
    forall u | u in s.held.restarters ensures u == t {
      OnlyOne(s.held.restarters + {t}, u, t);
    }
    var s' := DerefWaitRestartStep(s, t);
    assert s'.held.restarters == {};
    HandleCount(s'.held.handles);
    assert Restarting(s'.bcond.inside, s'.restartCond.inside, {}, s'.qrefs);
  }

  lemma BlockDerefKeeps(s: State)
    requires Inv(s) && Enabled(s, BlockDeref)
    ensures Inv(BlockDerefStep(s))
  {
    if s.bcond.waiting == 0 {
      assert s.bcond.inside == {};
    }
  }

  lemma EndResetKeeps(s: State, t: int)
    requires Inv(s) && Enabled(s, EndReset(t))
    ensures Inv(EndResetStep(s))
  {
    if s.rcond.waiting == 0 {
      assert s.rcond.inside == {};
    }
  }

  lemma SpuriousKeeps(s: State, t: int)
    requires Inv(s)
    ensures Inv(Apply(s, Spurious(t)))
  {
    SignalSound(s.rcond, t);
    SignalSound(s.bcond, t);
    SignalSound(s.restartCond, t);
  }

  lemma {:induction false} StepKeeps(s: State, step: Step)
    requires Inv(s) && Enabled(s, step)
    ensures Inv(Apply(s, step))
  {
    match step
    case Ref(h) => RefKeeps(s, h);
    case Deref(h, pick) => DerefKeeps(s, h, pick);
    case StartReset(t) =>
      if s.rip {
        WaitForResetKeeps(s, t);
      } else if s.bcnt == 0 {
        TakeResetKeeps(s, t);
      } else {
        WaitForBlocksKeeps(s, t);
      }
    case Block(t, reference) => BlockKeeps(s, t, reference);
    case DerefWaitRestart(t) =>
      if Restartable(s) {
        RestartKeeps(s, t);
      } else if s.bcnt != 0 {
        RestartWaitsForBlocks(s, t);
      } else {
        RestartWaitsForReferences(s, t);
      }
    case Reset(_) =>
    case EndReset(t) => EndResetKeeps(s, t);
    case BlockDeref => BlockDerefKeeps(s);
    case StartStop =>
    case SignalRestart =>
    case Spurious(t) => SpuriousKeeps(s, t);
  }

  // ---- what each step does ----

  /** The first reference is held, and nothing else; the queue runs for a queue reference and is not there for a
      temporary one. */
  lemma StartsExactly(remote: bool, h: Handle)
    requires h != Hold
    ensures var s := Construct(remote, h);
            && Inv(s) && s.held == Held(multiset{h}, 0, None, {}, false) && s.remote == remote && !s.rc
            && (s.wc.Running? <==> h == Queue) && (s.wc.Absent? <==> h == Temp)
  {
    HandleCount(multiset{h});
  }

  /** References are held from the step that takes them to the step that releases them. */
  lemma HandlesExactly(s: State, step: Step)
    requires Inv(s) && Enabled(s, step)
    ensures Apply(s, step).held.handles == match step
            case Ref(h) => s.held.handles + multiset{h}
            case Deref(h, _) => s.held.handles - multiset{h}
            case Block(_, reference) =>
              if s.held.resetter.None? && reference then s.held.handles + multiset{Hold} else s.held.handles
            case DerefWaitRestart(_) => if Alone(s) then s.held.handles - multiset{Queue} else s.held.handles
            case _ => s.held.handles
  {
    AloneIsRestartable(s);
    match step
    case StartReset(t) => assert StartResetStep(s, t).held.handles == s.held.handles;
    case DerefWaitRestart(t) => RestartOutcome(s, t);
    case _ =>
  }

  /** A block is held from the step that is granted it, while no reset is in progress, to its release. */
  lemma BlocksExactly(s: State, step: Step)
    requires Inv(s) && Enabled(s, step)
    ensures Apply(s, step).held.blocks == match step
            case Block(_, _) => if s.held.resetter.None? then s.held.blocks + 1 else s.held.blocks
            case BlockDeref => s.held.blocks - 1
            case _ => s.held.blocks
  {
    match step
    case StartReset(t) => StartResetTakes(s, t);
    case Block(t, reference) => BlockTakes(s, t, reference);
    case DerefWaitRestart(t) => RestartTakes(s, t);
    case _ =>
  }

  /** A reset is held from the step that finds neither blocks nor another reset to its end. */
  lemma ResetExactly(s: State, step: Step)
    requires Inv(s) && Enabled(s, step)
    ensures Apply(s, step).held.resetter == match step
            case StartReset(t) => if s.held.resetter.None? && s.held.blocks == 0 then Some(t) else s.held.resetter
            case EndReset(_) => None
            case _ => s.held.resetter
  {
    match step
    case StartReset(t) => StartResetTakes(s, t);
    case Block(t, reference) => BlockTakes(s, t, reference);
    case DerefWaitRestart(t) => RestartTakes(s, t);
    case _ =>
  }

  /** Some reference is not temporary. */
  predicate HasLasting(handles: multiset<Handle>) {
    Plain in handles || Queue in handles || Hold in handles
  }

  /** The queue starts with the first queue reference, is created for the first reference that is not temporary,
      stops with the last queue reference or when only temporary references are left, is replaced by a reset
      and goes with a restart. */
  lemma QueueExactly(s: State, step: Step)
    requires Inv(s) && Enabled(s, step)
    ensures var before, after := s.held.handles, Apply(s, step).held.handles;
            Apply(s, step).wc == match step
            case Ref(h) =>
              if h == Queue && Queue !in before then Running
              else if h != Temp && !HasLasting(before) then Idle else s.wc
            case Deref(h, _) =>
              if (h == Queue && Queue !in after) || (after != multiset{} && !HasLasting(after)) then
                if s.wc.Absent? then Absent else Idle
              else s.wc
            case Reset(_) => if Queue in before then Running else if HasLasting(before) then Idle else s.wc
            case DerefWaitRestart(_) => if Alone(s) then Absent else s.wc
            case StartStop => Idle
            case _ => s.wc
  {
    HandlesExactly(s, step);
    var after := Apply(s, step).held.handles;
    HandleCount(s.held.handles);
    HandleCount(after);
    AloneIsRestartable(s);
    match step
    case StartReset(t) => assert StartResetStep(s, t).wc == s.wc;
    case DerefWaitRestart(t) => RestartOutcome(s, t);
    case Deref(h, pick) => DerefStops(s, h, pick);
    case _ =>
  }

  lemma DerefStops(s: State, h: Handle, pick: Option<int>)
    requires Inv(s) && Enabled(s, Deref(h, pick))
    ensures var after := s.held.handles - multiset{h};
            DerefStep(s, h, pick).wc ==
              if (h == Queue && Queue !in after) || (after != multiset{} && !HasLasting(after)) then s.wc.Stop()
              else s.wc
  {
    var after := s.held.handles - multiset{h};
    HandleCount(s.held.handles);
    HandleCount(after);
    assert |after| == 0 <==> after == multiset{};
  }

  /** The stop counter is there from startStopWorkflow until the cached orders can be purged, or a restart. */
  lemma CounterExactly(s: State, step: Step)
    requires Inv(s) && Enabled(s, step)
    ensures var left := Apply(s, step).held.handles;
            Apply(s, step).rc == match step
            case Deref(h, _) => s.rc && !((h == Queue && Queue !in left) || left == multiset{})
            case DerefWaitRestart(_) => s.rc && !Alone(s)
            case StartStop => true
            case SignalRestart => false
            case _ => s.rc
  {
    HandlesExactly(s, step);
    AloneIsRestartable(s);
    match step
    case StartReset(t) => assert StartResetStep(s, t).rc == s.rc;
    case Deref(h, pick) => PurgesExactly(s, h, pick);
    case DerefWaitRestart(t) => assert DerefWaitRestartStep(s, t).rc == (s.rc && !Restartable(s));
    case _ =>
  }

  /** A thread that is not granted what it asks for sleeps: for blocks to go, for the reset to end, or for the other
      references to go. */
  lemma RefusedSleeps(s: State, step: Step)
    requires Inv(s) && Enabled(s, step)
    ensures var t := Apply(s, step);
            match step
            case StartReset(u) =>
              s.held.resetter.Some? || s.held.blocks > 0 ==>
                if s.held.blocks > 0 then t.bcond.Asleep(u) else t.rcond.Asleep(u)
            case Block(u, _) => s.held.resetter.Some? ==> t.rcond.Asleep(u)
            case DerefWaitRestart(u) =>
              !Alone(s) ==> if s.held.blocks > 0 then t.bcond.Asleep(u) else t.restartCond.Asleep(u)
            case _ => true
  {
    AloneIsRestartable(s);
    match step
    case StartReset(u) =>
      if s.rip || s.bcnt != 0 {
        ResetRefused(s, u);
      }
    case Block(u, reference) => SleepersExactly(s.rcond.Resume(u), u, u, None);
    case DerefWaitRestart(u) =>
      if !Restartable(s) {
        RestartRefused(s, u);
      }
    case _ =>
  }

  lemma ResetRefused(s: State, u: int)
    requires Inv(s) && Enabled(s, StartReset(u)) && !(s.bcnt == 0 && !s.rip)
    ensures var t := StartResetStep(s, u); if s.bcnt != 0 then t.bcond.Asleep(u) else t.rcond.Asleep(u)
  {
    SleepersExactly(s.rcond.Resume(u), u, u, None);
    SleepersExactly(s.bcond.Resume(u), u, u, None);
  }

  lemma RestartRefused(s: State, u: int)
    requires Inv(s) && Enabled(s, DerefWaitRestart(u)) && !Restartable(s)
    ensures var t := DerefWaitRestartStep(s, u);
            && u in t.held.restarters && if s.bcnt != 0 then t.bcond.Asleep(u) else t.restartCond.Asleep(u)
  {
    SleepersExactly(s.bcond.Resume(u), u, u, None);
    SleepersExactly(s.restartCond.Resume(u), u, u, None);
  }

  // ---- runs ----

  ghost predicate IsRun(states: seq<State>, steps: seq<Step>) {
    && |states| == |steps| + 1
    && (exists remote, h | h != Hold :: states[0] == Construct(remote, h))
    && forall i :: 0 <= i < |steps| ==> Enabled(states[i], steps[i]) && states[i + 1] == Apply(states[i], steps[i])
  }

  lemma {:induction false} RunKeeps(states: seq<State>, steps: seq<Step>, n: nat)
    requires IsRun(states, steps) && n < |states|
    ensures Inv(states[n])
  {
    if n == 0 {
      var remote, h :| h != Hold && states[0] == Construct(remote, h);
      StartsExactly(remote, h);
    } else {
      RunKeeps(states, steps, n - 1);
      StepKeeps(states[n - 1], steps[n - 1]);
    }
  }

  /** The three counters count the references held, and the queue runs while there are queue references. */
  lemma CountersCountReferences(states: seq<State>, steps: seq<Step>, n: nat)
    requires IsRun(states, steps) && n < |states|
    ensures var s := states[n];
            && s.refs == |s.held.handles| && s.qrefs == s.held.handles[Queue] && s.trefs == s.held.handles[Temp]
            && s.qrefs + s.trefs <= s.refs
            && (s.wc.Running? <==> Queue in s.held.handles && !s.held.halted)
  {
    RunKeeps(states, steps, n);
    HandleCount(states[n].held.handles);
  }

  lemma HaltsOnlyByStop(s: State, step: Step)
    requires !s.held.halted && !step.StartStop?
    ensures !Apply(s, step).held.halted
  {
    match step
    case StartReset(t) =>
    case DerefWaitRestart(t) =>
    case Block(t, reference) =>
    case _ =>
  }

  lemma {:induction false} NeverHalted(states: seq<State>, steps: seq<Step>, n: nat)
    requires IsRun(states, steps) && n < |states|
    requires forall step :: step in steps ==> !step.StartStop?
    ensures !states[n].held.halted
  {
    if n > 0 {
      NeverHalted(states, steps, n - 1);
      HaltsOnlyByStop(states[n - 1], steps[n - 1]);
    }
  }

  /** Without startStopWorkflow the queue runs exactly while there are queue references. */
  lemma RunsExactlyForReferences(states: seq<State>, steps: seq<Step>, n: nat)
    requires IsRun(states, steps) && n < |states|
    requires forall step :: step in steps ==> !step.StartStop?
    ensures states[n].wc.Running? <==> states[n].qrefs > 0
  {
    RunKeeps(states, steps, n);
    NeverHalted(states, steps, n);
  }

  /** Nothing but a reset that finds neither blocks nor another reset changes who holds it. */
  lemma StartResetTakes(s: State, t: int)
    ensures var s' := StartResetStep(s, t);
            && s'.held.blocks == s.held.blocks
            && s'.held.resetter == if s.bcnt == 0 && !s.rip then Some(t) else s.held.resetter
  {
  }

  lemma BlockTakes(s: State, t: int, reference: bool)
    ensures var s' := BlockStep(s, t, reference);
            && s'.held.resetter == s.held.resetter
            && s'.held.blocks == if s.rip then s.held.blocks else s.held.blocks + 1
  {
  }

  lemma RestartTakes(s: State, t: int)
    ensures var s' := DerefWaitRestartStep(s, t);
            s'.held.resetter == s.held.resetter && s'.held.blocks == s.held.blocks
  {
  }

  lemma StepExcludes(s: State, step: Step)
    requires Inv(s)
    ensures Apply(s, step).held.blocks > s.held.blocks ==> s.held.resetter == None
    ensures Apply(s, step).held.resetter.Some? && Apply(s, step).held.resetter != s.held.resetter ==>
      s.held.resetter == None && s.held.blocks == 0
  {
    match step
    case StartReset(t) => StartResetTakes(s, t);
    case Block(t, reference) => BlockTakes(s, t, reference);
    case DerefWaitRestart(t) => RestartTakes(s, t);
    case _ =>
  }

  /** No block is granted during a reset, and no reset begins under a block or another reset. */
  lemma ResetExcludesBlocks(states: seq<State>, steps: seq<Step>, n: nat)
    requires IsRun(states, steps) && n < |steps|
    ensures states[n].held.resetter.Some? ==> states[n].held.blocks == 0
    ensures states[n + 1].held.blocks > states[n].held.blocks ==> states[n].held.resetter == None
    ensures states[n + 1].held.resetter.Some? && states[n + 1].held.resetter != states[n].held.resetter ==>
      states[n].held.resetter == None && states[n].held.blocks == 0
  {
    RunKeeps(states, steps, n);
    StepExcludes(states[n], steps[n]);
  }

  /** No block is held and every other reference is temporary. */
  predicate Alone(s: State) {
    s.held.blocks == 0 && s.held.handles[Queue] == 1 && s.held.handles[Plain] == 0 && s.held.handles[Hold] == 0
  }

  lemma AloneIsRestartable(s: State)
    requires Inv(s)
    ensures Alone(s) <==> Restartable(s)
  {
    HandleCount(s.held.handles);
  }

  lemma RestartOutcome(s: State, t: int)
    ensures var s' := DerefWaitRestartStep(s, t);
            if Restartable(s) then
              s'.held.handles == s.held.handles - multiset{Queue} && s'.wc.Absent? && t !in s'.held.restarters
            else s'.held.handles == s.held.handles && s'.wc == s.wc && t in s'.held.restarters
  {
  }

  /** A restart goes through exactly when no block is held and its queue reference is the last one that
      is not temporary; otherwise its thread waits. */
  lemma RestartsExactlyAlone(states: seq<State>, steps: seq<Step>, n: nat)
    requires IsRun(states, steps) && n < |steps| && steps[n].DerefWaitRestart?
    ensures var s, t, s' := states[n], steps[n].t, states[n + 1];
            if Alone(s) then
              s'.held.handles == s.held.handles - multiset{Queue} && s'.wc.Absent? && t !in s'.held.restarters
            else s'.held.handles == s.held.handles && s'.wc == s.wc && t in s'.held.restarters
  {
    RunKeeps(states, steps, n);
    AloneIsRestartable(states[n]);
    RestartOutcome(states[n], steps[n].t);
  }

  /** Whenever a waiting restart could go through, its wake-up is pending. */
  lemma RestartIsWoken(states: seq<State>, steps: seq<Step>, n: nat, t: int)
    requires IsRun(states, steps) && n < |states| && t in states[n].held.restarters
    requires Alone(states[n])
    ensures t in states[n].bcond.woken || t in states[n].restartCond.woken
    ensures states[n].held.restarters == {t}
  {
    RunKeeps(states, steps, n);
    AloneIsRestartable(states[n]);
    forall u | u in states[n].held.restarters ensures u == t {
      OnlyOne(states[n].held.restarters, t, u);
    }
  }

  /** Whoever waits for a reset to end or for blocks to go is woken when that happens. */
  lemma WaitersAreWoken(states: seq<State>, steps: seq<Step>, n: nat, t: int)
    requires IsRun(states, steps) && n < |states|
    ensures states[n].rcond.Asleep(t) ==> states[n].held.resetter.Some?
    ensures states[n].bcond.Asleep(t) ==> states[n].held.blocks > 0
  {
    RunKeeps(states, steps, n);
  }

  // ---- where references and the queue disagree ----

  /** Some reference is not temporary, so there should be a queue. */
  predicate HasItsQueue(s: State) {
    s.refs > s.trefs ==> !s.wc.Absent?
  }

  /** The one step after which a workflow lacks its queue: a block takes a reference while there is none. */
  lemma LosesQueueExactly(s: State, step: Step)
    requires Inv(s) && Enabled(s, step) && HasItsQueue(s)
    ensures HasItsQueue(Apply(s, step)) <==> !(step.Block? && step.reference && !s.rip && s.wc.Absent?)
  {
    HandleCount(s.held.handles);
    match step
    case StartReset(t) =>
    case DerefWaitRestart(t) => RestartOutcome(s, t);
    case _ =>
  }

  /** The assertion of ref holds for a queue reference exactly while such a workflow has its queue. */
  lemma QueueFoundExactly(s: State)
    requires Inv(s)
    ensures FindsQueue(s, Queue) <==> HasItsQueue(s)
  {
    HandleCount(s.held.handles);
  }

  /** A run whose next queue reference finds no queue: a block on a workflow held by a temporary reference. */
  lemma BlockedTemporary(t: int)
    ensures exists states: seq<State>, steps: seq<Step> ::
      && IsRun(states, steps)
      && |states| == 2 && states[1].held.resetter == None
      && !FindsQueue(states[1], Queue)
  {
    var first := Construct(false, Temp);
    var second := Apply(first, Block(t, true));
    assert IsRun([first, second], [Block(t, true)]);
    assert [first, second][1] == second;
    assert !FindsQueue(second, Queue);
  }

  /** deref lets the cached orders be purged exactly when the last queue reference goes or the last of all. */
  lemma PurgesExactly(s: State, h: Handle, pick: Option<int>)
    requires Inv(s) && Enabled(s, Deref(h, pick))
    ensures var left := s.held.handles - multiset{h};
            CanPurge(s, h) <==> (h == Queue && Queue !in left) || left == multiset{}
  {
    var left := s.held.handles - multiset{h};
    HandleCount(s.held.handles);
    HandleCount(left);
    assert |left| == 0 ==> left == multiset{};
  }

  /** deref stops a queue that does not exist exactly when it leaves only temporary references and there
      is no queue; the stop for the last queue reference always finds one. */
  lemma StopsMissingQueueExactly(s: State, h: Handle, pick: Option<int>)
    requires Inv(s) && Enabled(s, Deref(h, pick))
    ensures var left := s.held.handles - multiset{h};
            StopsMissingQueue(s, h) <==> s.wc.Absent? && Temp in left && left[Temp] == |left|
    ensures h == Queue ==> !s.wc.Absent?
  {
    HandleCount(s.held.handles);
    HandleCount(s.held.handles - multiset{h});
  }

  /** A run to a deref that does: one of two temporary references goes. */
  lemma TemporaryWithoutQueue()
    ensures exists states: seq<State>, steps: seq<Step> ::
      && IsRun(states, steps)
      && |states| == 2 && Enabled(states[1], Deref(Temp, None))
      && StopsMissingQueue(states[1], Temp)
  {
    var first := Construct(false, Temp);
    var second := Apply(first, Ref(Temp));
    var states, steps := [first, second], [Ref(Temp)];
    assert IsRun(states, steps);
    assert states[1] == second;
  }

  // ---- deletion ----

  predicate CanDelete(s: State) {
    s.refs == 0 && s.bcnt == 0
  }

  /** The data can be deleted exactly when no reference and no block is held; then its queue does not run,
      nobody waits for a restart, and nobody sleeps until blocks are gone. */
  lemma DeletableExactly(states: seq<State>, steps: seq<Step>, n: nat)
    requires IsRun(states, steps) && n < |states|
    ensures CanDelete(states[n]) <==> states[n].held.handles == multiset{} && states[n].held.blocks == 0
    ensures CanDelete(states[n]) ==> !states[n].wc.Running? && states[n].held.restarters == {}
    ensures CanDelete(states[n]) ==> states[n].bcond.AllWoken() && states[n].restartCond.inside == {}
  {
    var s := states[n];
    RunKeeps(states, steps, n);
    HandleCount(s.held.handles);
    assert |s.held.handles| == 0 ==> s.held.handles == multiset{};
    assert |s.held.restarters| == 0 ==> s.held.restarters == {};
  }

  /** During a reset it can be deleted exactly when no reference is held. */
  lemma DeletableInResetExactly(states: seq<State>, steps: seq<Step>, n: nat)
    requires IsRun(states, steps) && n < |states| && states[n].held.resetter.Some?
    ensures CanDelete(states[n]) <==> states[n].held.handles == multiset{}
  {
    RunKeeps(states, steps, n);
    DeletableExactly(states, steps, n);
  }

  /** What the execution instances do that reset: they hold a reference when they ask for the reset and do not
      give it back before its end. */
  predicate KeepsReference(s: State, step: Step) {
    && (step.StartReset? ==> s.held.handles != multiset{})
    && (step.Deref? && s.held.resetter.Some? ==> |s.held.handles| > 1)
  }

  predicate ResetIsReferenced(s: State) {
    s.held.resetter.Some? ==> !s.remote && s.held.handles != multiset{}
  }

  lemma StepReferencesReset(s: State, step: Step)
    requires Inv(s) && Enabled(s, step) && KeepsReference(s, step) && ResetIsReferenced(s)
    ensures ResetIsReferenced(Apply(s, step))
  {
    match step
    case StartReset(t) =>
      assert StartResetStep(s, t).held.handles == s.held.handles && StartResetStep(s, t).remote == s.remote;
    case Deref(h, pick) =>
      var left := s.held.handles - multiset{h};
      assert |left| == |s.held.handles| - 1;
      assert left == multiset{} ==> |left| == 0;
    case DerefWaitRestart(t) => RestartTakes(s, t);
    case _ =>
  }

  lemma {:induction false} RunReferencesReset(states: seq<State>, steps: seq<Step>, n: nat)
    requires IsRun(states, steps) && n < |states|
    requires forall i :: 0 <= i < |steps| ==> KeepsReference(states[i], steps[i])
    ensures ResetIsReferenced(states[n])
  {
    if n > 0 {
      RunReferencesReset(states, steps, n - 1);
      RunKeeps(states, steps, n - 1);
      assert KeepsReference(states[n - 1], steps[n - 1]);
      StepReferencesReset(states[n - 1], steps[n - 1]);
    }
  }

  /** If the thread that resets keeps a reference, the data cannot be deleted during the reset, and when it
      can be deleted nobody sleeps on it. */
  lemma ResetKeepsData(states: seq<State>, steps: seq<Step>, n: nat)
    requires IsRun(states, steps) && n < |states|
    requires forall i :: 0 <= i < |steps| ==> KeepsReference(states[i], steps[i])
    ensures states[n].held.resetter.Some? ==> !CanDelete(states[n])
    ensures CanDelete(states[n]) ==> forall t ::
      !states[n].rcond.Asleep(t) && !states[n].bcond.Asleep(t) && !states[n].restartCond.Asleep(t)
  {
    RunKeeps(states, steps, n);
    RunReferencesReset(states, steps, n);
    DeletableExactly(states, steps, n);
  }

  /** The premise is needed: the code itself lets the last reference go during a reset. */
  lemma DeletableInReset(t: int)
    ensures exists states: seq<State>, steps: seq<Step> ::
      && IsRun(states, steps)
      && |states| == 3 && CanDelete(states[2]) && states[2].held.resetter == Some(t)
  {
    var s0 := Construct(false, Plain);
    var s1 := Apply(s0, StartReset(t));
    var s2 := Apply(s1, Deref(Plain, None));
    var states, steps := [s0, s1, s2], [StartReset(t), Deref(Plain, None)];
    assert IsRun(states, steps);
    assert states[2] == s2;
  }
}
