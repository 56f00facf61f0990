/** The resources of a service as a machine: each registration, each removal from the hash and each stop of
    a resource is a step, so that any number of threads can be taking resources out at once. */
module ServiceResources {
  import opened Orders

  datatype Resource = Resource(tag: string, id: int)

  /** The hash in insertion order; the threads in stopAllResources; what each thread has taken out and is
      about to stop; every resource handed to the service; the stops it has made. */
  datatype State = State(
    rsc: seq<Resource>, drainers: set<int>, taken: map<int, int>, known: set<int>, stops: multiset<int>)

  const START := State([], {}, map[], {}, multiset{})

  datatype Step =
    | Add(tag: string, id: int)
    | Remove(t: int, tag: string)
    | StartDrain(t: int)
    | TakeFirst(t: int)
    | StopTaken(t: int)

  /** A resource is handed over once, and a thread stops what it has taken before it takes more. */
  predicate Enabled(s: State, step: Step) {
    match step
    case Add(_, id) => id !in s.known
    case Remove(t, _) => t !in s.taken
    case StartDrain(t) => t !in s.taken
    case TakeFirst(t) => t in s.drainers && t !in s.taken
    case StopTaken(t) => t in s.taken
  }

  predicate Has(rsc: seq<Resource>, tag: string) {
    exists r :: r in rsc && r.tag == tag
  }

  function Without(rsc: seq<Resource>, tag: string): seq<Resource> {
    if |rsc| == 0 then [] else (if rsc[0].tag == tag then [] else [rsc[0]]) + Without(rsc[1..], tag)
  }

  /** A resource with a tag already in use is stopped instead. */
  function AddStep(s: State, tag: string, id: int): State {
    if Has(s.rsc, tag) then s.(known := s.known + {id}, stops := s.stops + multiset{id})
    else s.(known := s.known + {id}, rsc := s.rsc + [Resource(tag, id)])
  }

  function IdOf(rsc: seq<Resource>, tag: string): (id: int)
    requires Has(rsc, tag)
    ensures Resource(tag, id) in rsc
  {
    if rsc[0].tag == tag then rsc[0].id else IdOf(rsc[1..], tag)
  }

  function RemoveStep(s: State, t: int, tag: string): State {
    if Has(s.rsc, tag) then s.(rsc := Without(s.rsc, tag), taken := s.taken[t := IdOf(s.rsc, tag)]) else s
  }

  function StartDrainStep(s: State, t: int): State {
    s.(drainers := s.drainers + {t})
  }

  /** An empty hash ends the draining loop. */
  function TakeFirstStep(s: State, t: int): State {
    if |s.rsc| == 0 then s.(drainers := s.drainers - {t})
    else s.(rsc := s.rsc[1..], taken := s.taken[t := s.rsc[0].id])
  }

  function StopTakenStep(s: State, t: int): State
    requires t in s.taken
  {
    s.(taken := s.taken - {t}, stops := s.stops + multiset{s.taken[t]})
  }

  function Apply(s: State, step: Step): State
    requires Enabled(s, step)
  {
    match step
    case Add(tag, id) => AddStep(s, tag, id)
    case Remove(t, tag) => RemoveStep(s, t, tag)
    case StartDrain(t) => StartDrainStep(s, t)
    case TakeFirst(t) => TakeFirstStep(s, t)
    case StopTaken(t) => StopTakenStep(s, t)
  }

  // ---- what every step keeps ----

  ghost predicate Distinct(rsc: seq<Resource>) {
    forall i, j :: 0 <= i < j < |rsc| ==> rsc[i].tag != rsc[j].tag && rsc[i].id != rsc[j].id
  }

  function Registered(rsc: seq<Resource>): set<int> {
    set r | r in rsc :: r.id
  }

  function Taken(taken: map<int, int>): set<int> {
    set t | t in taken :: taken[t]
  }

  ghost predicate Injective(taken: map<int, int>) {
    forall t, u :: t in taken && u in taken && taken[t] == taken[u] ==> t == u
  }

  /** Each resource handed to the service is registered, being stopped or stopped, one of these only, and
      was stopped once in the last case. */
  ghost predicate Inv(s: State) {
    && Distinct(s.rsc)
    && Injective(s.taken)
    && Partition(Registered(s.rsc), Taken(s.taken), s.known, s.stops)
  }

  ghost predicate Partition(registered: set<int>, taken: set<int>, known: set<int>, stops: multiset<int>) {
    && registered !! taken
    && (forall id :: stops[id] == if id in known && id !in registered && id !in taken then 1 else 0)
    && registered + taken <= known
  }

  lemma {:induction false} WithoutMembers(rsc: seq<Resource>, tag: string)
    ensures forall r :: r in Without(rsc, tag) <==> r in rsc && r.tag != tag
  {
    if |rsc| > 0 {
      WithoutMembers(rsc[1..], tag);
    }
  }

  lemma {:induction false} WithoutDistinct(rsc: seq<Resource>, tag: string)
    requires Distinct(rsc)
    ensures Distinct(Without(rsc, tag))
  {
    if |rsc| > 0 {
      WithoutDistinct(rsc[1..], tag);
      WithoutMembers(rsc[1..], tag);
      var rest := Without(rsc[1..], tag);
      forall j | 0 <= j < |rest| ensures rest[j].tag != rsc[0].tag && rest[j].id != rsc[0].id {
        assert rest[j] in rsc[1..];
      }
    }
  }

  lemma AddKeeps(s: State, tag: string, id: int)
    requires Inv(s) && id !in s.known
    ensures Inv(AddStep(s, tag, id))
  {
    var r := Resource(tag, id);
    assert Registered(s.rsc + [r]) == Registered(s.rsc) + {id};
    forall i | 0 <= i < |s.rsc| ensures s.rsc[i].id != id && (!Has(s.rsc, tag) ==> s.rsc[i].tag != tag) {
      assert s.rsc[i] in s.rsc && s.rsc[i].id in Registered(s.rsc);
    }
  }

  lemma RegisteredWithout(rsc: seq<Resource>, r: Resource, rest: seq<Resource>)
    requires Distinct(rsc) && r in rsc
    requires forall q :: q in rest <==> q in rsc && q != r
    ensures Registered(rest) == Registered(rsc) - {r.id}
    ensures r.id in Registered(rsc)
  {
    forall q | q in rsc && q.id == r.id ensures q == r {
      var i :| 0 <= i < |rsc| && rsc[i] == q;
      var j :| 0 <= j < |rsc| && rsc[j] == r;
    }
  }

  lemma TakeKeeps(s: State, t: int, r: Resource, rest: seq<Resource>)
    requires Inv(s) && t !in s.taken && r in s.rsc && Distinct(rest)
    requires forall q :: q in rest <==> q in s.rsc && q != r
    ensures Inv(s.(rsc := rest, taken := s.taken[t := r.id]))
  {
    RegisteredWithout(s.rsc, r, rest);
    var taken := s.taken[t := r.id];
    assert taken[t] == r.id && forall u :: u in s.taken ==> taken[u] == s.taken[u];
    assert Taken(taken) == Taken(s.taken) + {r.id};
  }

  lemma RemoveKeeps(s: State, t: int, tag: string)
    requires Inv(s) && t !in s.taken
    ensures Inv(RemoveStep(s, t, tag))
  {
    if Has(s.rsc, tag) {
      var r := Resource(tag, IdOf(s.rsc, tag));
      WithoutMembers(s.rsc, tag);
      WithoutDistinct(s.rsc, tag);
      forall q | q in s.rsc && q.tag == tag ensures q == r {
        var i :| 0 <= i < |s.rsc| && s.rsc[i] == q;
        var j :| 0 <= j < |s.rsc| && s.rsc[j] == r;
      }
      TakeKeeps(s, t, r, Without(s.rsc, tag));
    }
  }

  lemma TakeFirstKeeps(s: State, t: int)
    requires Inv(s) && t !in s.taken
    ensures Inv(TakeFirstStep(s, t))
  {
    if |s.rsc| > 0 {
      TakeKeeps(s, t, s.rsc[0], s.rsc[1..]);
    }
  }

  lemma StopTakenKeeps(s: State, t: int)
    requires Inv(s) && t in s.taken
    ensures Inv(StopTakenStep(s, t))
  {
    var taken := s.taken - {t};
    forall id ensures id in Taken(taken) <==> id in Taken(s.taken) && id != s.taken[t] {
      if id in Taken(s.taken) && id != s.taken[t] {
        var u :| u in s.taken && s.taken[u] == id;
        assert u in taken && taken[u] == id;
      }
    }
    assert Taken(taken) == Taken(s.taken) - {s.taken[t]};
  }

  lemma StepKeeps(s: State, step: Step)
    requires Inv(s) && Enabled(s, step)
    ensures Inv(Apply(s, step))
  {
    match step
    case Add(tag, id) => AddKeeps(s, tag, id);
    case Remove(t, tag) => RemoveKeeps(s, t, tag);
    case StartDrain(t) =>
    case TakeFirst(t) => TakeFirstKeeps(s, t);
    case StopTaken(t) => StopTakenKeeps(s, t);
  }

  // ---- what each step does ----

  lemma {:induction false} WithoutAt(rsc: seq<Resource>, i: nat)
    requires i < |rsc| && Distinct(rsc)
    ensures rsc[..i] + rsc[i + 1..] == Without(rsc, rsc[i].tag)
    ensures Has(rsc, rsc[i].tag) && IdOf(rsc, rsc[i].tag) == rsc[i].id
  {
    assert rsc[i] in rsc;
    if i == 0 {
      forall r | r in rsc[1..] ensures r.tag != rsc[0].tag {
      }
      WithoutAbsent(rsc[1..], rsc[0].tag);
    } else {
      WithoutAt(rsc[1..], i - 1);
      assert rsc[1..][..i - 1] == rsc[1..i] && rsc[1..][i..] == rsc[i + 1..];
      assert [rsc[0]] + rsc[1..i] == rsc[..i];
      assert rsc[1..][i - 1] in rsc[1..];
    }
  }

  lemma {:induction false} WithoutAbsent(rsc: seq<Resource>, tag: string)
    requires forall r :: r in rsc ==> r.tag != tag
    ensures Without(rsc, tag) == rsc
  {
    if |rsc| > 0 {
      WithoutAbsent(rsc[1..], tag);
    }
  }

  /** A resource with a new tag is registered at the end and not stopped; one with a tag in use is stopped and
      not registered. */
  lemma AddExactly(s: State, tag: string, id: int)
    requires id !in s.known
    ensures var t := Apply(s, Add(tag, id));
            && t.known == s.known + {id} && t.taken == s.taken && t.drainers == s.drainers
            && if exists r :: r in s.rsc && r.tag == tag then t.rsc == s.rsc && t.stops == s.stops + multiset{id}
               else t.rsc == s.rsc + [Resource(tag, id)] && t.stops == s.stops
  {
  }

  /** Exactly the resource with the tag leaves the hash, and the thread has it. */
  lemma RemoveExactly(s: State, t: int, i: nat, tag: string)
    requires Inv(s) && t !in s.taken
    ensures i < |s.rsc| && s.rsc[i].tag == tag ==>
      Apply(s, Remove(t, tag)) == s.(rsc := s.rsc[..i] + s.rsc[i + 1..], taken := s.taken[t := s.rsc[i].id])
    ensures (forall r :: r in s.rsc ==> r.tag != tag) ==> Apply(s, Remove(t, tag)) == s
  {
    if i < |s.rsc| && s.rsc[i].tag == tag {
      WithoutAt(s.rsc, i);
    }
  }

  /** A draining thread takes the first resource, or ends when there is none; what a thread has taken is stopped
      once more and is not on its way any more. */
  lemma DrainExactly(s: State, step: Step)
    requires Enabled(s, step)
    ensures step.StartDrain? ==> Apply(s, step) == s.(drainers := s.drainers + {step.t})
    ensures step.TakeFirst? && s.rsc == [] ==> Apply(s, step) == s.(drainers := s.drainers - {step.t})
    ensures step.TakeFirst? && s.rsc != [] ==>
      Apply(s, step) == s.(rsc := s.rsc[1..], taken := s.taken[step.t := s.rsc[0].id])
    ensures step.StopTaken? ==>
      Apply(s, step) == s.(taken := s.taken - {step.t}, stops := s.stops + multiset{s.taken[step.t]})
  {
  }

  // ---- runs ----

  /** The state after the steps, if each of them is possible when its turn comes. */
  function After(s: State, steps: seq<Step>): Option<State> {
    if |steps| == 0 then Some(s)
    else
      var last := |steps| - 1;
      match After(s, steps[..last])
      case None => None
      case Some(m) => if Enabled(m, steps[last]) then Some(Apply(m, steps[last])) else None
  }

  lemma OneMore(s: State, steps: seq<Step>, step: Step)
    requires After(s, steps).Some? && Enabled(After(s, steps).value, step)
    ensures After(s, steps + [step]) == Some(Apply(After(s, steps).value, step))
  {
    assert (steps + [step])[..|steps|] == steps;
  }

  lemma {:induction false} RunKeeps(s: State, steps: seq<Step>)
    requires Inv(s) && After(s, steps).Some?
    ensures Inv(After(s, steps).value)
  {
    if |steps| > 0 {
      var last := |steps| - 1;
      RunKeeps(s, steps[..last]);
      StepKeeps(After(s, steps[..last]).value, steps[last]);
    }
  }

  /** However many threads stop, remove and add, the service stops each resource at most once. */
  lemma StoppedAtMostOnce(steps: seq<Step>, s: State, id: int)
    requires After(START, steps) == Some(s)
    ensures s.stops[id] <= 1
    ensures s.stops[id] == 1 <==> id in s.known && id !in Registered(s.rsc) && id !in Taken(s.taken)
  {
    RunKeeps(START, steps);
  }

  /** With nothing left in the hash or on its way, every resource handed to the service has been stopped. */
  lemma AllStopped(steps: seq<Step>, s: State)
    requires After(START, steps) == Some(s)
    requires s.rsc == [] && s.taken == map[]
    ensures s.stops == multiset(s.known)
  {
    RunKeeps(START, steps);
    forall id ensures s.stops[id] == multiset(s.known)[id] {
      assert id !in Registered(s.rsc) && id !in Taken(s.taken);
    }
  }

  // ---- a drain among other threads ----

  predicate IsBy(step: Step, t: int) {
    match step
    case Add(_, _) => false
    case Remove(u, _) => u == t
    case StartDrain(u) => u == t
    case TakeFirst(u) => u == t
    case StopTaken(u) => u == t
  }

  /** The next step of a draining thread. */
  function DrainStep(s: State, t: int): State {
    if t in s.taken then StopTakenStep(s, t) else TakeFirstStep(s, t)
  }

  /** A schedule of a drain: `Some` is a step that another thread takes while the mutex is free, `None` lets the
      draining thread take its next one. The steps of the others are possible when their turns come. */
  predicate Fits(s: State, t: int, schedule: seq<Option<Step>>)
    decreases |schedule|
  {
    if |schedule| == 0 then true
    else match schedule[0]
      case Some(step) => !IsBy(step, t) && Enabled(s, step) && Fits(Apply(s, step), t, schedule[1..])
      case None => Fits(DrainStep(s, t), t, schedule[1..])
  }

  /** The steps are those of a drain by `t` and of the schedule. */
  ghost predicate IsDrain(steps: seq<Step>, t: int, schedule: seq<Option<Step>>) {
    forall step :: step in steps ==> step in [StartDrain(t), TakeFirst(t), StopTaken(t)] || Some(step) in schedule
  }

  /** The steps are a removal by `t`, with steps of the schedule by others before the stop. */
  ghost predicate IsRemoval(steps: seq<Step>, t: int, tag: string, schedule: seq<Option<Step>>) {
    && |steps| >= 2 && steps[0] == Remove(t, tag) && steps[|steps| - 1] == StopTaken(t)
    && forall i :: 1 <= i < |steps| - 1 ==> !IsBy(steps[i], t) && Some(steps[i]) in schedule
  }

  lemma OthersKeepTaken(s: State, step: Step, t: int)
    requires Enabled(s, step) && !IsBy(step, t) && t in s.taken
    ensures t in Apply(s, step).taken && Apply(s, step).taken[t] == s.taken[t]
  {
  }

  /** While others take their steps, the thread keeps what it has taken. */
  lemma {:induction false} RemovalHolds(s: State, steps: seq<Step>, t: int, tag: string,
                                        schedule: seq<Option<Step>>, n: nat)
    requires IsRemoval(steps, t, tag, schedule) && Has(s.rsc, tag) && After(s, steps).Some? && 1 <= n < |steps|
    ensures After(s, steps[..n]).Some?
    ensures t in After(s, steps[..n]).value.taken && After(s, steps[..n]).value.taken[t] == IdOf(s.rsc, tag)
  {
    PrefixRuns(s, steps, n);
    assert steps[..n][..n - 1] == steps[..n - 1];
    if n == 1 {
      assert steps[..1] == [Remove(t, tag)] && After(s, steps[..0]) == Some(s);
    } else {
      RemovalHolds(s, steps, t, tag, schedule, n - 1);
      OthersKeepTaken(After(s, steps[..n - 1]).value, steps[n - 1], t);
    }
  }

  lemma {:induction false} PrefixRuns(s: State, steps: seq<Step>, n: nat)
    requires After(s, steps).Some? && n <= |steps|
    ensures After(s, steps[..n]).Some?
    decreases |steps|
  {
    if n == |steps| {
      assert steps[..n] == steps;
    } else {
      assert steps[..|steps| - 1][..n] == steps[..n];
      PrefixRuns(s, steps[..|steps| - 1], n);
    }
  }

  /** Whatever other threads do meanwhile, what was registered under the tag has been stopped once. */
  lemma RemovedIsStopped(s: State, steps: seq<Step>, t: int, tag: string, schedule: seq<Option<Step>>)
    requires Inv(s) && Has(s.rsc, tag) && IsRemoval(steps, t, tag, schedule) && After(s, steps).Some?
    ensures After(s, steps).value.stops[IdOf(s.rsc, tag)] == 1
  {
    RemovalHolds(s, steps, t, tag, schedule, |steps| - 1);
    RunKeeps(s, steps);
  }

  /** What a drain among others leaves when it finds the hash empty: every resource handed over before has been
      stopped once, or exactly one other thread has taken it out and is about to stop it. */
  lemma DrainedOrTaken(s: State, steps: seq<Step>, id: int)
    requires Inv(s) && After(s, steps).Some? && id in s.known
    requires After(s, steps).value.rsc == []
    ensures var end := After(s, steps).value;
            && (end.stops[id] == 1 <==> id !in Taken(end.taken))
            && (end.stops[id] == 0 <==> exists t :: t in end.taken && end.taken[t] == id)
            && (forall t, u :: t in end.taken && u in end.taken && end.taken[t] == id == end.taken[u] ==> t == u)
  {
    RunKeeps(s, steps);
    KnownGrows(s, steps);
    assert id !in Registered(After(s, steps).value.rsc);
  }

  lemma {:induction false} KnownGrows(s: State, steps: seq<Step>)
    requires After(s, steps).Some?
    ensures s.known <= After(s, steps).value.known
  {
    if |steps| > 0 {
      KnownGrows(s, steps[..|steps| - 1]);
    }
  }
}
