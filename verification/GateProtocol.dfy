/** The gate as a protocol: any number of tasks that arrive, test, sleep, are cancelled, hold guards,
    switch the GPU host and drop their guards, in any interleaving. A wake-up is a step of its own,
    because the code releases the lock before it notifies. */
module GateProtocol {
  import opened Options
  import opened WorkloadGates

  type TaskId = nat
  type Model = nat

  // An admission future. `Armed` has enabled its notification and not yet tested; a notification that
  // arrives meanwhile is kept. `Asleep` and `Woken` are suspended, so only they can be cancelled.
  datatype Future =
    | Armed(kind: Workload, counted: bool, notified: bool)
    | Asleep(kind: Workload)
    | Woken(kind: Workload)
  {
    predicate InQueue() { Armed? ==> counted }

    function Notified(): Future {
      match this
      case Armed(k, c, _) => Armed(k, c, true)
      case Asleep(k) => Woken(k)
      case Woken(k) => this
    }
  }

  // `confirmedEmpty`: the image switcher has seen the chat runtime report no running model.
  datatype Guard = Guard(kind: Workload, switching: bool, confirmedEmpty: bool)

  // `owed` counts threads that changed the gate and have yet to notify; `chat` is the set of chat
  // models resident on the shared host.
  datatype State = State(
    gate: GateState, futures: map<TaskId, Future>, guards: map<TaskId, Guard>, owed: nat, chat: set<Model>)

  datatype Step =
    | Arrive(id: TaskId, kind: Workload)
    | Rearm(id: TaskId)
    | Test(id: TaskId)
    | Cancel(id: TaskId)
    | LoadChat(id: TaskId, model: Model)
    | UnloadChat(model: Model)
    | ConfirmEmpty(id: TaskId)
    | FinishSwitch(id: TaskId)
    | DropGuard(id: TaskId)
    | Notify

  const Start := State(FreshGate, map[], map[], 0, {})

  // Chat models load only under a granted text guard. A text switch is best effort; an image switch
  // finishes only after the runtime reported no running chat model.
  predicate Enabled(s: State, step: Step) {
    match step
    case Arrive(id, _) => id !in s.futures && id !in s.guards
    case Rearm(id) => id in s.futures && s.futures[id].Woken?
    case Test(id) => id in s.futures && s.futures[id].Armed?
                     && (s.futures[id].counted ==> s.gate.Waiting(s.futures[id].kind) > 0)
    case Cancel(id) => id in s.futures && !s.futures[id].Armed? && s.gate.Waiting(s.futures[id].kind) > 0
    case LoadChat(id, _) => id in s.guards && s.guards[id].kind == Text && !s.guards[id].switching
    case UnloadChat(_) => true
    case ConfirmEmpty(id) => id in s.guards && s.guards[id].kind == Image && s.guards[id].switching
                             && s.chat == {}
    case FinishSwitch(id) => id in s.guards && s.guards[id].switching
                             && (s.guards[id].kind == Image ==> s.guards[id].confirmedEmpty)
    case DropGuard(id) => id in s.guards && s.gate.active > 0
    case Notify => s.owed > 0
  }

  function Apply(s: State, step: Step): State
    requires Enabled(s, step)
  {
    match step
    case Arrive(id, kind) => s.(futures := s.futures[id := Armed(kind, false, false)])
    case Rearm(id) => s.(futures := s.futures[id := Armed(s.futures[id].kind, true, false)])
    case Test(id) => ApplyTest(s, id, s.futures[id])
    case Cancel(id) =>
      s.(gate := s.gate.Cancelled(s.futures[id].kind), futures := s.futures - {id}, owed := s.owed + 1)
    case LoadChat(_, model) => s.(chat := s.chat + {model})
    case UnloadChat(model) => s.(chat := s.chat - {model})
    case ConfirmEmpty(id) => s.(guards := s.guards[id := s.guards[id].(confirmedEmpty := true)])
    case FinishSwitch(id) =>
      s.(gate := s.gate.Switched(), guards := s.guards[id := s.guards[id].(switching := false)], owed := s.owed + 1)
    case DropGuard(id) => s.(gate := s.gate.Dropped(), guards := s.guards - {id}, owed := s.owed + 1)
    case Notify =>
      s.(futures := map id | id in s.futures :: s.futures[id].Notified(), owed := s.owed - 1)
  }

  function ApplyTest(s: State, id: TaskId, f: Future): State
    requires f.Armed? && (f.counted ==> s.gate.Waiting(f.kind) > 0)
  {
    if s.gate.Admissible(f.kind) then
      s.(gate := s.gate.Admitted(f.kind, f.counted),
         futures := s.futures - {id},
         guards := s.guards[id := Guard(f.kind, s.gate.loaded != Some(f.kind), false)])
    else
      s.(gate := s.gate.Queued(f.kind, f.counted),
         futures := s.futures[id := if f.notified then Woken(f.kind) else Asleep(f.kind)])
  }

  ghost predicate Legal(s: State, steps: seq<Step>)
    decreases |steps|
  {
    steps == [] || (Enabled(s, steps[0]) && Legal(Apply(s, steps[0]), steps[1..]))
  }

  ghost function Run(s: State, steps: seq<Step>): State
    requires Legal(s, steps)
    decreases |steps|
  {
    if steps == [] then s else Run(Apply(s, steps[0]), steps[1..])
  }

  // ----- The invariant -----

  ghost function QueueOf(futures: map<TaskId, Future>, kind: Workload): set<TaskId> {
    set id | id in futures && futures[id].InQueue() && futures[id].kind == kind
  }

  ghost predicate CountsMatch(s: State) {
    && s.gate.active == |s.guards|
    && s.gate.Waiting(Text) == |QueueOf(s.futures, Text)|
    && s.gate.Waiting(Image) == |QueueOf(s.futures, Image)|
  }

  ghost predicate Exclusive(s: State) {
    && (forall id :: id in s.guards ==> s.gate.loaded == Some(s.guards[id].kind))
    && (forall id :: id in s.guards && s.guards[id].switching ==> s.gate.switching && s.guards.Keys == {id})
    && (s.gate.switching ==> exists id :: id in s.guards && s.guards[id].switching)
  }

  ghost predicate NoLostWakeup(s: State) {
    forall id :: id in s.futures && s.futures[id].Asleep? && s.gate.Admissible(s.futures[id].kind) ==> s.owed > 0
  }

  ghost predicate GpuExclusive(s: State) {
    && (s.gate.loaded == Some(Image) && !s.gate.switching ==> s.chat == {})
    && (forall id :: id in s.guards && s.guards[id].confirmedEmpty ==> s.guards[id].kind == Image && s.chat == {})
  }

  ghost predicate Inv(s: State) {
    && s.futures.Keys !! s.guards.Keys
    && CountsMatch(s) && Exclusive(s) && NoLostWakeup(s) && GpuExclusive(s)
  }

  // How many of the two queues' places one task takes: the change a step makes is local to its task.
  ghost function Share(futures: map<TaskId, Future>, id: TaskId, kind: Workload): nat {
    if id in futures && futures[id].InQueue() && futures[id].kind == kind then 1 else 0
  }

  lemma QueueChangesAtOneTask(before: map<TaskId, Future>, after: map<TaskId, Future>, id: TaskId, kind: Workload)
    requires before - {id} == after - {id}
    ensures |QueueOf(after, kind)| - Share(after, id, kind) == |QueueOf(before, kind)| - Share(before, id, kind)
    ensures Share(before, id, kind) <= |QueueOf(before, kind)|
  {
    QueueWithout(before, id, kind);
    QueueWithout(after, id, kind);
  }

  lemma QueueWithout(futures: map<TaskId, Future>, id: TaskId, kind: Workload)
    ensures |QueueOf(futures, kind)| == |QueueOf(futures - {id}, kind)| + Share(futures, id, kind)
  {
    assert QueueOf(futures - {id}, kind) == QueueOf(futures, kind) - {id};
  }

  lemma QueueAfterNotify(futures: map<TaskId, Future>, kind: Workload)
    ensures QueueOf(map id | id in futures :: futures[id].Notified(), kind) == QueueOf(futures, kind)
  {}

  lemma StepKeepsQueueCount(s: State, step: Step, kind: Workload)
    requires Enabled(s, step) && s.gate.Waiting(kind) == |QueueOf(s.futures, kind)|
    ensures Apply(s, step).gate.Waiting(kind) == |QueueOf(Apply(s, step).futures, kind)|
  {
    var s' := Apply(s, step);
    if step.Notify? {
      QueueAfterNotify(s.futures, kind);
    } else if step.Arrive? || step.Rearm? || step.Test? || step.Cancel? {
      assert s.futures - {step.id} == s'.futures - {step.id};
      QueueChangesAtOneTask(s.futures, s'.futures, step.id, kind);
    }
  }

  lemma StepKeepsHolderCount(s: State, step: Step)
    requires Enabled(s, step) && s.gate.active == |s.guards| && s.futures.Keys !! s.guards.Keys
    ensures Apply(s, step).gate.active == |Apply(s, step).guards|
  {
    var s' := Apply(s, step);
    if step.Test? {
      assert step.id !in s.guards.Keys;
      assert s'.guards.Keys == s.guards.Keys || s'.guards.Keys == s.guards.Keys + {step.id};
    } else if step.DropGuard? {
      assert s'.guards.Keys == s.guards.Keys - {step.id};
    } else {
      assert s'.guards.Keys == s.guards.Keys;
    }
  }

  lemma TestKeepsExclusion(s: State, id: TaskId)
    requires Inv(s) && Enabled(s, Test(id))
    ensures Exclusive(Apply(s, Test(id))) && GpuExclusive(Apply(s, Test(id)))
  {
    var s' := Apply(s, Test(id));
    if s.gate.Admissible(s.futures[id].kind) {
      assert s.gate.active == 0 ==> s.guards == map[];
      assert s'.gate.switching ==> s'.guards[id].switching && s'.guards.Keys == {id};
    }
  }

  lemma DropKeepsExclusion(s: State, id: TaskId)
    requires Inv(s) && Enabled(s, DropGuard(id))
    ensures Exclusive(Apply(s, DropGuard(id))) && GpuExclusive(Apply(s, DropGuard(id)))
  {
    assert s.gate.switching ==> s.guards.Keys == {id};
  }

  lemma FinishKeepsExclusion(s: State, id: TaskId)
    requires Inv(s) && Enabled(s, FinishSwitch(id))
    ensures Exclusive(Apply(s, FinishSwitch(id))) && GpuExclusive(Apply(s, FinishSwitch(id)))
  {
    assert Apply(s, FinishSwitch(id)).guards.Keys == {id};
  }

  lemma StepKeepsExclusion(s: State, step: Step)
    requires Inv(s) && Enabled(s, step)
    ensures Exclusive(Apply(s, step)) && GpuExclusive(Apply(s, step))
  {
    var s' := Apply(s, step);
    match step
    case Test(id) => TestKeepsExclusion(s, id);
    case DropGuard(id) => DropKeepsExclusion(s, id);
    case FinishSwitch(id) => FinishKeepsExclusion(s, id);
    case ConfirmEmpty(id) =>
      assert s'.guards[id].switching && s'.guards.Keys == s.guards.Keys;
    case LoadChat(id, _) =>
      assert s.gate.loaded == Some(Text);
    case _ =>
  }

  lemma StepLosesNoWakeup(s: State, step: Step)
    requires Inv(s) && Enabled(s, step)
    ensures NoLostWakeup(Apply(s, step))
  {
    var s' := Apply(s, step);
    forall id | id in s'.futures && s'.futures[id].Asleep? && s'.gate.Admissible(s'.futures[id].kind)
      ensures s'.owed > 0
    {
      match step
      case Test(t) =>
        var f := s.futures[t];
        if s.gate.Admissible(f.kind) {
          AdmitEnablesNobody(s.gate, f.kind, f.counted, s'.futures[id].kind);
        }
      case _ =>
    }
  }

  lemma StepKeepsInv(s: State, step: Step)
    requires Inv(s) && Enabled(s, step)
    ensures Inv(Apply(s, step))
  {
    StepKeepsQueueCount(s, step, Text);
    StepKeepsQueueCount(s, step, Image);
    StepKeepsHolderCount(s, step);
    StepKeepsExclusion(s, step);
    StepLosesNoWakeup(s, step);
  }

  lemma {:induction false} RunKeepsInv(s: State, steps: seq<Step>)
    requires Inv(s) && Legal(s, steps)
    ensures Inv(Run(s, steps))
    decreases |steps|
  {
    if steps != [] {
      StepKeepsInv(s, steps[0]);
      RunKeepsInv(Apply(s, steps[0]), steps[1..]);
    }
  }

  // ----- What holds over all runs -----

  /** All holders share the loaded kind, and a switch has exactly one holder. */
  lemma MutualExclusion(steps: seq<Step>)
    requires Legal(Start, steps)
    ensures var s := Run(Start, steps);
            && (forall a :: a in s.guards ==> s.gate.loaded == Some(s.guards[a].kind))
            && (forall a, b :: a in s.guards && b in s.guards ==> s.guards[a].kind == s.guards[b].kind)
            && (s.gate.switching ==> |s.guards| == 1)
  {
    RunKeepsInv(Start, steps);
    var s := Run(Start, steps);
    if s.gate.switching {
      var id :| id in s.guards && s.guards[id].switching;
      assert |s.guards.Keys| == 1;
    }
  }

  /** While any image guard is granted, no chat model occupies the shared host, whatever switches
      failed or were abandoned before. */
  lemma NoChatModelUnderImageWork(steps: seq<Step>, holder: TaskId)
    requires Legal(Start, steps)
    requires var s := Run(Start, steps);
             holder in s.guards && s.guards[holder].kind == Image && !s.guards[holder].switching
    ensures Run(Start, steps).chat == {}
  {
    RunKeepsInv(Start, steps);
    assert holder in Run(Start, steps).guards.Keys;
  }

  /** No lost wake-up: a sleeping waiter that could be admitted is still owed a notification. */
  lemma SleepersAreOwedTheirWakeup(steps: seq<Step>, id: TaskId)
    requires Legal(Start, steps)
    requires var s := Run(Start, steps);
             id in s.futures && s.futures[id].Asleep? && s.gate.Admissible(s.futures[id].kind)
    ensures Run(Start, steps).owed > 0
  {
    RunKeepsInv(Start, steps);
  }

  lemma SomeSleeperCouldGo(s: State)
    requires Inv(s) && s.guards == map[] && s.futures != map[]
    requires forall id :: id in s.futures ==> s.futures[id].Asleep?
    ensures exists id :: id in s.futures && s.futures[id].Asleep? && s.gate.Admissible(s.futures[id].kind)
  {
    var id :| id in s.futures;
    assert id in QueueOf(s.futures, s.futures[id].kind);
    IdleGateAdmitsAWaiter(s.gate);
    var kind :| s.gate.Waiting(kind) > 0 && s.gate.Admissible(kind);
    var other :| other in QueueOf(s.futures, kind);
    assert s.gate.Admissible(s.futures[other].kind);
  }

  /** The gate cannot deadlock: when every guard is dropped, every notification delivered and every
      remaining task is asleep, nobody is left waiting. */
  lemma NobodySleepsForever(steps: seq<Step>)
    requires Legal(Start, steps)
    requires var s := Run(Start, steps);
             s.guards == map[] && s.owed == 0 && forall id :: id in s.futures ==> s.futures[id].Asleep?
    ensures Run(Start, steps).futures == map[]
  {
    RunKeepsInv(Start, steps);
    if Run(Start, steps).futures != map[] {
      SomeSleeperCouldGo(Run(Start, steps));
    }
  }

  /** The steps of the protocol that read a waiting count always find it positive: no reachable task
      is stopped by the arithmetic guards of `Enabled`. */
  lemma WaitingCountsNeverUnderflow(steps: seq<Step>, id: TaskId)
    requires Legal(Start, steps)
    ensures var s := Run(Start, steps);
            && (id in s.futures && s.futures[id].InQueue() ==> s.gate.Waiting(s.futures[id].kind) > 0)
            && (id in s.guards ==> s.gate.active > 0)
  {
    RunKeepsInv(Start, steps);
    var s := Run(Start, steps);
    if id in s.futures && s.futures[id].InQueue() {
      assert id in QueueOf(s.futures, s.futures[id].kind);
    }
    assert id in s.guards ==> id in s.guards.Keys;
  }

  // ----- Bounded overtaking -----

  ghost predicate Admits(s: State, step: Step, kind: Workload)
    requires Enabled(s, step)
  {
    step.Test? && s.futures[step.id].kind == kind && s.gate.Admissible(kind)
  }

  // Some task of this kind is queued before every step, and none of them is admitted.
  ghost predicate KeptWaiting(s: State, steps: seq<Step>, kind: Workload)
    requires Legal(s, steps)
    decreases |steps|
  {
    steps == [] || (&& s.gate.Waiting(kind) > 0
                    && !Admits(s, steps[0], kind)
                    && KeptWaiting(Apply(s, steps[0]), steps[1..], kind))
  }

  ghost function Admissions(s: State, steps: seq<Step>, kind: Workload): nat
    requires Legal(s, steps)
    decreases |steps|
  {
    if steps == [] then 0
    else (if Admits(s, steps[0], kind) then 1 else 0) + Admissions(Apply(s, steps[0]), steps[1..], kind)
  }

  ghost function AbandonedSwitches(s: State, steps: seq<Step>): nat
    requires Legal(s, steps)
    decreases |steps|
  {
    if steps == [] then 0
    else (if steps[0].DropGuard? && s.gate.switching then 1 else 0)
         + AbandonedSwitches(Apply(s, steps[0]), steps[1..])
  }

  // One more admission of the overtaking kind is possible only while it is not the loaded kind.
  ghost function Credit(s: State, kind: Workload): nat { if s.gate.loaded == Some(kind) then 0 else 1 }

  lemma {:induction false} OvertakingIsPaidFor(s: State, steps: seq<Step>, kind: Workload)
    requires Legal(s, steps) && KeptWaiting(s, steps, kind)
    ensures Admissions(s, steps, kind.Other()) + Credit(Run(s, steps), kind.Other())
            <= Credit(s, kind.Other()) + AbandonedSwitches(s, steps)
    decreases |steps|
  {
    if steps != [] {
      OvertakingIsPaidFor(Apply(s, steps[0]), steps[1..], kind);
    }
  }

  /** While a kind is kept waiting, the other kind is admitted at most once, plus once per guard
      dropped in the middle of a switch. */
  lemma BoundedOvertaking(before: seq<Step>, steps: seq<Step>, kind: Workload)
    requires Legal(Start, before) && Legal(Run(Start, before), steps)
    requires KeptWaiting(Run(Start, before), steps, kind)
    ensures var s := Run(Start, before);
            Admissions(s, steps, kind.Other()) <= 1 + AbandonedSwitches(s, steps)
  {
    OvertakingIsPaidFor(Run(Start, before), steps, kind);
  }
}
