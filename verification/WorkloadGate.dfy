/** The broker's GPU workload gate: the admission state and the four operations that change it
    under its lock. `GateProtocol` runs them as a protocol of many cancellable tasks. */
module WorkloadGates {
  import opened Options

  datatype Workload = Text | Image {
    function Other(): Workload { if this == Text then Image else Text }
  }

  datatype GateState = GateState(
    loaded: Option<Workload>, active: nat, waitingText: nat, waitingImage: nat, switching: bool)
  {
    function Waiting(kind: Workload): nat { if kind == Text then waitingText else waitingImage }

    function WithWaiting(kind: Workload, n: nat): GateState {
      if kind == Text then this.(waitingText := n) else this.(waitingImage := n)
    }

    // The admission test.
    predicate Admissible(kind: Workload) {
      && !switching
      && if active == 0 then !(loaded == Some(kind) && Waiting(kind.Other()) > 0)
         else loaded == Some(kind) && Waiting(kind.Other()) == 0
    }

    function Admitted(kind: Workload, counted: bool): GateState
      requires counted ==> Waiting(kind) > 0
    {
      var g := if counted then WithWaiting(kind, Waiting(kind) - 1) else this;
      g.(loaded := Some(kind), active := active + 1, switching := loaded != Some(kind))
    }

    function Queued(kind: Workload, counted: bool): GateState {
      if counted then this else WithWaiting(kind, Waiting(kind) + 1)
    }

    function Cancelled(kind: Workload): GateState
      requires Waiting(kind) > 0
    {
      WithWaiting(kind, Waiting(kind) - 1)
    }

    function Switched(): GateState { this.(switching := false) }

    // A holder dropped mid-switch leaves the other kind possibly loaded, so the kind is forgotten.
    function Dropped(): GateState
      requires active > 0
    {
      this.(active := active - 1, switching := false, loaded := if switching then None else loaded)
    }
  }

  const FreshGate := GateState(None, 0, 0, 0, false)

  /** Whenever nothing is active and somebody waits, some waiting kind passes the admission test. */
  lemma IdleGateAdmitsAWaiter(g: GateState)
    requires g.active == 0 && !g.switching && (g.Waiting(Text) > 0 || g.Waiting(Image) > 0)
    ensures exists kind: Workload :: g.Waiting(kind) > 0 && g.Admissible(kind)
  {
    var kind := if g.waitingText > 0 then Text else Image;
    if !g.Admissible(kind) {
      assert g.Waiting(kind.Other()) > 0 && g.Admissible(kind.Other());
    }
  }

  /** Admitting a task never lets another task pass a test it was failing, which is why `admit`
      issues no wake-up. */
  lemma AdmitEnablesNobody(g: GateState, kind: Workload, counted: bool, sleeper: Workload)
    requires counted ==> g.Waiting(kind) > 0
    requires g.Admissible(kind)
    ensures g.Admitted(kind, counted).Admissible(sleeper) ==> g.Admissible(sleeper)
  {
    if sleeper != kind {
      assert g.Admitted(kind, counted).loaded == Some(kind);
    }
  }

  // The state behind the mutex. Each method is one critical section.
  class WorkloadGate {
    var loaded: Option<Workload>
    var active: nat
    var waitingText: nat
    var waitingImage: nat
    var switching: bool

    ghost function View(): GateState
      reads this
    {
      GateState(loaded, active, waitingText, waitingImage, switching)
    }

    constructor ()
      ensures View() == FreshGate
    {
      loaded, active, waitingText, waitingImage, switching := None, 0, 0, 0, false;
    }

    method AddWaiting(kind: Workload, up: bool)
      requires !up ==> View().Waiting(kind) > 0
      modifies this`waitingText, this`waitingImage
      ensures View() == old(View()).WithWaiting(kind,
                if up then old(View()).Waiting(kind) + 1 else old(View()).Waiting(kind) - 1)
    {
      if kind == Text {
        waitingText := if up then waitingText + 1 else waitingText - 1;
      } else {
        waitingImage := if up then waitingImage + 1 else waitingImage - 1;
      }
    }

    // One pass of the admission loop. `nowCounted` says whether this task is still in the queue.
    method Test(kind: Workload, counted: bool)
      returns (admitted: bool, mustSwitch: bool, nowCounted: bool)
      requires counted ==> View().Waiting(kind) > 0
      modifies this
      ensures admitted == old(View()).Admissible(kind)
      ensures admitted ==> View() == old(View()).Admitted(kind, counted) && !nowCounted
                           && mustSwitch == View().switching
      ensures !admitted ==> View() == old(View()).Queued(kind, counted) && nowCounted && !mustSwitch
    {
      var otherWaiting := (if kind == Text then waitingImage else waitingText) > 0;
      var same := loaded == Some(kind);
      admitted := !switching && if active == 0 then !(same && otherWaiting) else same && !otherWaiting;
      mustSwitch, nowCounted := false, counted;
      if admitted {
        if counted {
          AddWaiting(kind, false);
          nowCounted := false;
        }
        loaded := Some(kind);
        active := active + 1;
        switching := !same;
        mustSwitch := !same;
      } else if !counted {
        AddWaiting(kind, true);
        nowCounted := true;
      }
    }

    method CancelWaiting(kind: Workload)
      requires View().Waiting(kind) > 0
      modifies this
      ensures View() == old(View()).Cancelled(kind)
    {
      AddWaiting(kind, false);
    }

    method FinishSwitch()
      modifies this
      ensures View() == old(View()).Switched()
    {
      switching := false;
    }

    method DropGuard()
      requires active > 0
      modifies this
      ensures View() == old(View()).Dropped()
    {
      active := active - 1;
      if switching {
        switching := false;
        loaded := None;
      }
    }
  }
}
