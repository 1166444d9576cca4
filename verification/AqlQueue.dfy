/** Packets and kernel arguments shared with the GPU: one producer fills a ring, the device retires packets on its
    own time. */
module AqlQueue {
  const Slots: nat := 1024
  const MaxPending: nat := 900
  const KernargBytes: nat := 0x10_0000
  const ArgBytes: nat := 64

  // A kernel's arguments; what they mean does not matter here.
  type Args = int

  // A dispatch names its argument slot and, for the specification, what was written there.
  datatype Packet = Dispatch(arg: nat, args: Args) | Barrier

  // What the producer does next: nothing in hand, arguments written for a dispatch, or waiting for the barrier at an
  // index.
  datatype Host = Ready | Written(arg: nat, args: Args, ordered: bool) | Waiting(barrier: nat)

  datatype State = State(
    host: Host, pending: nat, kernargUsed: nat,
    packets: seq<Packet>,        // every packet so far; the next index is its length
    outstanding: set<nat>,       // submitted and not yet retired
    ring: map<nat, Packet>,      // what each ring slot holds
    kernarg: map<nat, Args>)     // what each argument slot holds

  datatype Step =
    | WriteArgs(args: Args, ordered: bool)   // `go` fills the next argument slot
    | OrderBarrier                           // `go` orders the dispatch behind earlier ones
    | Publish                                // `go` submits the dispatch
    | StartSync                              // `sync` submits its barrier
    | EndSync                                // `sync` sees its signal
    | Retire(index: nat)                     // the device

  function Init(): State { State(Ready, 0, 0, [], {}, map[], map[]) }

  // Full enough that `go` syncs first.
  predicate MustSync(s: State) { s.pending >= MaxPending || s.kernargUsed + 4096 > KernargBytes }

  predicate Enabled(s: State, step: Step) {
    match step
    case WriteArgs(_, _) => s.host == Ready && !MustSync(s)
    case OrderBarrier => s.host.Written? && s.host.ordered
    case Publish => s.host.Written? && !s.host.ordered
    case StartSync => s.host == Ready
    case EndSync => s.host.Waiting? && s.host.barrier !in s.outstanding
    case Retire(i) =>
      // A barrier waits for everything before it, and everything after a barrier waits for it.
      && i in s.outstanding && i < |s.packets|
      && (forall j :: j in s.outstanding && j < i ==>
          j < |s.packets| && s.packets[i].Dispatch? && s.packets[j].Dispatch?)
  }

  // Publishing a packet overwrites whatever its slot held.
  function Submit(s: State, p: Packet): State {
    var n := |s.packets|;
    s.(packets := s.packets + [p], outstanding := s.outstanding + {n}, ring := s.ring[n % Slots := p])
  }

  function Apply(s: State, step: Step): State
    requires Enabled(s, step)
  {
    match step
    case WriteArgs(args, ordered) =>
      var arg := s.kernargUsed / ArgBytes;
      s.(host := Written(arg, args, ordered), kernargUsed := s.kernargUsed +
        ArgBytes, kernarg := s.kernarg[arg := args])
    case OrderBarrier => Submit(s, Barrier).(host := s.host.(ordered := false), pending := s.pending + 1)
    case Publish => Submit(s, Dispatch(s.host.arg, s.host.args)).(host := Ready, pending := s.pending + 1)
    case StartSync => Submit(s, Barrier).(host := Waiting(|s.packets|))
    case EndSync => s.(host := Ready, pending := 0, kernargUsed := 0)
    case Retire(i) => s.(outstanding := s.outstanding - {i})
  }

  ghost predicate Legal(s: State, steps: seq<Step>)
    decreases |steps|
  { steps == [] || (Enabled(s, steps[0]) && Legal(Apply(s, steps[0]), steps[1..])) }

  ghost function Run(s: State, steps: seq<Step>): State
    requires Legal(s, steps)
    decreases |steps|
  { if steps == [] then s else Run(Apply(s, steps[0]), steps[1..]) }

  // ----- Safety -----

  // An unretired packet is still in its slot, and its arguments are still as written.
  predicate Intact(s: State, i: nat) {
    i in s.outstanding ==>
      && i < |s.packets| && i % Slots in s.ring && s.ring[i % Slots] == s.packets[i]
      && (s.packets[i].Dispatch? ==> s.packets[i].arg in s.kernarg && s.kernarg[s.packets[i].arg] == s.packets[i].args)
  }

  // Neither the next ring slot nor the next argument slot belongs to an unretired packet.
  predicate Clear(s: State, i: nat) {
    i in s.outstanding && i < |s.packets| ==>
      && (s.host.Written? || s.host == Ready ==> i % Slots != |s.packets| % Slots)
      && (s.host == Ready && !MustSync(s) && s.packets[i].Dispatch? ==> s.packets[i].arg != s.kernargUsed / ArgBytes)
  }

  // ----- Invariant -----

  // The packets since the last sync: those counted, and the barrier being waited for.
  function Recent(s: State): nat { s.pending + if s.host.Waiting? then 1 else 0 }

  // An unretired packet is recent, and its argument slot is below the mark.
  predicate PacketOk(s: State, i: nat) {
    i in s.outstanding ==>
      && i < |s.packets| <= i + Recent(s)
      && (s.packets[i].Dispatch? ==> s.packets[i].arg * ArgBytes < ArgsDone(s))
  }

  // The mark, not counting a slot whose dispatch is not submitted yet.
  function ArgsDone(s: State): int { s.kernargUsed - if s.host.Written? then ArgBytes else 0 }

  predicate HostOk(s: State) {
    match s.host
    case Ready => s.pending <= MaxPending + 1
    case Written(arg, args, ordered) =>
      && s.pending + (if ordered then 2 else 1) <= MaxPending + 1
      && s.kernargUsed == arg * ArgBytes + ArgBytes && arg in s.kernarg && s.kernarg[arg] == args
    case Waiting(barrier) =>
      && s.pending <= MaxPending + 1 && barrier + 1 == |s.packets| && s.packets[barrier] == Barrier
      && (barrier !in s.outstanding ==> s.outstanding == {})
  }

  ghost predicate Inv(s: State) {
    && (forall i: nat :: Intact(s, i)) && (forall i: nat :: PacketOk(s, i)) && HostOk(s)
    && s.kernargUsed % ArgBytes == 0 && s.kernargUsed <= KernargBytes
  }

  lemma SubmitKeepsPackets(s: State, t: State, p: Packet, i: nat)
    requires Intact(s, i) && PacketOk(s, i) && Recent(s) < Slots
    requires t.packets == s.packets + [p] && t.outstanding == s.outstanding + {|s.packets|}
    requires t.ring == s.ring[|s.packets| % Slots := p]
    requires t.kernarg == s.kernarg && Recent(t) == Recent(s) + 1 && ArgsDone(t) >= ArgsDone(s)
    requires p.Dispatch? ==> p.arg * ArgBytes < ArgsDone(t) && p.arg in s.kernarg && s.kernarg[p.arg] == p.args
    ensures Intact(t, i) && PacketOk(t, i)
  {}

  lemma StepKeepsInv(s: State, step: Step)
    requires Inv(s) && Enabled(s, step)
    ensures Inv(Apply(s, step))
  {
    var t := Apply(s, step);
    forall i: nat ensures Intact(t, i) && PacketOk(t, i) {
      assert Intact(s, i) && PacketOk(s, i);
      if step.OrderBarrier? || step.StartSync? {
        SubmitKeepsPackets(s, t, Barrier, i);
      } else if step.Publish? {
        SubmitKeepsPackets(s, t, Dispatch(s.host.arg, s.host.args), i);
      }
    }
    if step.Retire? && s.host.Waiting? && step.index == s.host.barrier {
      forall j | j in s.outstanding ensures j == step.index { assert PacketOk(s, j); }
    }
  }

  lemma {:induction false} RunKeepsInv(s: State, steps: seq<Step>)
    requires Inv(s) && Legal(s, steps)
    ensures Inv(Run(s, steps))
    decreases |steps|
  {
    if steps != [] {
      StepKeepsInv(s, steps[0]);
      RunKeepsInv(Apply(s, steps[0]), steps[1..]);
    }
  }

  // ----- Over every run -----

  /** In every run, every unretired packet and its arguments are as they were submitted. */
  lemma UnretiredPacketsAreIntact(steps: seq<Step>, i: nat)
    requires Legal(Init(), steps)
    ensures Intact(Run(Init(), steps), i)
  {
    RunKeepsInv(Init(), steps);
  }

  /** In every run, the slots about to be written belong to no unretired packet. */
  lemma SlotsAreFreeBeforeReuse(steps: seq<Step>, i: nat)
    requires Legal(Init(), steps)
    ensures Clear(Run(Init(), steps), i)
  {
    RunKeepsInv(Init(), steps);
    var s := Run(Init(), steps);
    assert PacketOk(s, i);
  }

  lemma {:induction false} CountBelow(items: set<nat>, low: nat, n: nat)
    requires forall i :: i in items ==> low <= i < low + n
    ensures |items| <= n
  {
    if n == 0 {
      assert forall x :: x in items ==> low <= x < low;
    } else {
      var last := low + n - 1;
      CountBelow(items - {last}, low, n - 1);
    }
  }

  /** In every run at most 902 packets are unretired, order barriers and the sync barrier included: the ring has 1024
      slots. */
  lemma TheRingNeverOverflows(steps: seq<Step>)
    requires Legal(Init(), steps)
    ensures |Run(Init(), steps).outstanding| <= MaxPending + 2 < Slots
  {
    RunKeepsInv(Init(), steps);
    var s := Run(Init(), steps);
    var low := if |s.packets| < Recent(s) then 0 else |s.packets| - Recent(s);
    forall i | i in s.outstanding ensures low <= i < low + Recent(s) { assert PacketOk(s, i); }
    CountBelow(s.outstanding, low, Recent(s));
  }
}
