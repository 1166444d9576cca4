/** Warming the tiers at boot from a list of hot experts. `preload` starts fetches and promotions without looking
    whether the expert is resident or busy, so what it does is a run of the residency protocol for some lists and not
    for all. */
module ResidencyPreload {
  import opened Options
  import opened Arithmetic
  import opened ResidencyProtocol

  const DEMAND_CAP := 32

  datatype Item = Item(e: nat, uses: nat)

  // Where the main thread is: before item `i`, past setting its demand, waiting for it to load, waiting for its
  // promotion, waiting for the last fetches, or done; or it has asked for a copy from a RAM slot that does not exist.
  datatype Phase =
    | Next(i: nat) | Heated(i: nat) | Loading(i: nat) | Settling(i: nat) | Draining | Ended(ok: bool) | Astray

  datatype Main = Main(s: State, phase: Phase)

  datatype Move =
    | Background(step: Step)         // a worker, or a report adopted
    | Heat
    | Load(slot: Option<nat>)        // `load_now`
    | Promote(slot: Option<nat>)
    | Settle
    | Fetch(slot: Option<nat>)
    | Drain
    | Finish

  // As many items as there are VRAM slots go to VRAM, the rest to RAM.
  function WarmCount(s: State, hot: seq<Item>): nat { Min(|s.vram.owner|, |hot|) }

  predicate IsCold(s: State, e: nat) { s.Expert(e) && s.ram.at[e] == None && s.vram.at[e] == None }

  // What the search for a slot returned: one it may return, or none if there is none.
  ghost predicate RamFound(s: State, slot: Option<nat>) {
    match slot
    case Some(i) => s.RamChoice(i, U32_MAX)
    case None => forall i: nat :: !s.RamChoice(i, U32_MAX)
  }

  ghost predicate VramFound(s: State, slot: Option<nat>, limit: nat) {
    match slot
    case Some(i) => s.VramChoice(i, limit)
    case None => forall i: nat :: !s.VramChoice(i, limit)
  }

  // `start_fetch` and `start_promote` as they are: nothing is asked of the expert.
  ghost function FetchAnyway(s: State, e: nat, slot: nat): State
    requires s.Expert(e) && s.RamChoice(slot, U32_MAX)
  {
    s.(ram := s.ram.TakeFor(slot, e), busy := s.busy[e := true], queued := s.queued + 1,
       jobs := s.jobs[e := Fetching(slot)])
  }

  ghost function PromoteAnyway(s: State, e: nat, slot: nat): State
    requires s.Expert(e) && s.VramChoice(slot, s.demand[e]) && s.ram.at[e].Some?
  {
    s.(vram := s.vram.TakeFor(slot, e), busy := s.busy[e := true], queued := s.queued + 1,
       jobs := s.jobs[e := Copying(s.ram.at[e].value, slot)])
  }

  ghost predicate CanMove(p: Main, hot: seq<Item>, move: Move) {
    match move
    case Background(step) => !p.phase.Ended? && !p.phase.Astray? && WhileWaiting(step) && Enabled(p.s, step)
    case Heat => p.phase.Next? && p.phase.i < |hot| && p.s.Expert(hot[p.phase.i].e)
    case Load(slot) =>
      && p.phase.Heated? && p.phase.i < WarmCount(p.s, hot) && p.s.Expert(hot[p.phase.i].e)
      && (IsCold(p.s, hot[p.phase.i].e) && !p.s.busy[hot[p.phase.i].e] ==> RamFound(p.s, slot))
    case Promote(slot) =>
      && p.phase.Loading? && p.phase.i < |hot| && p.s.Expert(hot[p.phase.i].e) && !IsCold(p.s, hot[p.phase.i].e)
      && VramFound(p.s, slot, p.s.demand[hot[p.phase.i].e])
    case Settle => p.phase.Settling? && p.phase.i < |hot| && p.s.Expert(hot[p.phase.i].e) && !p.s.busy[hot[p.phase.i].e]
    case Fetch(slot) =>
      && p.phase.Heated? && WarmCount(p.s, hot) <= p.phase.i < |hot| && p.s.Expert(hot[p.phase.i].e)
      && p.s.queued < MAX_QUEUED && RamFound(p.s, slot)
    case Drain => p.phase == Next(|hot|)
    case Finish => p.phase == Draining && p.s.queued == 0
  }

  ghost function After(p: Main, hot: seq<Item>, move: Move): Main
    requires CanMove(p, hot, move)
  {
    match move
    case Background(step) => p.(s := Apply(p.s, step))
    case Heat =>
      var item := hot[p.phase.i];
      Main(Apply(p.s, SetDemand(item.e, Min(item.uses, DEMAND_CAP))), Heated(p.phase.i))
    case Load(slot) =>
      var e := hot[p.phase.i].e;
      if !IsCold(p.s, e) || p.s.busy[e] then p.(phase := Loading(p.phase.i))
      else if slot.None? then p.(phase := Ended(false))
      else Main(FetchAnyway(p.s, e, slot.value), Loading(p.phase.i))
    case Promote(slot) =>
      var e := hot[p.phase.i].e;
      if slot.None? then p.(phase := Settling(p.phase.i))
      else if p.s.ram.at[e].None? then p.(phase := Astray)
      else Main(PromoteAnyway(p.s, e, slot.value), Settling(p.phase.i))
    case Settle => p.(phase := Next(p.phase.i + 1))
    case Fetch(slot) =>
      if slot.None? then p.(phase := Draining)
      else Main(FetchAnyway(p.s, hot[p.phase.i].e, slot.value), Next(p.phase.i + 1))
    case Drain => p.(phase := Draining)
    case Finish => p.(phase := Ended(true))
  }

  ghost predicate CanPlay(p: Main, hot: seq<Item>, moves: seq<Move>)
    decreases |moves|
  { moves == [] || (CanMove(p, hot, moves[0]) && CanPlay(After(p, hot, moves[0]), hot, moves[1..])) }

  ghost function Play(p: Main, hot: seq<Item>, moves: seq<Move>): Main
    requires CanPlay(p, hot, moves)
    decreases |moves|
  { if moves == [] then p else Play(After(p, hot, moves[0]), hot, moves[1..]) }

  // ----- Lists that are fine -----

  // Cold, and no job is under way for it.
  predicate Untouched(s: State, e: nat) { IsCold(s, e) && !s.busy[e] && e !in s.jobs }

  ghost predicate Distinct(hot: seq<Item>) { forall i, j :: 0 <= i < j < |hot| ==> hot[i].e != hot[j].e }

  ghost predicate UntouchedFrom(s: State, hot: seq<Item>, i: nat) {
    forall j :: i <= j < |hot| ==> Untouched(s, hot[j].e)
  }

  // The item that `load_now` waits for is being fetched, or is in RAM and idle.
  predicate BeingLoaded(s: State, e: nat) {
    && s.Expert(e) && s.vram.at[e] == None
    && (if e in s.jobs then s.jobs[e].IsFetch() else s.ram.at[e].Some? && !s.busy[e])
  }

  ghost predicate PreloadInv(p: Main, hot: seq<Item>) {
    && Inv(p.s) && Distinct(hot)
    && match p.phase
       case Next(i) => i <= |hot| && UntouchedFrom(p.s, hot, i)
       case Heated(i) => i < |hot| && UntouchedFrom(p.s, hot, i)
       case Loading(i) => i < |hot| && BeingLoaded(p.s, hot[i].e) && UntouchedFrom(p.s, hot, i + 1)
       case Settling(i) => i < |hot| && UntouchedFrom(p.s, hot, i + 1)
       case Draining => true
       case Ended(_) => true
       case Astray => false
  }

  // The protocol step that a move is, if it is one.
  ghost function StepsOf(p: Main, hot: seq<Item>, move: Move): seq<Step>
    requires CanMove(p, hot, move)
  {
    match move
    case Background(step) => [step]
    case Heat => [SetDemand(hot[p.phase.i].e, Min(hot[p.phase.i].uses, DEMAND_CAP))]
    case Load(slot) =>
      if IsCold(p.s, hot[p.phase.i].e) && !p.s.busy[hot[p.phase.i].e] && slot.Some?
      then [StartFetch(hot[p.phase.i].e, slot.value, U32_MAX)] else []
    case Promote(slot) => if slot.Some? then [StartPromote(hot[p.phase.i].e, slot.value)] else []
    case Fetch(slot) => if slot.Some? then [StartFetch(hot[p.phase.i].e, slot.value, U32_MAX)] else []
    case Settle => []
    case Drain => []
    case Finish => []
  }

  // A step that starts no job for an untouched expert leaves it untouched.
  lemma StepLeavesUntouched(s: State, step: Step, e: nat)
    requires Inv(s) && Enabled(s, step) && Untouched(s, e)
    requires !((step.StartFetch? || step.StartPromote?) && step.e == e)
    ensures Untouched(Apply(s, step), e)
  {
    assert step.Adopt? ==> JobOk(s, step.e);
  }

  lemma StepKeepsLoading(s: State, step: Step, e: nat)
    requires Inv(s) && Enabled(s, step) && WhileWaiting(step) && BeingLoaded(s, e)
    ensures BeingLoaded(Apply(s, step), e)
  {
    if step.Adopt? { assert JobOk(s, step.e); }
  }

  // Nothing under way for it, a loaded expert can be promoted.
  lemma LoadedCanBePromoted(s: State, e: nat)
    requires Inv(s) && BeingLoaded(s, e) && !IsCold(s, e)
    ensures !s.busy[e] && s.ram.at[e].Some? && s.vram.at[e] == None
  {}

  lemma MoveIsAStep(p: Main, hot: seq<Item>, move: Move)
    requires PreloadInv(p, hot) && CanMove(p, hot, move)
    ensures Legal(p.s, StepsOf(p, hot, move)) && Run(p.s, StepsOf(p, hot, move)) == After(p, hot, move).s
  {
    if move.Promote? { LoadedCanBePromoted(p.s, hot[p.phase.i].e); }
    var steps := StepsOf(p, hot, move);
    if steps != [] {
      assert steps[1..] == [];
      assert Enabled(p.s, steps[0]);
      assert Apply(p.s, steps[0]) == After(p, hot, move).s;
    }
  }

  lemma StepLeavesRest(s: State, step: Step, hot: seq<Item>, i: nat)
    requires Inv(s) && Enabled(s, step) && UntouchedFrom(s, hot, i)
    requires (step.StartFetch? || step.StartPromote?) ==> forall j :: i <= j < |hot| ==> hot[j].e != step.e
    ensures UntouchedFrom(Apply(s, step), hot, i)
  {
    forall j | i <= j < |hot| ensures Untouched(Apply(s, step), hot[j].e) { StepLeavesUntouched(s, step, hot[j].e); }
  }

  lemma BackgroundKeepsInv(p: Main, hot: seq<Item>, step: Step)
    requires PreloadInv(p, hot) && CanMove(p, hot, Background(step))
    ensures PreloadInv(After(p, hot, Background(step)), hot)
  {
    StepKeepsInv(p.s, step);
    match p.phase
    case Next(i) => StepLeavesRest(p.s, step, hot, i);
    case Heated(i) => StepLeavesRest(p.s, step, hot, i);
    case Loading(i) => StepKeepsLoading(p.s, step, hot[i].e); StepLeavesRest(p.s, step, hot, i + 1);
    case Settling(i) => StepLeavesRest(p.s, step, hot, i + 1);
    case Draining =>
  }

  lemma HeatKeepsInv(p: Main, hot: seq<Item>)
    requires PreloadInv(p, hot) && CanMove(p, hot, Heat)
    ensures PreloadInv(After(p, hot, Heat), hot)
  {
    var step := SetDemand(hot[p.phase.i].e, Min(hot[p.phase.i].uses, DEMAND_CAP));
    StepKeepsInv(p.s, step);
    StepLeavesRest(p.s, step, hot, p.phase.i);
  }

  // A fetch started for the item at hand is a step, and leaves the later items alone.
  lemma FetchIsAStep(s: State, hot: seq<Item>, i: nat, slot: nat)
    requires Inv(s) && Distinct(hot) && i < |hot| && UntouchedFrom(s, hot, i) && s.RamChoice(slot, U32_MAX)
    ensures var t := FetchAnyway(s, hot[i].e, slot);
      Inv(t) && UntouchedFrom(t, hot, i + 1) && BeingLoaded(t, hot[i].e)
  {
    var step := StartFetch(hot[i].e, slot, U32_MAX);
    assert Untouched(s, hot[i].e) && Enabled(s, step);
    StepKeepsInv(s, step);
    StepLeavesRest(s, step, hot, i + 1);
  }

  lemma PromoteKeepsInv(p: Main, hot: seq<Item>, slot: Option<nat>)
    requires PreloadInv(p, hot) && CanMove(p, hot, Promote(slot))
    ensures PreloadInv(After(p, hot, Promote(slot)), hot)
  {
    var i := p.phase.i;
    LoadedCanBePromoted(p.s, hot[i].e);
    if slot.Some? {
      var step := StartPromote(hot[i].e, slot.value);
      StepKeepsInv(p.s, step);
      StepLeavesRest(p.s, step, hot, i + 1);
    }
  }

  lemma MoveKeepsInv(p: Main, hot: seq<Item>, move: Move)
    requires PreloadInv(p, hot) && CanMove(p, hot, move)
    ensures PreloadInv(After(p, hot, move), hot)
  {
    match move
    case Background(step) => BackgroundKeepsInv(p, hot, step);
    case Heat => HeatKeepsInv(p, hot);
    case Load(slot) =>
      assert Untouched(p.s, hot[p.phase.i].e);
      if slot.Some? { FetchIsAStep(p.s, hot, p.phase.i, slot.value); }
    case Fetch(slot) => if slot.Some? { FetchIsAStep(p.s, hot, p.phase.i, slot.value); }
    case Promote(slot) => PromoteKeepsInv(p, hot, slot);
    case Settle =>
    case Drain =>
    case Finish =>
  }

  lemma {:induction false} RunJoins(s: State, a: seq<Step>, b: seq<Step>)
    requires Legal(s, a) && Legal(Run(s, a), b)
    ensures Legal(s, a + b) && Run(s, a + b) == Run(Run(s, a), b)
    decreases |a|
  {
    if a == [] {
      assert a + b == b;
    } else {
      assert (a + b)[1..] == a[1..] + b;
      RunJoins(Apply(s, a[0]), a[1..], b);
    }
  }

  ghost function Trace(p: Main, hot: seq<Item>, moves: seq<Move>): seq<Step>
    requires CanPlay(p, hot, moves)
    decreases |moves|
  { if moves == [] then [] else StepsOf(p, hot, moves[0]) + Trace(After(p, hot, moves[0]), hot, moves[1..]) }

  /** For a list of distinct experts that are cold and idle, everything `preload` does, in every schedule, is a run of
      the protocol, and it never copies from a slot that does not exist. */
  lemma {:induction false} PreloadIsARun(p: Main, hot: seq<Item>, moves: seq<Move>)
    requires PreloadInv(p, hot) && CanPlay(p, hot, moves)
    ensures Legal(p.s, Trace(p, hot, moves)) && Run(p.s, Trace(p, hot, moves)) == Play(p, hot, moves).s
    ensures Inv(Play(p, hot, moves).s) && !Play(p, hot, moves).phase.Astray?
    decreases |moves|
  {
    if moves != [] {
      MoveIsAStep(p, hot, moves[0]);
      MoveKeepsInv(p, hot, moves[0]);
      var q := After(p, hot, moves[0]);
      PreloadIsARun(q, hot, moves[1..]);
      RunJoins(p.s, StepsOf(p, hot, moves[0]), Trace(q, hot, moves[1..]));
    }
  }

  // At boot every list of distinct experts is fine.
  lemma BootIsFine(s: State, hot: seq<Item>)
    requires Start(s) && Distinct(hot) && forall i :: 0 <= i < |hot| ==> hot[i].e < |s.catalog|
    ensures PreloadInv(Main(s, Next(0)), hot)
  {
    StartEstablishesInv(s);
  }

  /** One lost fetch and `preload` never returns: it waits for reports until none is outstanding. */
  lemma {:induction false} LostFetchHangsPreload(p: Main, hot: seq<Item>, moves: seq<Move>, e: nat)
    requires PreloadInv(p, hot) && CanPlay(p, hot, moves) && IsLost(p.s, e) && !p.phase.Ended?
    ensures Play(p, hot, moves).phase != Ended(true)
    decreases |moves|
  {
    if moves != [] {
      var q := After(p, hot, moves[0]);
      MoveIsAStep(p, hot, moves[0]);
      MoveKeepsInv(p, hot, moves[0]);
      LostFetchStaysCold(p.s, StepsOf(p, hot, moves[0]), e);
      assert e in p.s.jobs.Keys;
      if q.phase.Ended? {
        EndedStays(q, hot, moves[1..]);
      } else {
        LostFetchHangsPreload(q, hot, moves[1..], e);
      }
    }
  }

  lemma EndedStays(p: Main, hot: seq<Item>, moves: seq<Move>)
    requires CanPlay(p, hot, moves) && p.phase.Ended?
    ensures moves == []
  {}

  // ----- Lists that are not -----

  // The slot goes to its own expert again.
  lemma RetakeKeepsTier(t: Tier, catalog: seq<Bytes>, reserved: map<nat, nat>, slot: nat, e: nat)
    requires TierInv(t, catalog, reserved) && e < |t.at| && t.at[e] == Some(slot) && e !in reserved && t.free == []
    ensures slot < |t.owner| && t.owner[slot] == Some(e)
    ensures TierInv(t.TakeFor(slot, e), catalog, reserved[e := slot])
  {
    assert ExpertOk(t, catalog, reserved, e);
    var t', after := t.TakeFor(slot, e), reserved[e := slot];
    forall f | 0 <= f < |t'.at| ensures ExpertOk(t', catalog, after, f) { assert ExpertOk(t, catalog, reserved, f); }
    forall i | 0 <= i < |t'.owner| ensures SlotOk(t', after, i) { assert SlotOk(t, reserved, i); }
  }

  // An expert that is idle, not in VRAM, and in RAM at most in the very slot it is given.
  predicate FitToFetch(s: State, e: nat, slot: nat)
    requires s.Expert(e)
  { !s.busy[e] && s.vram.at[e] == None && (s.ram.at[e] == None || s.ram.at[e] == Some(slot)) }

  lemma FitKeepsInv(s: State, e: nat, slot: nat)
    requires Inv(s) && s.Expert(e) && s.RamChoice(slot, U32_MAX) && FitToFetch(s, e, slot)
    ensures Inv(FetchAnyway(s, e, slot))
  {
    if s.ram.at[e] == None {
      assert Enabled(s, StartFetch(e, slot, U32_MAX));
      StepKeepsInv(s, StartFetch(e, slot, U32_MAX));
    } else {
      RefetchKeepsInv(s, e, slot);
    }
  }

  lemma RefetchKeepsTiers(t: Tier, catalog: seq<Bytes>, jobs: map<nat, Job>, slot: nat, e: nat)
    requires TierInv(t, catalog, RamReserved(jobs)) && e < |t.at| && t.at[e] == Some(slot) && e !in jobs && t.free == []
    ensures slot < |t.owner| && t.owner[slot] == Some(e)
    ensures TierInv(t.TakeFor(slot, e), catalog, RamReserved(jobs[e := Fetching(slot)]))
    ensures VramReserved(jobs[e := Fetching(slot)]) == VramReserved(jobs)
  {
    ReservedAfterUpdate(jobs, e, Fetching(slot));
    assert VramReserved(jobs) - {e} == VramReserved(jobs);
    RetakeKeepsTier(t, catalog, RamReserved(jobs), slot, e);
  }

  lemma RefetchKeepsJobs(s: State, e: nat, slot: nat)
    requires JobsInv(s) && s.Expert(e) && s.RamChoice(slot, U32_MAX) && |s.ram.owner| == |s.ram.mem|
    requires !s.busy[e] && s.vram.at[e] == None && s.ram.free == [] && s.ram.owner[slot] == Some(e)
    ensures JobsInv(FetchAnyway(s, e, slot))
  {
    var t := FetchAnyway(s, e, slot);
    JobsAfterStart(s, t, e, Fetching(slot));
    forall f | f in t.jobs ensures JobOk(t, f) { RefetchKeepsJob(s, e, slot, f); }
  }

  lemma RefetchKeepsInv(s: State, e: nat, slot: nat)
    requires Inv(s) && s.Expert(e) && s.RamChoice(slot, U32_MAX)
    requires !s.busy[e] && s.vram.at[e] == None && s.ram.at[e] == Some(slot)
    ensures Inv(FetchAnyway(s, e, slot))
  {
    assert ExpertOk(s.ram, s.catalog, RamReserved(s.jobs), e);
    RefetchKeepsTiers(s.ram, s.catalog, s.jobs, slot, e);
    RefetchKeepsJobs(s, e, slot);
  }

  lemma RefetchKeepsJob(s: State, e: nat, slot: nat, f: nat)
    requires JobsInv(s) && s.Expert(e) && s.RamChoice(slot, U32_MAX) && |s.ram.owner| == |s.ram.mem|
    requires !s.busy[e] && s.vram.at[e] == None && s.ram.free == [] && s.ram.owner[slot] == Some(e)
    requires f in s.jobs || f == e
    ensures f in FetchAnyway(s, e, slot).jobs && JobOk(FetchAnyway(s, e, slot), f)
  {
    assert f != e ==> JobOk(s, f);
  }

  lemma UnfitBreaksInv(s: State, e: nat, slot: nat)
    requires Inv(s) && s.Expert(e) && s.RamChoice(slot, U32_MAX) && !FitToFetch(s, e, slot)
    ensures !Inv(FetchAnyway(s, e, slot))
  {
    var t := FetchAnyway(s, e, slot);
    if s.busy[e] {
      assert t.jobs.Keys == s.jobs.Keys;
      assert |t.jobs| == |t.jobs.Keys| && |s.jobs| == |s.jobs.Keys|;
    } else {
      assert SlotOk(s.ram, RamReserved(s.jobs), slot);
      assert !JobOk(t, e);
    }
  }

  /** A fetch that `preload` starts keeps the invariant if and only if its expert is fit for it. */
  lemma FetchKeepsInvIff(s: State, e: nat, slot: nat)
    requires Inv(s) && s.Expert(e) && s.RamChoice(slot, U32_MAX)
    ensures Inv(FetchAnyway(s, e, slot)) <==> FitToFetch(s, e, slot)
  {
    if FitToFetch(s, e, slot) { FitKeepsInv(s, e, slot); } else { UnfitBreaksInv(s, e, slot); }
  }

  /** An expert listed twice, at boot, with no VRAM: two RAM slots have it as their owner. Its second fetch writes slot
      1, and the search of `adopt` for its slot finds slot 0. */
  lemma ListedTwiceOwnsTwoSlots(s: State, hot: seq<Item>, moves: seq<Move>, e: nat)
    requires Start(s) && e < |s.catalog| && |s.vram.owner| == 0 && |s.ram.owner| >= 2
    requires |hot| == 2 && hot[0].e == hot[1].e == e && moves == [Heat, Fetch(Some(0)), Heat, Fetch(Some(1))]
    ensures CanPlay(Main(s, Next(0)), hot, moves)
    ensures var t := Play(Main(s, Next(0)), hot, moves).s;
      && [Some(e), Some(e)] <= t.ram.owner && t.jobs == map[e := Fetching(1)] && t.queued == 2 && !Inv(t)
  {
    var p := Main(s, Next(0));
    var q := FetchNextAtBoot(p, hot, 0);
    var r := FetchNextAtBoot(q, hot, 1);
    PlayTwo(q, hot, moves[2..]);
    PlayTwo(p, hot, moves);
  }

  lemma PlayTwo(p: Main, hot: seq<Item>, moves: seq<Move>)
    requires |moves| >= 2 && CanMove(p, hot, moves[0]) && CanMove(After(p, hot, moves[0]), hot, moves[1])
    ensures var q := After(After(p, hot, moves[0]), hot, moves[1]);
      && (|moves| == 2 ==> CanPlay(q, hot, moves[2..]) && Play(q, hot, moves[2..]) == q)
      && (CanPlay(q, hot, moves[2..]) ==> CanPlay(p, hot, moves) && Play(p, hot, moves) == Play(q, hot, moves[2..]))
  {
    assert moves[1..][1..] == moves[2..];
  }

  // With `n` slots taken from the bottom of the free list, the next item is given slot `n`.
  lemma FetchNextAtBoot(p: Main, hot: seq<Item>, n: nat) returns (q: Main)
    requires p.phase == Next(n) && n < |hot| && p.s.Expert(hot[n].e) && |p.s.vram.owner| == 0
    requires n < |p.s.ram.owner| && p.s.queued < MAX_QUEUED && |p.s.ram.free| == |p.s.ram.owner| - n
    requires p.s.ram.free[|p.s.ram.free| - 1] == n
    ensures CanMove(p, hot, Heat) && CanMove(After(p, hot, Heat), hot, Fetch(Some(n)))
    ensures q == After(After(p, hot, Heat), hot, Fetch(Some(n))) && q.phase == Next(n + 1)
    ensures q.s.ram.owner == p.s.ram.owner[n := Some(hot[n].e)] && q.s.ram.free == p.s.ram.free[..|p.s.ram.free| - 1]
    ensures q.s.jobs == p.s.jobs[hot[n].e := Fetching(n)] && q.s.queued == p.s.queued + 1
    ensures q.s.Expert(hot[n].e) && |q.s.vram.owner| == 0
  {
    var h := After(p, hot, Heat);
    assert h.s.ram == p.s.ram && h.s.RamChoice(n, U32_MAX);
    q := After(h, hot, Fetch(Some(n)));
  }
}
