/** Expert residency as a protocol of three threads. The main thread owns the slot tables; the fetcher
    and the copier write slot memory and report back. The channels are a map from an expert to its one
    outstanding job, so jobs may run and reports may arrive in any order. */
module ResidencyProtocol {
  import opened Options
  import opened Arithmetic

  const DECAY_TICKS := 256 * 40
  const PROMOTE_AFTER := 2
  const MAX_QUEUED := 16
  const U32_MAX := 0xFFFF_FFFF

  // The contents of one slot, or of one expert in the catalog.
  datatype Bytes = Bytes(raw: seq<bv8>)

  // One memory tier: `at` maps experts to slots, `owner` maps slots back, `mem` is what slots hold.
  datatype Tier = Tier(at: seq<Option<nat>>, owner: seq<Option<nat>>, free: seq<nat>, mem: seq<Bytes>) {
    predicate HasExpert(e: nat) { e < |at| && at[e].Some? }

    // Give `slot` to expert `e`: from the free list if any slot is there, else from its owner.
    function TakeFor(slot: nat, e: nat): Tier
      requires slot < |owner|
      requires free == [] ==> owner[slot].Some? && owner[slot].value < |at|
    {
      if free != [] then this.(free := free[..|free| - 1], owner := owner[slot := Some(e)])
      else this.(at := at[owner[slot].value := None], owner := owner[slot := Some(e)])
    }

    function Write(slot: nat, b: Bytes): Tier
      requires slot < |mem|
    {
      this.(mem := mem[slot := b])
    }

    function Map(e: nat, slot: nat): Tier
      requires e < |at|
    {
      this.(at := at[e := Some(slot)])
    }
  }

  // An expert's outstanding job. A failed read reports nothing, so its job is lost for good.
  datatype Job =
    | Fetching(slot: nat) | Fetched(slot: nat) | FetchLost(slot: nat)
    | Copying(src: nat, dst: nat) | Copied(src: nat, dst: nat)
  {
    predicate IsFetch() { Fetching? || Fetched? || FetchLost? }
  }

  datatype State = State(
    catalog: seq<Bytes>, vram: Tier, ram: Tier,
    demand: seq<nat>, busy: seq<bool>, used: seq<nat>, tick: nat, queued: nat, jobs: map<nat, Job>)
  {
    predicate Expert(e: nat) {
      e < |catalog| && e < |busy| && e < |used| && e < |demand| && e < |ram.at| && e < |vram.at|
    }

    // A resident expert that no worker holds and this layer does not run.
    predicate Evictable(owner: Option<nat>) {
      owner.Some? && Expert(owner.value) && !busy[owner.value] && used[owner.value] != tick
    }

    // An expert also in VRAM can still run if its RAM copy goes, so it leaves first.
    function RamCost(owner: nat): nat
      requires Expert(owner)
    {
      if vram.at[owner].Some? then 0 else if demand[owner] < U32_MAX then demand[owner] + 1 else U32_MAX
    }

    function VramCost(owner: nat): nat
      requires Expert(owner)
    {
      demand[owner]
    }

    // `slot` is what the slot search returns for an expert of this demand.
    ghost predicate RamChoice(slot: nat, limit: nat) {
      && slot < |ram.owner|
      && if ram.free != [] then slot == ram.free[|ram.free| - 1]
         else && Evictable(ram.owner[slot]) && RamCost(ram.owner[slot].value) <= limit
              && forall i :: 0 <= i < |ram.owner| && Evictable(ram.owner[i]) ==>
                   if i < slot then RamCost(ram.owner[slot].value) < RamCost(ram.owner[i].value)
                   else RamCost(ram.owner[slot].value) <= RamCost(ram.owner[i].value)
    }

    ghost predicate VramChoice(slot: nat, limit: nat) {
      && slot < |vram.owner|
      && if vram.free != [] then slot == vram.free[|vram.free| - 1]
         else && Evictable(vram.owner[slot]) && VramCost(vram.owner[slot].value) < limit
              && forall i :: 0 <= i < |vram.owner| && Evictable(vram.owner[i]) ==>
                   if i < slot then VramCost(vram.owner[slot].value) < VramCost(vram.owner[i].value)
                   else VramCost(vram.owner[slot].value) <= VramCost(vram.owner[i].value)
    }
  }

  datatype Step =
    | BeginLayer
    | SetDemand(e: nat, demand: nat)
    | Use(e: nat)
    | StartFetch(e: nat, slot: nat, limit: nat)
    | StartPromote(e: nat, slot: nat)
    | Scribble(e: nat, b: Bytes)     // a worker is part-way through writing its job's slot
    | FinishFetch(e: nat)
    | LoseFetch(e: nat)
    | FinishCopy(e: nat)
    | Adopt(e: nat)

  function Decayed(demand: seq<nat>): seq<nat> { seq(|demand|, i requires 0 <= i < |demand| => demand[i] / 2) }

  ghost predicate Enabled(s: State, step: Step) {
    match step
    case BeginLayer => true
    case SetDemand(e, d) => s.Expert(e) && d <= U32_MAX
    case Use(e) => s.Expert(e)
    case StartFetch(e, slot, limit) =>
      s.Expert(e) && !s.busy[e] && s.ram.at[e] == None && s.vram.at[e] == None && s.RamChoice(slot, limit)
    case StartPromote(e, slot) =>
      s.Expert(e) && !s.busy[e] && s.ram.at[e].Some? && s.vram.at[e] == None && s.VramChoice(slot, s.demand[e])
    case Scribble(e, _) =>
      e in s.jobs && ((s.jobs[e].Fetching? && s.jobs[e].slot < |s.ram.mem|)
                      || (s.jobs[e].Copying? && s.jobs[e].dst < |s.vram.mem|))
    case FinishFetch(e) => e in s.jobs && s.jobs[e].Fetching? && s.jobs[e].slot < |s.ram.mem| && e < |s.catalog|
    case LoseFetch(e) => e in s.jobs && s.jobs[e].Fetching?
    case FinishCopy(e) =>
      e in s.jobs && s.jobs[e].Copying? && s.jobs[e].src < |s.ram.mem| && s.jobs[e].dst < |s.vram.mem|
    case Adopt(e) => s.Expert(e) && e in s.jobs && (s.jobs[e].Fetched? || s.jobs[e].Copied?) && s.queued > 0
  }

  ghost function Apply(s: State, step: Step): State
    requires Enabled(s, step)
  {
    match step
    case BeginLayer =>
      s.(tick := s.tick + 1, demand := if (s.tick + 1) % DECAY_TICKS == 0 then Decayed(s.demand) else s.demand)
    case SetDemand(e, d) => s.(demand := s.demand[e := d])
    case Use(e) => s.(used := s.used[e := s.tick])
    case StartFetch(e, slot, _) =>
      s.(ram := s.ram.TakeFor(slot, e), busy := s.busy[e := true], queued := s.queued + 1,
         jobs := s.jobs[e := Fetching(slot)])
    case StartPromote(e, slot) =>
      s.(vram := s.vram.TakeFor(slot, e), busy := s.busy[e := true], queued := s.queued + 1,
         jobs := s.jobs[e := Copying(s.ram.at[e].value, slot)])
    case Scribble(e, b) =>
      if s.jobs[e].Fetching? then s.(ram := s.ram.Write(s.jobs[e].slot, b))
      else s.(vram := s.vram.Write(s.jobs[e].dst, b))
    case FinishFetch(e) =>
      s.(ram := s.ram.Write(s.jobs[e].slot, s.catalog[e]), jobs := s.jobs[e := Fetched(s.jobs[e].slot)])
    case LoseFetch(e) => s.(jobs := s.jobs[e := FetchLost(s.jobs[e].slot)])
    case FinishCopy(e) =>
      // The copy moves whatever the source slot holds now.
      s.(vram := s.vram.Write(s.jobs[e].dst, s.ram.mem[s.jobs[e].src]),
         jobs := s.jobs[e := Copied(s.jobs[e].src, s.jobs[e].dst)])
    case Adopt(e) =>
      var s' := s.(busy := s.busy[e := false], queued := s.queued - 1, jobs := s.jobs - {e});
      if s.jobs[e].Fetched? then s'.(ram := s.ram.Map(e, s.jobs[e].slot))
      else s'.(vram := s.vram.Map(e, s.jobs[e].dst))
  }

  ghost predicate Legal(s: State, steps: seq<Step>)
    decreases |steps|
  {
    steps == [] || (Enabled(s, steps[0]) && Legal(Apply(s, steps[0]), steps[1..]))
  }

  ghost function Run(s: State, steps: seq<Step>): State
    requires Legal(s, steps)
    decreases |steps|
  {
    if steps == [] then s else Run(Apply(s, steps[0]), steps[1..])
  }

  // ----- One tier's invariant -----

  // An expert's slot is its own and holds its bytes; a slot reserved for it is its own too.
  ghost predicate ExpertOk(t: Tier, catalog: seq<Bytes>, reserved: map<nat, nat>, e: nat)
    requires e < |t.at| == |catalog| && |t.owner| == |t.mem|
  {
    && (t.at[e].Some? ==> && t.at[e].value < |t.owner| && t.owner[t.at[e].value] == Some(e)
                          && t.mem[t.at[e].value] == catalog[e])
    && (e in reserved ==> t.at[e] == None && reserved[e] < |t.owner| && t.owner[reserved[e]] == Some(e))
  }

  ghost predicate SlotOk(t: Tier, reserved: map<nat, nat>, i: nat)
    requires i < |t.owner|
  {
    t.owner[i].Some? ==>
      && t.owner[i].value < |t.at|
      && (t.at[t.owner[i].value] == Some(i) || (t.owner[i].value in reserved && reserved[t.owner[i].value] == i))
  }

  // `reserved` maps each expert whose job writes this tier to the slot it writes.
  ghost predicate TierInv(t: Tier, catalog: seq<Bytes>, reserved: map<nat, nat>) {
    && |t.at| == |catalog| && |t.owner| == |t.mem|
    && (forall e :: 0 <= e < |t.at| ==> ExpertOk(t, catalog, reserved, e))
    && (forall e :: e in reserved ==> e < |t.at|)
    && (forall i :: 0 <= i < |t.owner| ==> SlotOk(t, reserved, i))
    && FreeListInv(t)
  }

  ghost predicate FreeListInv(t: Tier) {
    && (forall i :: 0 <= i < |t.free| ==> t.free[i] < |t.owner| && t.owner[t.free[i]] == None)
    && (forall i, j :: 0 <= i < j < |t.free| ==> t.free[i] != t.free[j])
    && (forall i :: 0 <= i < |t.owner| && t.owner[i] == None ==> i in t.free)
  }

  lemma TakeKeepsFreeList(t: Tier, slot: nat, e: nat)
    requires FreeListInv(t) && slot < |t.owner|
    requires if t.free != [] then slot == t.free[|t.free| - 1] else t.owner[slot].Some? && t.owner[slot].value < |t.at|
    ensures FreeListInv(t.TakeFor(slot, e))
  {
    var t' := t.TakeFor(slot, e);
    if t.free != [] {
      assert forall i :: 0 <= i < |t'.free| ==> t'.free[i] == t.free[i] && t.free[i] != slot;
      forall i | 0 <= i < |t'.owner| && t'.owner[i] == None ensures i in t'.free {
        assert t.owner[i] == None && i in t.free;
      }
    }
  }

  lemma TakeKeepsTier(t: Tier, catalog: seq<Bytes>, reserved: map<nat, nat>, slot: nat, e: nat)
    requires TierInv(t, catalog, reserved)
    requires e < |t.at| && t.at[e] == None && e !in reserved && slot < |t.owner|
    requires if t.free != [] then slot == t.free[|t.free| - 1]
             else t.owner[slot].Some? && t.owner[slot].value !in reserved
    ensures t.free == [] ==> t.owner[slot].value < |t.at|
    ensures TierInv(t.TakeFor(slot, e), catalog, reserved[e := slot])
  {
    assert SlotOk(t, reserved, slot);
    var t' := t.TakeFor(slot, e);
    TakeKeepsFreeList(t, slot, e);
    var after := reserved[e := slot];
    forall f | 0 <= f < |t'.at| ensures ExpertOk(t', catalog, after, f) {
      assert ExpertOk(t, catalog, reserved, f);
    }
    forall i | 0 <= i < |t'.owner| ensures SlotOk(t', after, i) {
      assert SlotOk(t, reserved, i);
    }
  }

  lemma WriteKeepsTier(t: Tier, catalog: seq<Bytes>, reserved: map<nat, nat>, e: nat, b: Bytes)
    requires TierInv(t, catalog, reserved) && e in reserved
    ensures reserved[e] < |t.mem| && TierInv(t.Write(reserved[e], b), catalog, reserved)
  {
    assert ExpertOk(t, catalog, reserved, e);
    var t' := t.Write(reserved[e], b);
    forall f | 0 <= f < |t'.at| ensures ExpertOk(t', catalog, reserved, f) {
      assert ExpertOk(t, catalog, reserved, f);
    }
    forall i | 0 <= i < |t'.owner| ensures SlotOk(t', reserved, i) {
      assert SlotOk(t, reserved, i);
    }
  }

  lemma MapKeepsTier(t: Tier, catalog: seq<Bytes>, reserved: map<nat, nat>, e: nat)
    requires TierInv(t, catalog, reserved) && e in reserved && reserved[e] < |t.mem| && t.mem[reserved[e]] == catalog[e]
    ensures TierInv(t.Map(e, reserved[e]), catalog, reserved - {e})
  {
    assert ExpertOk(t, catalog, reserved, e);
    var t' := t.Map(e, reserved[e]);
    var after := reserved - {e};
    forall f | 0 <= f < |t'.at| ensures ExpertOk(t', catalog, after, f) {
      assert ExpertOk(t, catalog, reserved, f);
    }
    forall i | 0 <= i < |t'.owner| ensures SlotOk(t', after, i) {
      assert SlotOk(t, reserved, i);
    }
  }

  // ----- The whole invariant -----

  ghost function RamReserved(jobs: map<nat, Job>): map<nat, nat> {
    map e | e in jobs && jobs[e].IsFetch() :: jobs[e].slot
  }

  ghost function VramReserved(jobs: map<nat, Job>): map<nat, nat> {
    map e | e in jobs && !jobs[e].IsFetch() :: jobs[e].dst
  }

  ghost predicate JobOk(s: State, e: nat)
    requires e in s.jobs
  {
    var job := s.jobs[e];
    && e < |s.catalog| && e < |s.vram.at| && e < |s.ram.at| && s.vram.at[e] == None
    && (job.IsFetch() ==> s.ram.at[e] == None && job.slot < |s.ram.mem|)
    && (!job.IsFetch() ==> s.ram.at[e] == Some(job.src) && job.src < |s.ram.mem| && job.dst < |s.vram.mem|)
    && (job.Fetched? ==> s.ram.mem[job.slot] == s.catalog[e])
    && (job.Copied? ==> s.vram.mem[job.dst] == s.catalog[e])
  }

  // Exactly the experts with a job are busy.
  ghost predicate BusyInv(s: State) {
    && |s.busy| == |s.used| == |s.demand| == |s.catalog|
    && (forall e :: 0 <= e < |s.busy| ==> (s.busy[e] <==> e in s.jobs))
    && s.queued == |s.jobs|
  }

  ghost predicate JobsInv(s: State) { BusyInv(s) && forall e :: e in s.jobs ==> JobOk(s, e) }

  ghost predicate Inv(s: State) {
    && TierInv(s.ram, s.catalog, RamReserved(s.jobs))
    && TierInv(s.vram, s.catalog, VramReserved(s.jobs))
    && JobsInv(s)
  }

  // The slots in reverse, so that the lowest is taken first.
  ghost predicate AllSlotsFree(t: Tier) {
    && (forall i :: 0 <= i < |t.owner| ==> t.owner[i] == None)
    && |t.free| == |t.owner| && forall i :: 0 <= i < |t.free| ==> t.free[i] == |t.owner| - 1 - i
  }

  ghost predicate Start(s: State) {
    && |s.busy| == |s.used| == |s.demand| == |s.catalog| == |s.ram.at| == |s.vram.at|
    && s.ram.at == s.vram.at == seq(|s.catalog|, _ => None) && s.busy == seq(|s.catalog|, _ => false)
    && s.jobs == map[] && s.queued == 0
    && |s.ram.owner| == |s.ram.mem| && |s.vram.owner| == |s.vram.mem|
    && AllSlotsFree(s.ram) && AllSlotsFree(s.vram)
  }

  lemma FreshFreeList(t: Tier)
    requires AllSlotsFree(t)
    ensures FreeListInv(t)
  {
    forall i | 0 <= i < |t.owner| ensures i in t.free {
      assert t.free[|t.owner| - 1 - i] == i;
    }
  }

  lemma StartEstablishesInv(s: State)
    requires Start(s)
    ensures Inv(s)
  {
    FreshFreeList(s.ram);
    FreshFreeList(s.vram);
  }

  lemma ReservedAfterUpdate(jobs: map<nat, Job>, e: nat, job: Job)
    ensures RamReserved(jobs[e := job]) == if job.IsFetch() then RamReserved(jobs)[e := job.slot]
      else RamReserved(jobs) - {e}
    ensures VramReserved(jobs[e := job]) == if job.IsFetch() then VramReserved(jobs) - {e}
      else VramReserved(jobs)[e := job.dst]
    ensures RamReserved(jobs - {e}) == RamReserved(jobs) - {e}
    ensures VramReserved(jobs - {e}) == VramReserved(jobs) - {e}
  {}

  // A slot that is free, or that an expert without a job owns.
  ghost predicate Takeable(t: Tier, reserved: map<nat, nat>, slot: nat) {
    && slot < |t.owner|
    && if t.free != [] then slot == t.free[|t.free| - 1] else t.owner[slot].Some? && t.owner[slot].value !in reserved
  }

  lemma FetchSlotIsTakeable(s: State, e: nat, slot: nat, limit: nat)
    requires JobsInv(s) && Enabled(s, StartFetch(e, slot, limit))
    ensures Takeable(s.ram, RamReserved(s.jobs), slot) && e !in s.jobs
  {}

  lemma PromoteSlotIsTakeable(s: State, e: nat, slot: nat)
    requires JobsInv(s) && Enabled(s, StartPromote(e, slot))
    ensures Takeable(s.vram, VramReserved(s.jobs), slot) && e !in s.jobs
  {}

  lemma FetchKeepsTier(t: Tier, catalog: seq<Bytes>, jobs: map<nat, Job>, e: nat, slot: nat)
    requires TierInv(t, catalog, RamReserved(jobs)) && Takeable(t, RamReserved(jobs), slot) && e < |t.at|
    requires t.at[e] == None && e !in jobs
    ensures t.free == [] ==> t.owner[slot].value < |t.at|
    ensures TierInv(t.TakeFor(slot, e), catalog, RamReserved(jobs[e := Fetching(slot)]))
    ensures VramReserved(jobs[e := Fetching(slot)]) == VramReserved(jobs)
  {
    ReservedAfterUpdate(jobs, e, Fetching(slot));
    assert VramReserved(jobs) - {e} == VramReserved(jobs);
    TakeKeepsTier(t, catalog, RamReserved(jobs), slot, e);
  }

  lemma PromoteKeepsTier(t: Tier, catalog: seq<Bytes>, jobs: map<nat, Job>, e: nat, src: nat, slot: nat)
    requires TierInv(t, catalog, VramReserved(jobs)) && Takeable(t, VramReserved(jobs), slot) && e < |t.at|
    requires t.at[e] == None && e !in jobs
    ensures t.free == [] ==> t.owner[slot].value < |t.at|
    ensures TierInv(t.TakeFor(slot, e), catalog, VramReserved(jobs[e := Copying(src, slot)]))
    ensures RamReserved(jobs[e := Copying(src, slot)]) == RamReserved(jobs)
  {
    ReservedAfterUpdate(jobs, e, Copying(src, slot));
    assert RamReserved(jobs) - {e} == RamReserved(jobs);
    TakeKeepsTier(t, catalog, VramReserved(jobs), slot, e);
  }

  // One more job.
  lemma JobsAfterStart(s: State, t: State, e: nat, job: Job)
    requires BusyInv(s) && e !in s.jobs && e < |s.busy|
    requires t.jobs == s.jobs[e := job] && t.busy == s.busy[e := true] && t.queued == s.queued + 1
    requires t.used == s.used && t.demand == s.demand && t.catalog == s.catalog
    ensures BusyInv(t)
  {
    assert t.jobs.Keys == s.jobs.Keys + {e};
    assert |t.jobs| == |t.jobs.Keys| && |s.jobs| == |s.jobs.Keys|;
  }

  lemma StartFetchKeepsJobs(s: State, e: nat, slot: nat, limit: nat)
    requires JobsInv(s) && Enabled(s, StartFetch(e, slot, limit)) && |s.ram.owner| == |s.ram.mem|
    ensures JobsInv(Apply(s, StartFetch(e, slot, limit)))
  {
    var t := Apply(s, StartFetch(e, slot, limit));
    forall f | f in t.jobs ensures JobOk(t, f) { FetchKeepsJob(s, e, slot, limit, f); }
    JobsAfterStart(s, t, e, Fetching(slot));
  }

  lemma FetchKeepsJob(s: State, e: nat, slot: nat, limit: nat, f: nat)
    requires JobsInv(s) && Enabled(s, StartFetch(e, slot, limit)) && (f in s.jobs || f == e)
    requires |s.ram.owner| == |s.ram.mem|
    ensures f in Apply(s, StartFetch(e, slot, limit)).jobs && JobOk(Apply(s, StartFetch(e, slot, limit)), f)
  {
    assert f != e ==> JobOk(s, f) && s.busy[f];
  }

  lemma StartPromoteKeepsJobs(s: State, e: nat, slot: nat)
    requires JobsInv(s) && Enabled(s, StartPromote(e, slot)) && |s.vram.owner| == |s.vram.mem|
    requires s.ram.at[e].value < |s.ram.mem|
    ensures JobsInv(Apply(s, StartPromote(e, slot)))
  {
    var t := Apply(s, StartPromote(e, slot));
    forall f | f in t.jobs ensures JobOk(t, f) { PromoteKeepsJob(s, e, slot, f); }
    JobsAfterStart(s, t, e, Copying(s.ram.at[e].value, slot));
  }

  lemma PromoteKeepsJob(s: State, e: nat, slot: nat, f: nat)
    requires JobsInv(s) && Enabled(s, StartPromote(e, slot)) && (f in s.jobs || f == e)
    requires |s.vram.owner| == |s.vram.mem|
    requires s.ram.at[e].value < |s.ram.mem|
    ensures f in Apply(s, StartPromote(e, slot)).jobs && JobOk(Apply(s, StartPromote(e, slot)), f)
  {
    assert f != e ==> JobOk(s, f) && s.busy[f];
  }

  lemma ReservedAfterProgress(jobs: map<nat, Job>, e: nat, job: Job)
    requires e in jobs && job.IsFetch() == jobs[e].IsFetch()
    requires if job.IsFetch() then job.slot == jobs[e].slot else job.dst == jobs[e].dst
    ensures RamReserved(jobs[e := job]) == RamReserved(jobs) && VramReserved(jobs[e := job]) == VramReserved(jobs)
  {}

  lemma WorkerKeepsTiers(s: State, step: Step)
    requires Inv(s) && Enabled(s, step)
    requires step.Scribble? || step.FinishFetch? || step.LoseFetch? || step.FinishCopy?
    ensures var s' := Apply(s, step);
            && TierInv(s'.ram, s.catalog, RamReserved(s'.jobs)) && TierInv(s'.vram, s.catalog, VramReserved(s'.jobs))
  {
    var e := step.e;
    if !step.Scribble? {
      ReservedAfterProgress(s.jobs, e, Apply(s, step).jobs[e]);
    }
    match step
    case Scribble(_, b) =>
      if s.jobs[e].IsFetch() {
        WriteKeepsTier(s.ram, s.catalog, RamReserved(s.jobs), e, b);
      } else {
        WriteKeepsTier(s.vram, s.catalog, VramReserved(s.jobs), e, b);
      }
    case FinishFetch(_) => WriteKeepsTier(s.ram, s.catalog, RamReserved(s.jobs), e, s.catalog[e]);
    case FinishCopy(_) => WriteKeepsTier(s.vram, s.catalog, VramReserved(s.jobs), e, s.ram.mem[s.jobs[e].src]);
    case LoseFetch(_) =>
  }

  // A slot being written is not the slot of any other job.
  lemma JobSlotsDiffer(t: Tier, catalog: seq<Bytes>, reserved: map<nat, nat>, e: nat, f: nat)
    requires TierInv(t, catalog, reserved) && e in reserved && f in reserved && e != f
    ensures reserved[e] != reserved[f]
  {
    assert ExpertOk(t, catalog, reserved, e) && ExpertOk(t, catalog, reserved, f);
  }

  lemma WorkerKeepsJobs(s: State, step: Step)
    requires Inv(s) && Enabled(s, step)
    requires step.Scribble? || step.FinishFetch? || step.LoseFetch? || step.FinishCopy?
    ensures JobsInv(Apply(s, step))
  {
    var s' := Apply(s, step);
    assert s'.jobs.Keys == s.jobs.Keys;
    forall f | f in s'.jobs ensures JobOk(s', f) { WorkerKeepsJob(s, step, f); }
  }

  lemma WorkerKeepsJob(s: State, step: Step, f: nat)
    requires Inv(s) && Enabled(s, step) && f in s.jobs
    requires step.Scribble? || step.FinishFetch? || step.LoseFetch? || step.FinishCopy?
    ensures f in Apply(s, step).jobs && JobOk(Apply(s, step), f)
  {
    var e := step.e;
    assert JobOk(s, e) && JobOk(s, f);
    assert ExpertOk(s.ram, s.catalog, RamReserved(s.jobs), e);
    if f != e && s.jobs[e].IsFetch() && s.jobs[f].IsFetch() {
      JobSlotsDiffer(s.ram, s.catalog, RamReserved(s.jobs), e, f);
    } else if f != e && !s.jobs[e].IsFetch() && !s.jobs[f].IsFetch() {
      JobSlotsDiffer(s.vram, s.catalog, VramReserved(s.jobs), e, f);
    }
  }

  lemma AdoptKeepsTiers(s: State, e: nat)
    requires Inv(s) && Enabled(s, Adopt(e))
    ensures var s' := Apply(s, Adopt(e));
            && TierInv(s'.ram, s.catalog, RamReserved(s'.jobs)) && TierInv(s'.vram, s.catalog, VramReserved(s'.jobs))
  {
    ReservedAfterUpdate(s.jobs, e, s.jobs[e]);
    assert JobOk(s, e);
    if s.jobs[e].Fetched? {
      assert RamReserved(s.jobs)[e] == s.jobs[e].slot;
      MapKeepsTier(s.ram, s.catalog, RamReserved(s.jobs), e);
      assert VramReserved(s.jobs) - {e} == VramReserved(s.jobs);
    } else {
      assert VramReserved(s.jobs)[e] == s.jobs[e].dst;
      MapKeepsTier(s.vram, s.catalog, VramReserved(s.jobs), e);
      assert RamReserved(s.jobs) - {e} == RamReserved(s.jobs);
    }
  }

  lemma AdoptKeepsJobs(s: State, e: nat)
    requires Inv(s) && Enabled(s, Adopt(e))
    ensures JobsInv(Apply(s, Adopt(e)))
  {
    var s' := Apply(s, Adopt(e));
    assert s'.jobs.Keys == s.jobs.Keys - {e};
    forall f | f in s'.jobs ensures JobOk(s', f) {
      assert JobOk(s, f);
    }
  }

  lemma OtherStepsKeepJobs(s: State, step: Step)
    requires Inv(s) && Enabled(s, step) && (step.BeginLayer? || step.SetDemand? || step.Use?)
    ensures JobsInv(Apply(s, step))
  {
    forall e | e in s.jobs ensures JobOk(Apply(s, step), e) {
      assert JobOk(s, e);
    }
  }

  lemma StepKeepsInv(s: State, step: Step)
    requires Inv(s) && Enabled(s, step)
    ensures Inv(Apply(s, step))
  {
    match step
    case StartFetch(e, slot, limit) =>
      FetchSlotIsTakeable(s, e, slot, limit);
      FetchKeepsTier(s.ram, s.catalog, s.jobs, e, slot);
      StartFetchKeepsJobs(s, e, slot, limit);
    case StartPromote(e, slot) =>
      PromoteSlotIsTakeable(s, e, slot);
      PromoteKeepsTier(s.vram, s.catalog, s.jobs, e, s.ram.at[e].value, slot);
      assert ExpertOk(s.ram, s.catalog, RamReserved(s.jobs), e);
      StartPromoteKeepsJobs(s, e, slot);
    case Adopt(e) => AdoptKeepsTiers(s, e); AdoptKeepsJobs(s, e);
    case Scribble(_, _) => WorkerKeepsTiers(s, step); WorkerKeepsJobs(s, step);
    case FinishFetch(_) => WorkerKeepsTiers(s, step); WorkerKeepsJobs(s, step);
    case LoseFetch(_) => WorkerKeepsTiers(s, step); WorkerKeepsJobs(s, step);
    case FinishCopy(_) => WorkerKeepsTiers(s, step); WorkerKeepsJobs(s, step);
    case _ => OtherStepsKeepJobs(s, step);
  }

  lemma {:induction false} RunKeepsInv(s: State, steps: seq<Step>)
    requires Inv(s) && Legal(s, steps)
    ensures Inv(Run(s, steps))
    decreases |steps|
  {
    if steps != [] {
      StepKeepsInv(s, steps[0]);
      RunKeepsInv(Apply(s, steps[0]), steps[1..]);
    }
  }

  // Searching the owner table for an expert finds the slot reserved for its job.
  lemma OwnedSlotIsReserved(t: Tier, catalog: seq<Bytes>, reserved: map<nat, nat>, e: nat, i: nat)
    requires TierInv(t, catalog, reserved) && e in reserved && i < |t.owner| && t.owner[i] == Some(e)
    ensures i == reserved[e]
  {
    assert SlotOk(t, reserved, i) && ExpertOk(t, catalog, reserved, e);
  }

  // ----- What holds over all runs -----

  // The `SAFETY` comments, per tier: a mapped slot holds its expert's bytes, and the slots workers
  // write belong to one job each and are never mapped.
  ghost predicate TierSafe(t: Tier, catalog: seq<Bytes>, reserved: map<nat, nat>) {
    && |t.at| == |catalog|
    && (forall e :: 0 <= e < |t.at| && t.at[e].Some? ==>
          t.at[e].value < |t.mem| && t.mem[t.at[e].value] == catalog[e])
    && (forall a, b :: a in reserved && b in reserved && a != b ==> reserved[a] != reserved[b])
    && (forall a, e :: a in reserved && 0 <= e < |t.at| && t.at[e].Some? ==> t.at[e].value != reserved[a])
  }

  // And the source of a copy is mapped by its expert, and so holds that expert's bytes.
  ghost predicate MemorySafe(s: State) {
    && TierSafe(s.ram, s.catalog, RamReserved(s.jobs))
    && TierSafe(s.vram, s.catalog, VramReserved(s.jobs))
    && forall a :: a in s.jobs && !s.jobs[a].IsFetch() ==> a < |s.ram.at| && s.ram.at[a] == Some(s.jobs[a].src)
  }

  lemma TierInvIsSafe(t: Tier, catalog: seq<Bytes>, reserved: map<nat, nat>)
    requires TierInv(t, catalog, reserved)
    ensures TierSafe(t, catalog, reserved)
  {
    forall e | 0 <= e < |t.at| && t.at[e].Some?
      ensures t.at[e].value < |t.mem| && t.mem[t.at[e].value] == catalog[e]
    {
      assert ExpertOk(t, catalog, reserved, e);
    }
    forall a, b | a in reserved && b in reserved && a != b ensures reserved[a] != reserved[b] {
      JobSlotsDiffer(t, catalog, reserved, a, b);
    }
    forall a, e | a in reserved && 0 <= e < |t.at| && t.at[e].Some? ensures t.at[e].value != reserved[a] {
      assert ExpertOk(t, catalog, reserved, a) && ExpertOk(t, catalog, reserved, e);
    }
  }

  lemma InvIsMemorySafe(s: State)
    requires Inv(s)
    ensures MemorySafe(s)
  {
    TierInvIsSafe(s.ram, s.catalog, RamReserved(s.jobs));
    TierInvIsSafe(s.vram, s.catalog, VramReserved(s.jobs));
    assert forall a :: a in s.jobs ==> JobOk(s, a);
  }

  /** In every interleaving of the three threads, lost fetches included, the memory is safe. */
  lemma EveryRunIsMemorySafe(s: State, steps: seq<Step>)
    requires Start(s) && Legal(s, steps)
    ensures MemorySafe(Run(s, steps))
  {
    StartEstablishesInv(s);
    RunKeepsInv(s, steps);
    InvIsMemorySafe(Run(s, steps));
  }

  ghost predicate IsMapped(t: Tier, i: nat) { exists e :: 0 <= e < |t.at| && t.at[e] == Some(i) }

  // A slot is in exactly one of three states: free, reserved by one busy expert, or mapped by one expert.
  ghost predicate SlotPartitioned(t: Tier, reserved: map<nat, nat>, busy: seq<bool>, i: nat) {
    && (i in t.free || i in reserved.Values || IsMapped(t, i))
    && !(i in t.free && i in reserved.Values)
    && !(i in t.free && IsMapped(t, i))
    && !(i in reserved.Values && IsMapped(t, i))
    && (forall a, b :: 0 <= a < |t.at| && 0 <= b < |t.at| && t.at[a] == t.at[b] == Some(i) ==> a == b)
    && (forall a, b :: a in reserved && b in reserved && reserved[a] == reserved[b] == i ==> a == b)
    && (forall a :: a in reserved && reserved[a] == i ==> a < |busy| && busy[a])
  }

  ghost predicate SlotsPartitioned(t: Tier, reserved: map<nat, nat>, busy: seq<bool>) {
    forall i: nat :: i < |t.owner| ==> SlotPartitioned(t, reserved, busy, i)
  }

  lemma SlotIsPartitioned(t: Tier, catalog: seq<Bytes>, reserved: map<nat, nat>, busy: seq<bool>, i: nat)
    requires TierInv(t, catalog, reserved) && i < |t.owner| && forall a :: a in reserved ==> a < |busy| && busy[a]
    ensures SlotPartitioned(t, reserved, busy, i)
  {
    assert SlotOk(t, reserved, i);
    forall e | 0 <= e < |t.at| && t.at[e] == Some(i) ensures t.owner[i] == Some(e) && e !in reserved {
      assert ExpertOk(t, catalog, reserved, e);
    }
    forall a | a in reserved && reserved[a] == i ensures t.owner[i] == Some(a) {
      assert ExpertOk(t, catalog, reserved, a);
    }
  }

  lemma EveryRunPartitionsTheSlots(s: State, steps: seq<Step>)
    requires Start(s) && Legal(s, steps)
    ensures var t := Run(s, steps);
            SlotsPartitioned(t.ram, RamReserved(t.jobs), t.busy) &&
              SlotsPartitioned(t.vram, VramReserved(t.jobs), t.busy)
  {
    StartEstablishesInv(s);
    RunKeepsInv(s, steps);
    var t := Run(s, steps);
    JobsAreBusy(t);
    forall i: nat | i < |t.ram.owner| ensures SlotPartitioned(t.ram, RamReserved(t.jobs), t.busy, i) {
      SlotIsPartitioned(t.ram, t.catalog, RamReserved(t.jobs), t.busy, i);
    }
    forall i: nat | i < |t.vram.owner| ensures SlotPartitioned(t.vram, VramReserved(t.jobs), t.busy, i) {
      SlotIsPartitioned(t.vram, t.catalog, VramReserved(t.jobs), t.busy, i);
    }
  }

  lemma JobsAreBusy(s: State)
    requires JobsInv(s)
    ensures forall e :: e in s.jobs ==> e < |s.busy| && s.busy[e]
  {
    forall e | e in s.jobs ensures e < |s.busy| && s.busy[e] { assert JobOk(s, e); }
  }

  // ----- Claims -----

  // The slot `claim` or `ram_tensors` handed out for `e` in tier `t` is still its slot, with its bytes.
  ghost predicate SlotStands(before: Tier, after: Tier, e: nat, bytes: Bytes)
    requires e < |before.at| && e < |after.at|
  {
    before.at[e].Some? ==>
      && after.at[e] == before.at[e] && before.at[e].value < |after.mem| && after.mem[before.at[e].value] == bytes
  }

  ghost predicate ClaimStands(s: State, t: State, e: nat)
    requires s.Expert(e) && t.Expert(e)
  {
    SlotStands(s.ram, t.ram, e, s.catalog[e]) && SlotStands(s.vram, t.vram, e, s.catalog[e])
  }

  lemma StepKeepsClaims(s: State, step: Step, e: nat)
    requires Inv(s) && Enabled(s, step) && !step.BeginLayer?
    requires s.Expert(e) && s.used[e] == s.tick
    ensures var t := Apply(s, step);
            && t.Expert(e) && t.tick == s.tick && t.used[e] == t.tick && t.catalog == s.catalog
            && (s.ram.at[e].Some? ==> t.ram.at[e] == s.ram.at[e])
            && (s.vram.at[e].Some? ==> t.vram.at[e] == s.vram.at[e])
  {
    assert step.Adopt? ==> JobOk(s, step.e);
  }

  /** From the moment a layer marks an expert, whatever tensors it was given keep their slot and their
      bytes until the next `begin_layer`: through any requests, promotions adopted mid-layer, lost
      fetches and worker writes. */
  lemma {:induction false} ClaimsHoldUntilTheNextLayer(s: State, steps: seq<Step>, e: nat)
    requires Inv(s) && Legal(s, steps) && BeginLayer !in steps
    requires s.Expert(e) && s.used[e] == s.tick
    ensures var t := Run(s, steps); t.Expert(e) && t.used[e] == t.tick && t.catalog == s.catalog && ClaimStands(s, t, e)
    decreases |steps|
  {
    if steps == [] {
      assert ExpertOk(s.ram, s.catalog, RamReserved(s.jobs), e) && ExpertOk(s.vram, s.catalog, VramReserved(s.jobs), e);
    } else {
      StepKeepsInv(s, steps[0]);
      StepKeepsClaims(s, steps[0], e);
      ClaimsHoldUntilTheNextLayer(Apply(s, steps[0]), steps[1..], e);
    }
  }

  lemma {:induction false} RunSplits(s: State, a: seq<Step>, b: seq<Step>)
    requires Legal(s, a + b)
    ensures Legal(s, a) && Legal(Run(s, a), b) && Run(s, a + b) == Run(Run(s, a), b)
    decreases |a|
  {
    if a == [] {
      assert a + b == b;
    } else {
      assert (a + b)[1..] == a[1..] + b;
      RunSplits(Apply(s, a[0]), a[1..], b);
    }
  }

  /** An expert requested while cold is protected from the moment it is adopted: whenever `first` leaves
      it resident, `rest` cannot move it or change its bytes. */
  lemma RequestedExpertIsProtectedOnceAdopted(s: State, first: seq<Step>, rest: seq<Step>, e: nat)
    requires Inv(s) && s.Expert(e) && Legal(s, [Use(e)] + first + rest)
    requires BeginLayer !in first && BeginLayer !in rest
    ensures Legal(s, [Use(e)] + first) && Legal(Run(s, [Use(e)] + first), rest)
    ensures var adopted := Run(s, [Use(e)] + first);
            var t := Run(adopted, rest);
            adopted.Expert(e) && t.Expert(e) && ClaimStands(adopted, t, e)
  {
    RunSplits(s, [Use(e)] + first, rest);
    RunSplits(s, [Use(e)], first);
    var marked := Apply(s, Use(e));
    assert Run(s, [Use(e)]) == marked;
    StepKeepsInv(s, Use(e));
    ClaimsHoldUntilTheNextLayer(marked, first, e);
    RunKeepsInv(marked, first);
    ClaimsHoldUntilTheNextLayer(Run(marked, first), rest, e);
  }

  // ----- When `load_now` returns -----

  // What happens while the main thread waits: the workers run, some fetches are lost, and finished jobs are adopted.
  predicate WhileWaiting(step: Step) {
    step.Scribble? || step.FinishFetch? || step.LoseFetch? || step.FinishCopy? || step.Adopt?
  }

  ghost predicate Waiting(steps: seq<Step>) { forall i :: 0 <= i < |steps| ==> WhileWaiting(steps[i]) }

  predicate MakesProgress(step: Step) { WhileWaiting(step) && !step.Scribble? }

  predicate IsLost(s: State, e: nat) { e in s.jobs && s.jobs[e].FetchLost? }

  predicate IsUnfinished(job: Job) { job.Fetching? || job.Copying? }

  ghost function Unfinished(jobs: map<nat, Job>): set<nat> { set e | e in jobs && IsUnfinished(jobs[e]) }

  ghost function Live(jobs: map<nat, Job>): set<nat> { set e | e in jobs && !jobs[e].FetchLost? }

  // Jobs to adopt and jobs to finish.
  ghost function ToDo(s: State): nat { |Live(s.jobs)| + |Unfinished(s.jobs)| }

  // Steps that finish, lose or adopt a job.
  ghost function Progress(steps: seq<Step>): nat
    decreases |steps|
  { if steps == [] then 0 else (if steps[0].Scribble? then 0 else 1) + Progress(steps[1..]) }

  // Where the awaited expert will be.
  predicate Arrived(s: State, e: nat, fetch: bool) { if fetch then s.ram.HasExpert(e) else s.vram.HasExpert(e) }

  predicate AwaitedOrArrived(s: State, e: nat, fetch: bool) {
    (e in s.jobs && s.jobs[e].IsFetch() == fetch) || Arrived(s, e, fetch)
  }

  // Nothing more can be finished or adopted.
  ghost predicate Exhausted(s: State) { forall step :: MakesProgress(step) ==> !Enabled(s, step) }

  lemma FinishLeavesLess(jobs: map<nat, Job>, e: nat, job: Job)
    requires e in jobs && IsUnfinished(jobs[e]) && !IsUnfinished(job)
    ensures |Unfinished(jobs[e := job])| == |Unfinished(jobs)| - 1 && |Live(jobs[e := job])| <= |Live(jobs)|
  {
    assert Unfinished(jobs[e := job]) == Unfinished(jobs) - {e};
    assert Live(jobs[e := job]) == if job.FetchLost? then Live(jobs) - {e} else Live(jobs);
  }

  lemma AdoptLeavesLess(jobs: map<nat, Job>, e: nat)
    requires e in jobs && !IsUnfinished(jobs[e]) && !jobs[e].FetchLost?
    ensures |Live(jobs - {e})| == |Live(jobs)| - 1 && |Unfinished(jobs - {e})| == |Unfinished(jobs)|
  {
    assert Live(jobs - {e}) == Live(jobs) - {e};
    assert Unfinished(jobs - {e}) == Unfinished(jobs);
  }

  lemma StepLeavesLess(s: State, step: Step)
    requires Enabled(s, step) && WhileWaiting(step)
    ensures ToDo(Apply(s, step)) + (if step.Scribble? then 0 else 1) <= ToDo(s)
  {
    var e := step.e;
    match step
    case Scribble(_, _) =>
    case FinishFetch(_) => FinishLeavesLess(s.jobs, e, Fetched(s.jobs[e].slot));
    case LoseFetch(_) => FinishLeavesLess(s.jobs, e, FetchLost(s.jobs[e].slot));
    case FinishCopy(_) => FinishLeavesLess(s.jobs, e, Copied(s.jobs[e].src, s.jobs[e].dst));
    case Adopt(_) => AdoptLeavesLess(s.jobs, e);
  }

  // An awaited expert stays awaited, with a job of the same kind, or has arrived.
  lemma StepBringsItCloser(s: State, step: Step, e: nat, fetch: bool)
    requires Inv(s) && Enabled(s, step) && WhileWaiting(step)
    requires AwaitedOrArrived(s, e, fetch)
    ensures AwaitedOrArrived(Apply(s, step), e, fetch)
  {
    assert step.Adopt? ==> JobOk(s, step.e);
  }

  lemma {:induction false} WaitingLeavesLess(s: State, steps: seq<Step>)
    requires Legal(s, steps) && Waiting(steps)
    ensures ToDo(Run(s, steps)) + Progress(steps) <= ToDo(s)
    decreases |steps|
  {
    if steps != [] {
      StepLeavesLess(s, steps[0]);
      WaitingLeavesLess(Apply(s, steps[0]), steps[1..]);
    }
  }

  // An expert's job is lost when the fetcher loses it, and at no other time.
  lemma {:induction false} LostWhenLost(s: State, steps: seq<Step>, e: nat)
    requires Legal(s, steps) && Waiting(steps)
    ensures IsLost(Run(s, steps), e) <==> IsLost(s, e) || LoseFetch(e) in steps
    decreases |steps|
  {
    if steps != [] {
      assert WhileWaiting(steps[0]);
      assert LoseFetch(e) in steps <==> steps[0] == LoseFetch(e) || LoseFetch(e) in steps[1..];
      LostWhenLost(Apply(s, steps[0]), steps[1..], e);
    }
  }

  lemma {:induction false} WaitingBringsItCloser(s: State, steps: seq<Step>, e: nat, fetch: bool)
    requires Inv(s) && Legal(s, steps) && Waiting(steps)
    requires AwaitedOrArrived(s, e, fetch)
    ensures AwaitedOrArrived(Run(s, steps), e, fetch)
    decreases |steps|
  {
    if steps != [] {
      var next := Apply(s, steps[0]);
      assert WhileWaiting(steps[0]) && Waiting(steps[1..]);
      StepKeepsInv(s, steps[0]);
      StepBringsItCloser(s, steps[0], e, fetch);
      WaitingBringsItCloser(next, steps[1..], e, fetch);
    }
  }

  // A job that is not lost can be finished or adopted.
  lemma JobCanProgress(s: State, e: nat) returns (step: Step)
    requires Inv(s) && e in s.jobs && !IsLost(s, e)
    ensures Enabled(s, step) && MakesProgress(step)
  {
    assert JobOk(s, e);
    assert |s.jobs.Keys| > 0;
    step := if s.jobs[e].Fetching? then FinishFetch(e) else if s.jobs[e].Copying? then FinishCopy(e) else Adopt(e);
  }

  lemma ArrivedUnlessLost(s: State, e: nat, fetch: bool)
    requires Inv(s) && AwaitedOrArrived(s, e, fetch)
    ensures IsLost(s, e) ==> !Arrived(s, e, true) && !Arrived(s, e, false)
    ensures Exhausted(s) ==> (Arrived(s, e, fetch) <==> !IsLost(s, e))
  {
    if e in s.jobs {
      assert JobOk(s, e);
      if !IsLost(s, e) { var step := JobCanProgress(s, e); }
    }
  }

  /** Every schedule of the workers and of `adopt`, whatever other fetches it loses, comes to an end of the wait for an
      expert: it finishes, loses and adopts at most twice as many jobs as there are; it can go on while the expert is
      awaited; and where it cannot go on, the expert has arrived if and only if its own fetch was not lost. */
  lemma EveryScheduleEndsTheWait(s: State, steps: seq<Step>, e: nat)
    requires Inv(s) && Legal(s, steps) && Waiting(steps) && e in s.jobs
    ensures var t := Run(s, steps);
            var lost := s.jobs[e].FetchLost? || LoseFetch(e) in steps;
            && Progress(steps) <= ToDo(s) <= 2 * |s.jobs|
            && (lost ==> !Arrived(t, e, true) && !Arrived(t, e, false))
            && (Exhausted(t) ==> (Arrived(t, e, s.jobs[e].IsFetch()) <==> !lost))
            && (Progress(steps) == ToDo(s) ==> Exhausted(t))
  {
    WaitingLeavesLess(s, steps);
    WaitingBringsItCloser(s, steps, e, s.jobs[e].IsFetch());
    LostWhenLost(s, steps, e);
    RunKeepsInv(s, steps);
    var t := Run(s, steps);
    ArrivedUnlessLost(t, e, s.jobs[e].IsFetch());
    forall step | MakesProgress(step) && Enabled(t, step) ensures ToDo(t) > 0 { StepLeavesLess(t, step); }
    LiveAndUnfinishedAreJobs(s.jobs);
  }

  lemma LiveAndUnfinishedAreJobs(jobs: map<nat, Job>)
    ensures |Live(jobs)| <= |jobs| && |Unfinished(jobs)| <= |jobs|
  {
    assert Live(jobs) <= jobs.Keys && Unfinished(jobs) <= jobs.Keys;
    SubsetIsSmaller(Live(jobs), jobs.Keys);
    SubsetIsSmaller(Unfinished(jobs), jobs.Keys);
  }

  lemma LostFetchStaysLost(s: State, step: Step, e: nat)
    requires JobsInv(s) && Enabled(s, step) && e in s.jobs && s.jobs[e].FetchLost?
    ensures e in Apply(s, step).jobs && Apply(s, step).jobs[e] == s.jobs[e]
  {
    assert JobOk(s, e) && s.busy[e];
  }

  /** A lost fetch is never made good: the expert stays busy and cold in every continuation. */
  lemma {:induction false} LostFetchStaysCold(s: State, steps: seq<Step>, e: nat)
    requires Inv(s) && Legal(s, steps) && e in s.jobs && s.jobs[e].FetchLost?
    ensures var t := Run(s, steps);
            e in t.jobs && t.jobs[e] == s.jobs[e] && !t.ram.HasExpert(e) && !t.vram.HasExpert(e)
    decreases |steps|
  {
    if steps == [] {
      assert JobOk(s, e);
    } else {
      StepKeepsInv(s, steps[0]);
      LostFetchStaysLost(s, steps[0], e);
      LostFetchStaysCold(Apply(s, steps[0]), steps[1..], e);
    }
  }
}
