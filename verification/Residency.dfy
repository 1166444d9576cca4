/** The main thread's side of expert residency, as the object it is. Every method that changes it is one
    or two protocol steps, so whatever `ResidencyProtocol` proves of all runs holds of all call sequences. */
module ExpertResidency {
  import opened Options
  import opened ResidencyProtocol

  datatype TierKind = Vram | Ram

  class Residency {
    const catalog: seq<Bytes>
    var vram: Tier
    var ram: Tier
    var demand: seq<nat>
    var busy: seq<bool>
    var used: seq<nat>
    var tick: nat
    var queued: nat
    var jobs: map<nat, Job>

    ghost function View(): State
      reads this
    {
      State(catalog, vram, ram, demand, busy, used, tick, queued, jobs)
    }

    constructor (catalog: seq<Bytes>, vramSlots: nat, ramSlots: nat)
      ensures Start(View()) && Inv(View()) && this.catalog == catalog
      ensures |vram.owner| == vramSlots && |ram.owner| == ramSlots
    {
      var n := |catalog|;
      this.catalog := catalog;
      vram := Tier(seq(n, _ => None), seq(vramSlots, _ => None), seq(vramSlots, i => vramSlots - 1 - i),
                   seq(vramSlots, _ => Bytes([])));
      ram := Tier(seq(n, _ => None), seq(ramSlots, _ => None), seq(ramSlots, i => ramSlots - 1 - i),
                  seq(ramSlots, _ => Bytes([])));
      demand, busy, used := seq(n, _ => 0), seq(n, _ => false), seq(n, _ => 0);
      tick, queued, jobs := 1, 0, map[];
      new;
      assert vram.at == ram.at == seq(|catalog|, _ => None);
      assert busy == seq(|catalog|, _ => false);
      StartEstablishesInv(View());
    }

    method BeginLayer()
      modifies this
      ensures View() == Apply(old(View()), Step.BeginLayer)
    {
      tick := tick + 1;
      if tick % DECAY_TICKS == 0 {
        var i := 0;
        while i < |demand|
          invariant 0 <= i <= |demand| == |old(demand)|
          invariant forall j :: 0 <= j < i ==> demand[j] == old(demand)[j] / 2
          invariant forall j :: i <= j < |demand| ==> demand[j] == old(demand)[j]
          invariant tick == old(tick) + 1 && View() == old(View()).(tick := tick, demand := demand)
        {
          demand := demand[i := demand[i] / 2];
          i := i + 1;
        }
        assert demand == Decayed(old(demand));
      }
    }

    // Mark an expert as running this layer and return its tier and slot.
    method Claim(e: nat) returns (found: Option<(TierKind, nat)>)
      requires Inv(View()) && e < |catalog|
      modifies this`used
      ensures found == None <==> !ram.HasExpert(e) && !vram.HasExpert(e)
      ensures found == None ==> View() == old(View())
      ensures found.Some? ==> View() == Apply(old(View()), Use(e)) && used[e] == tick
      ensures found.Some? && found.value.0 == Vram ==>
                vram.at[e] == Some(found.value.1) && found.value.1 < |vram.mem| && vram.mem[found.value.1] == catalog[e]
      ensures found.Some? && found.value.0 == Ram ==>
                vram.at[e] == None && ram.at[e] == Some(found.value.1)
                && found.value.1 < |ram.mem| && ram.mem[found.value.1] == catalog[e]
    {
      assert ExpertOk(vram, catalog, VramReserved(jobs), e) && ExpertOk(ram, catalog, RamReserved(jobs), e);
      if vram.at[e].Some? {
        found := Some((Vram, vram.at[e].value));
      } else if ram.at[e].Some? {
        found := Some((Ram, ram.at[e].value));
      } else {
        return None;
      }
      used := used[e := tick];
    }

    // A free slot, or the slot of the cheapest expert that may leave, if this demand out-bids it.
    method FindRamSlot(limit: nat) returns (slot: Option<nat>)
      requires Inv(View())
      ensures slot.Some? ==> View().RamChoice(slot.value, limit)
      ensures slot.None? ==> forall i: nat :: !View().RamChoice(i, limit)
    {
      if ram.free != [] {
        return Some(ram.free[|ram.free| - 1]);
      }
      var best: Option<nat>, cost := None, 0;
      for i := 0 to |ram.owner|
        invariant best.None? ==> forall j :: 0 <= j < i ==> !View().Evictable(ram.owner[j])
        invariant best.Some? ==> best.value < i && View().Evictable(ram.owner[best.value])
                                 && cost == View().RamCost(ram.owner[best.value].value)
        invariant best.Some? ==> forall j :: 0 <= j < i && View().Evictable(ram.owner[j]) ==>
                    if j < best.value then cost < View().RamCost(ram.owner[j].value)
                    else cost <= View().RamCost(ram.owner[j].value)
      {
        assert SlotOk(ram, RamReserved(jobs), i);
        if ram.owner[i].None? || busy[ram.owner[i].value] || used[ram.owner[i].value] == tick {
          continue;
        }
        var owner := ram.owner[i].value;
        var c := if vram.at[owner].Some? then 0 else if demand[owner] < U32_MAX then demand[owner] + 1 else U32_MAX;
        if best.None? || c < cost {
          best, cost := Some(i), c;
        }
      }
      if best.None? || cost > limit {
        return None;
      }
      return best;
    }

    method FindVramSlot(limit: nat) returns (slot: Option<nat>)
      requires Inv(View())
      ensures slot.Some? ==> View().VramChoice(slot.value, limit)
      ensures slot.None? ==> forall i: nat :: !View().VramChoice(i, limit)
    {
      if vram.free != [] {
        return Some(vram.free[|vram.free| - 1]);
      }
      var best: Option<nat>, cost := None, 0;
      for i := 0 to |vram.owner|
        invariant best.None? ==> forall j :: 0 <= j < i ==> !View().Evictable(vram.owner[j])
        invariant best.Some? ==> best.value < i && View().Evictable(vram.owner[best.value])
                                 && cost == View().VramCost(vram.owner[best.value].value)
        invariant best.Some? ==> forall j :: 0 <= j < i && View().Evictable(vram.owner[j]) ==>
                    if j < best.value then cost < View().VramCost(vram.owner[j].value)
                    else cost <= View().VramCost(vram.owner[j].value)
      {
        assert SlotOk(vram, VramReserved(jobs), i);
        if vram.owner[i].None? || busy[vram.owner[i].value] || used[vram.owner[i].value] == tick {
          continue;
        }
        if best.None? || demand[vram.owner[i].value] < cost {
          best, cost := Some(i), demand[vram.owner[i].value];
        }
      }
      if best.None? || cost >= limit {
        return None;
      }
      return best;
    }

    method StartFetch(e: nat, limit: nat) returns (slot: Option<nat>)
      requires Inv(View()) && View().Expert(e) && !busy[e] && ram.at[e] == None && vram.at[e] == None
      modifies this`ram, this`busy, this`queued, this`jobs
      ensures slot.Some? ==> Enabled(old(View()), Step.StartFetch(e, slot.value, limit))
                             && View() == Apply(old(View()), Step.StartFetch(e, slot.value, limit))
      ensures slot.None? ==> View() == old(View()) && forall i: nat :: !View().RamChoice(i, limit)
    {
      slot := FindRamSlot(limit);
      if slot.Some? {
        ram := ram.TakeFor(slot.value, e);
        busy := busy[e := true];
        queued := queued + 1;
        jobs := jobs[e := Fetching(slot.value)];
      }
    }

    method StartPromote(e: nat) returns (slot: Option<nat>)
      requires Inv(View()) && View().Expert(e) && !busy[e] && ram.at[e].Some? && vram.at[e] == None
      modifies this`vram, this`busy, this`queued, this`jobs
      ensures slot.Some? ==> Enabled(old(View()), Step.StartPromote(e, slot.value))
                             && View() == Apply(old(View()), Step.StartPromote(e, slot.value))
      ensures slot.None? ==> View() == old(View()) && forall i: nat :: !View().VramChoice(i, demand[e])
    {
      slot := FindVramSlot(demand[e]);
      if slot.Some? {
        vram := vram.TakeFor(slot.value, e);
        busy := busy[e := true];
        queued := queued + 1;
        jobs := jobs[e := Copying(ram.at[e].value, slot.value)];
      }
    }

    // Start fetching a cold expert this layer must run. Fails only when no RAM slot can be taken.
    method Request(e: nat) returns (ok: bool, slot: Option<nat>)
      requires Inv(View()) && View().Expert(e)
      modifies this
      ensures var marked := Apply(old(View()), Use(e));
              && (slot.Some? ==> Enabled(marked, Step.StartFetch(e, slot.value, U32_MAX))
                                 && View() == Apply(marked, Step.StartFetch(e, slot.value, U32_MAX)))
              && (slot.None? ==> View() == marked)
              && (!ok ==> forall i: nat :: !marked.RamChoice(i, U32_MAX))
      ensures ok <==> View().Expert(e) && (ram.at[e].Some? || vram.at[e].Some? || busy[e])
    {
      StepKeepsInv(View(), Use(e));
      used := used[e := tick];
      ok, slot := true, None;
      if ram.at[e] == None && vram.at[e] == None && !busy[e] {
        slot := StartFetch(e, U32_MAX);
        ok := slot.Some?;
      }
    }

    // Queue whatever moves this expert one tier closer, if a slot is worth taking for it.
    method Want(e: nat) returns (slot: Option<nat>)
      requires Inv(View()) && View().Expert(e)
      modifies this
      ensures slot.None? ==> View() == old(View())
      ensures slot.None? ==> busy[e] || vram.at[e].Some? || queued >= MAX_QUEUED
                             || (ram.at[e] == None && forall i: nat :: !View().RamChoice(i, demand[e]))
                             || (ram.at[e].Some? &&
                               (demand[e] < PROMOTE_AFTER || forall i: nat :: !View().VramChoice(i, demand[e])))
      ensures slot.Some? ==> !old(busy[e]) && old(vram.at[e]) == None && old(queued) < MAX_QUEUED
      ensures slot.Some? && old(ram.at[e]) == None ==>
                Enabled(old(View()), Step.StartFetch(e, slot.value, old(demand[e])))
                && View() == Apply(old(View()), Step.StartFetch(e, slot.value, old(demand[e])))
      ensures slot.Some? && old(ram.at[e]).Some? ==>
                old(demand[e]) >= PROMOTE_AFTER && Enabled(old(View()), Step.StartPromote(e, slot.value))
                && View() == Apply(old(View()), Step.StartPromote(e, slot.value))
    {
      slot := None;
      if busy[e] || vram.at[e].Some? || queued >= MAX_QUEUED {
        return;
      }
      if ram.at[e] == None {
        slot := StartFetch(e, demand[e]);
      } else if demand[e] >= PROMOTE_AFTER {
        slot := StartPromote(e);
      }
    }

    // The slot of a finished job, found as the first slot the owner table gives to `e`.
    method FinishedSlot(e: nat) returns (slot: nat)
      requires Inv(View()) && Enabled(View(), Step.Adopt(e))
      ensures slot == if jobs[e].Fetched? then jobs[e].slot else jobs[e].dst
    {
      var t := if jobs[e].Fetched? then ram else vram;
      ghost var reserved := if jobs[e].Fetched? then RamReserved(jobs) else VramReserved(jobs);
      assert TierInv(t, catalog, reserved) && e in reserved && ExpertOk(t, catalog, reserved, e);
      slot := 0;
      while t.owner[slot] != Some(e)
        invariant slot <= reserved[e] < |t.owner|
        decreases |t.owner| - slot
      {
        slot := slot + 1;
      }
      OwnedSlotIsReserved(t, catalog, reserved, e, slot);
    }

    // Take in a finished job.
    method Adopt(e: nat)
      requires Inv(View()) && Enabled(View(), Step.Adopt(e))
      modifies this`queued, this`ram, this`vram, this`busy, this`jobs
      ensures View() == Apply(old(View()), Step.Adopt(e))
    {
      var slot := FinishedSlot(e);
      queued := queued - 1;
      if jobs[e].Fetched? {
        ram := ram.(at := ram.at[e := Some(slot)]);
      } else {
        vram := vram.(at := vram.at[e := Some(slot)]);
      }
      busy := busy[e := false];
      jobs := jobs - {e};
    }
  }
}
