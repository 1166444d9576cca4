/** The expert cache as the program runs it: fields updated in place, loops over the batch. */
module ExpertCaches {
  import opened Options
  import opened ExpertTables
  import opened ExpertBatches
  import opened ExpertRequests
  import opened ExpertRefusals
  import opened ExpertPanics
  import opened ExpertViews

  class ExpertCache {
    const layers: nat
    const perLayer: nat
    var directory: seq<Place>
    var counts: seq<nat>
    var pinned: seq<bool>
    var vram: Tier
    var ram: Tier
    var hits: seq<nat>
    var mem: Mem

    function Now(): Tables
      reads this
    { Tables(layers, perLayer, directory, counts, pinned, vram, ram, hits) }

    predicate Valid()
      reads this
    { Shape(Now()) && MemShape(Now(), mem) }

    constructor (layers: nat, perLayer: nat, mem: Mem)
      requires |mem.host| == StagingSlots
      ensures Now() == NewTables(layers, perLayer, |mem.vram|, |mem.ram|) && this.mem == mem && Valid()
    {
      var c := NewTables(layers, perLayer, |mem.vram|, |mem.ram|);
      this.layers, this.perLayer, this.mem := layers, perLayer, mem;
      directory, counts, pinned, vram, ram, hits := c.directory, c.counts, c.pinned, c.vram, c.ram, c.hits;
    }

    // ----- The clocks -----

    method AllocRamSlot() returns (slot: Option<nat>)
      requires Valid() && |ram.owners| > 0
      modifies this`ram, this`directory, this`hits
      ensures var w := Take(old(ram), old(directory), pinned);
        && slot == w.slot && ram == w.tier && directory == w.directory
        && var evicts := old(ram).free == [] && w.slot.Some? && old(ram).owners[w.slot.value].Some?;
        && hits == if evicts then old(hits)[w.slot.value := 0] else old(hits)
    {
      if ram.free != [] {
        slot := Some(ram.free[|ram.free| - 1]);
        ram := ram.(free := ram.free[..|ram.free| - 1]);
      } else {
        var w := ClockSweep(ram, directory, pinned, 2 * |ram.owners| + 1);
        slot := w.slot;
        if slot.Some? && ram.owners[slot.value].Some? {
          hits := hits[slot.value := 0];
        }
        ram, directory := w.tier, w.directory;
      }
    }

    method TakeVramSlot() returns (slot: Option<nat>)
      requires Valid() && |vram.owners| > 0
      modifies this`vram, this`directory
      ensures var w := Take(old(vram), old(directory), pinned);
        slot == w.slot && vram == w.tier && directory == w.directory
    {
      if vram.free != [] {
        slot := Some(vram.free[|vram.free| - 1]);
        vram := vram.(free := vram.free[..|vram.free| - 1]);
      } else {
        var w := ClockSweep(vram, directory, pinned, 2 * |vram.owners| + 1);
        slot, vram, directory := w.slot, w.tier, w.directory;
      }
    }

    // ----- Phase 1 -----

    method ReserveSlot(id: nat, misses: seq<Miss>, stage: nat) returns (more: seq<Miss>, next: nat, ok: bool)
      requires Valid() && id < |directory| && directory[id] == Cold
      modifies this`vram, this`ram, this`directory, this`hits
      ensures Reserved(Now(), more, next, ok) == ReserveOne(Reserved(old(Now()), misses, stage, true), id)
    {
      more, next, ok := misses, stage, true;
      if UsesVram(Now()) {
        assert vram.free != [] ==> vram.free[0] < |vram.owners|;
        var slot := TakeVramSlot();
        if slot.None? {
          ok := false;
        } else {
          more := misses + [Miss(id, Vram(slot.value), stage)];
        }
      } else if |ram.owners| > 0 {
        var slot := AllocRamSlot();
        if slot.None? {
          ok := false;
        } else {
          more, next := misses + [Miss(id, Ram(slot.value), stage)], stage + 1;
        }
      } else {
        more, next := misses + [Miss(id, Cold, stage)], stage + 1;
      }
    }

    method ReserveSlots(ids: seq<nat>) returns (misses: seq<Miss>, stage: nat, ok: bool)
      requires Valid() && InRange(Now(), ids)
      modifies this`vram, this`ram, this`directory, this`hits
      ensures Reserved(Now(), misses, stage, ok) == ReserveAll(old(Now()), ids)
    {
      misses, stage, ok := [], 1, true;
      for k := 0 to |ids|
        invariant Valid() && SameFrame(old(Now()), Now())
        invariant Reserved(Now(), misses, stage, ok) == ReserveAll(old(Now()), ids[..k])
      {
        assert ids[..k + 1][..k] == ids[..k];
        ReserveKeepsShape(Reserved(Now(), misses, stage, ok), ids[k]);
        if ok && directory[ids[k]] == Cold {
          misses, stage, ok := ReserveSlot(ids[k], misses, stage);
        }
      }
      assert ids[..|ids|] == ids;
    }

    method BindVram(s: nat, id: nat)
      requires Valid() && s < |vram.owners| && id < |directory|
      modifies this`vram, this`directory
      ensures Now() == Bind(old(Now()), Vram(s), id)
    {
      vram := vram.(owners := vram.owners[s := Some(id)], ref := vram.ref[s := true]);
      directory := directory[id := Vram(s)];
    }

    method BindRam(s: nat, id: nat)
      requires Valid() && s < |ram.owners| && id < |directory|
      modifies this`ram, this`directory, this`hits
      ensures Now() == Bind(old(Now()), Ram(s), id)
    {
      ram := ram.(owners := ram.owners[s := Some(id)], ref := ram.ref[s := true]);
      hits := hits[s := 0];
      directory := directory[id := Ram(s)];
    }

    method BindMiss(m: Miss, views: map<nat, View>, ghost stage: nat) returns (more: map<nat, View>)
      requires Valid() && MissFits(Work(Now(), mem, views, stage, Going), m)
      modifies this
      ensures Valid()
      ensures Work(Now(), mem, more, stage, Going) == BindOne(Work(old(Now()), old(mem), views, stage, Going), m)
    {
      match m.place {
        case Vram(s) =>
          BindVram(s, m.id);
          more := views[m.id := View(InVram(s), ColdToVram)];
        case Ram(s) =>
          BindRam(s, m.id);
          mem := mem.(host := mem.host[m.stage := mem.ram[s]]);
          more := views[m.id := View(InHost(m.stage), ColdToRamAndHost)];
        case Cold =>
          more := views[m.id := View(InHost(m.stage), ColdStagedToHost)];
      }
    }

    method BindMisses(misses: seq<Miss>, ghost stage: nat) returns (views: map<nat, View>)
      requires Valid() && AllFit(Work(Now(), mem, map[], stage, Going), misses)
      modifies this
      ensures Valid()
      ensures Work(Now(), mem, views, stage, Going) == BindAll(Work(old(Now()), old(mem), map[], stage, Going), misses)
    {
      views := map[];
      ghost var end := BindAll(Work(Now(), mem, map[], stage, Going), misses);
      assert misses[0..] == misses;
      for k := 0 to |misses|
        invariant Valid() && AllFit(Work(Now(), mem, views, stage, Going), misses[k..])
        invariant BindAll(Work(Now(), mem, views, stage, Going), misses[k..]) == end
      {
        assert misses[k..][0] == misses[k] && misses[k..][1..] == misses[k + 1..];
        views := BindMiss(misses[k], views, stage);
      }
    }

    // ----- Phase 2 -----

    method SelectVictim(id: nat, r: nat) returns (slot: Option<nat>)
      requires Valid() && id < |directory| && r < |hits|
      modifies this`vram
      ensures forall views, stage, status ::
        var (h, found) := Hunt(Work(old(Now()), mem, views, stage, status), id, hits[r]);
        slot == found && h == Work(Now(), mem, views, stage, status)
    {
      if |vram.owners| == 0 || hits[r] < PromoteMinHits {
        return None;
      }
      var tier;
      tier, slot := VictimSearch(vram, pinned, counts, counts[id], if 2 * |vram.owners| < 32 then 2 * |vram.owners|
        else 32);
      vram := tier;
    }

    // Into a free VRAM slot; the RAM slot becomes free.
    method MoveUp(id: nat, r: nat, views: map<nat, View>, ghost stage: nat) returns (more: map<nat, View>)
      requires Valid() && id < |directory| && r < |ram.owners| && vram.free != []
      modifies this
      ensures Work(Now(), mem, more, stage, Going) == Promote(Work(old(Now()), old(mem), views, stage, Going), id, r)
    {
      var v := vram.free[|vram.free| - 1];
      vram := vram.(free := vram.free[..|vram.free| - 1]);
      mem := mem.(vram := mem.vram[v := mem.ram[r]]);
      ram := ram.(owners := ram.owners[r := None], ref := ram.ref[r := false], free := ram.free + [r]);
      hits := hits[r := 0];
      BindVram(v, id);
      more := views[id := View(InVram(v), RamPromotedToVram)];
    }

    // Victim to staging slot 0, hot expert to VRAM, victim to the RAM slot.
    method TradePlaces(id: nat, r: nat, v: nat, victim: nat, views: map<nat, View>, ghost stage: nat)
      returns (more: map<nat, View>)
      requires Valid() && id < |directory| && victim < |directory| && r < |ram.owners| && v < |vram.owners|
      modifies this
      ensures Work(Now(), mem, more, stage, Going) ==
        Exchange(Work(old(Now()), old(mem), views, stage, Going), id, r, v, victim)
    {
      mem := mem.(host := mem.host[0 := mem.vram[v]]);
      mem := mem.(vram := mem.vram[v := mem.ram[r]]);
      mem := mem.(ram := mem.ram[r := mem.host[0]]);
      BindVram(v, id);
      BindRam(r, victim);
      ram := ram.(ref := ram.ref[r := false]);
      more := views[id := View(InVram(v), RamSwappedToVram)];
    }

    method ServeRamHit(id: nat, r: nat, views: map<nat, View>, stage: nat, dma: bool)
      returns (more: map<nat, View>, next: nat, status: Status)
      requires Valid() && id < |directory| && r < |ram.owners|
      modifies this
      ensures Work(Now(), mem, more, next, status) ==
        ServeRam(Work(old(Now()), old(mem), views, stage, Going), id, r, dma)
    {
      more, next, status := views, stage, Going;
      ghost var touched := Touch(Work(Now(), mem, views, stage, Going), r);
      ram := ram.(ref := ram.ref[r := true]);
      hits := hits[r := Bump(hits[r])];
      assert Work(Now(), mem, views, stage, Going) == touched;
      if vram.free != [] {
        more := MoveUp(id, r, views, stage);
        return;
      }
      var slot := SelectVictim(id, r);
      assert (Work(Now(), mem, views, stage, Going), slot) == Hunt(touched, id, touched.c.hits[r]);
      if slot.None? {
        if stage < StagingSlots {
          mem := mem.(host := mem.host[stage := mem.ram[r]]);
          more, next := views[id := View(InHost(stage), RamStagedToHost)], stage + 1;
        } else {
          status := Panicked;
        }
      } else if vram.owners[slot.value].None? {
        status := Panicked;
      } else if !dma {
        status := Failed;
      } else {
        more := TradePlaces(id, r, slot.value, vram.owners[slot.value].value, views, stage);
      }
    }

    method ServeHits(ids: seq<nat>, resolved: map<nat, View>, from: nat, dma: nat -> bool)
      returns (views: map<nat, View>, stage: nat, status: Status)
      requires Valid() && InRange(Now(), ids)
      modifies this
      ensures Work(Now(), mem, views, stage, status) ==
        ServeAll(Work(old(Now()), old(mem), resolved, from, Going), ids, dma)
    {
      views, stage, status := resolved, from, Going;
      ghost var start := Work(Now(), mem, resolved, from, Going);
      for k := 0 to |ids|
        invariant Work(Now(), mem, views, stage, status) == ServeAll(start, ids[..k], dma)
      {
        assert ids[..k + 1][..k] == ids[..k];
        var id := ids[k];
        if status == Going && id !in views {
          match directory[id] {
            case Cold =>
              status := Panicked;
            case Vram(v) =>
              vram := vram.(ref := vram.ref[v := true]);
              views := views[id := View(InVram(v), VramHit)];
            case Ram(r) =>
              views, stage, status := ServeRamHit(id, r, views, stage, dma(id));
          }
        }
      }
      assert ids[..|ids|] == ids;
    }

    // ----- A whole request -----

    method PinExperts(layer: nat, experts: seq<nat>) returns (ids: seq<nat>, ok: bool)
      requires Valid() && layer < layers
      modifies this`counts, this`pinned
      ensures Pins(Now(), ids, ok) == PinAll(old(Now()), layer, experts)
    {
      ids, ok := [], true;
      ghost var start := Now();
      for k := 0 to |experts|
        invariant Pins(Now(), ids, ok) == PinAll(start, layer, experts[..k]) && start == old(Now())
      {
        assert experts[..k + 1][..k] == experts[..k];
        if ok {
          if experts[k] >= perLayer {
            ok := false;
          } else {
            var id := ExpertId(Now(), layer, experts[k]);
            counts := counts[id := counts[id] + 1];
            if !pinned[id] {
              pinned := pinned[id := true];
              ids := ids + [id];
            }
          }
        }
      }
      assert experts[..|experts|] == experts;
    }

    method UnpinExperts(ids: seq<nat>)
      requires Valid() && InRange(Now(), ids)
      modifies this`pinned
      ensures Now() == Unpin(old(Now()), ids)
    {
      for k := 0 to |ids|
        invariant Now() == Unpin(old(Now()), ids[..k])
      {
        assert ids[..k + 1][..k] == ids[..k];
        pinned := pinned[ids[k] := false];
      }
      assert ids[..|ids|] == ids;
    }

    method ServeBatch(ids: seq<nat>, world: World) returns (views: map<nat, View>, stage: nat, status: Status)
      requires Valid() && MemShape(Now(), world.after) && InRange(Now(), ids) && |ids| < StagingSlots
      modifies this
      ensures Work(Now(), mem, views, stage, status) == AcquirePinned(old(Now()), old(mem), ids, world)
    {
      var misses, ok;
      ReservationsFit(Now(), ids);
      misses, stage, ok := ReserveSlots(ids);
      views := map[];
      if !ok {
        return views, stage, Failed;
      }
      if misses != [] {
        mem := world.after;
        if !world.readOk {
          return views, stage, Failed;
        }
      }
      views := BindMisses(misses, stage);
      views, stage, status := ServeHits(ids, views, stage, world.dma);
    }

    method AcquireLayer(layer: nat, experts: seq<nat>, world: World) returns (answer: Answer)
      requires Valid() && MemShape(Now(), world.after)
      modifies this
      ensures Outcome(Now(), mem, answer) == Acquire(old(Now()), old(mem), layer, experts, world)
      ensures Valid()
      ensures answer != Refused ==>
        (answer == Crashed <==>
          AsksForPinned(old(Now()), layer, experts) || VictimIsMissing(old(Now()), layer, experts))
    {
      ghost var before := mem;
      if layer >= layers {
        return Refused;
      }
      var c := Now();
      var ids, ok := PinExperts(layer, experts);
      if !ok {
        return Refused;
      }
      if |ids| > StagingSlots - 1 {
        UnpinExperts(ids);
        return Refused;
      }
      var views, stage, status := ServeBatch(ids, world);
      answer := match status
        case Failed => Refused
        case Going => Answered(c, layer, experts, views)
        case Panicked => Crashed;
      if answer != Crashed {
        UnpinExperts(ids);
      }
      AcquireKeepsShape(c, before, layer, experts, world);
      if answer != Refused {
        PanicsIff(c, before, layer, experts, world);
      }
    }

    /** What a caller of a sound cache gets: after success, agreement exactly if the request was clean, then right views
        and otherwise two experts with the same bytes; after a refusal, a sound cache exactly if it was harmless; and
        never a panic. */
    method AcquireFromSound(layer: nat, experts: seq<nat>, world: World, ghost weights: seq<Data>)
      returns (answer: Answer)
      requires Sound(Now(), mem, weights) && HonestRequest(Now(), mem, layer, experts, world, weights)
      modifies this
      ensures Valid() && answer != Crashed
      ensures answer.Views? ==> Delivered(old(Now()), Now(), mem, layer, experts, answer.views, weights)
      ensures answer == Refused ==> (Sound(Now(), mem, weights) <==> Harmless(old(Now()), layer, experts, world))
    {
      ghost var c, before := Now(), mem;
      answer := AcquireLayer(layer, experts, world);
      AlwaysDelivered(c, before, layer, experts, world, weights);
    }
  }

  // What a successful request from sound tables `c` delivers: the tables `d` agree exactly if it was clean, then every
  // view is right, and otherwise two experts have the same bytes; for experts that differ, the views tell which.
  ghost predicate Delivered(
    c: Tables, d: Tables, mem: Mem, layer: nat, experts: seq<nat>, views: seq<View>, weights: seq<Data>)
    requires Shape(c) && Shape(d)
  {
    && layer < c.layers && (Inverse(d) <==> CleanRequest(c, layer, experts))
    && (if CleanRequest(c, layer, experts)
        then Sound(d, mem, weights) && ViewsAddress(c, mem, layer, experts, views, weights)
        else TwoShowTheSame(mem, experts, views))
    && (AllDifferent(weights) ==>
        (ViewsAddress(c, mem, layer, experts, views, weights) <==> CleanRequest(c, layer, experts)))
  }

  lemma AlwaysDelivered(c: Tables, mem: Mem, layer: nat, experts: seq<nat>, world: World, weights: seq<Data>)
    requires Sound(c, mem, weights) && HonestRequest(c, mem, layer, experts, world, weights)
    ensures var o := Acquire(c, mem, layer, experts, world);
      && Shape(o.c) && o.answer != Crashed
      && (o.answer.Views? ==> Delivered(c, o.c, o.mem, layer, experts, o.answer.views, weights))
      && (o.answer == Refused ==> (Sound(o.c, o.mem, weights) <==> Harmless(c, layer, experts, world)))
  {
    AcquireKeepsShape(c, mem, layer, experts, world);
    RequestKeepsAgreement(c, mem, layer, experts, world, weights);
    if Acquire(c, mem, layer, experts, world).answer == Refused {
      RefusalIsHarmlessIff(c, mem, layer, experts, world, weights);
    }
  }

  method ClockSweep(t: Tier, directory: seq<Place>, pinned: seq<bool>, steps: nat) returns (r: Swept)
    requires TierShape(t, |directory|) && |t.owners| > 0 && |pinned| == |directory|
    ensures r == Sweep(t, directory, pinned, steps)
  {
    var tier, left: nat := t, steps;
    while left > 0
      invariant TierShape(tier, |directory|) && tier.owners == t.owners
      invariant Sweep(tier, directory, pinned, left) == Sweep(t, directory, pinned, steps)
    {
      var s := tier.hand;
      tier := Advance(tier);
      if tier.owners[s].None? {
        return Swept(tier, directory, Some(s));
      }
      var owner := tier.owners[s].value;
      if !pinned[owner] {
        if !tier.ref[s] {
          return Swept(tier.(owners := tier.owners[s := None]), directory[owner := Cold], Some(s));
        }
        tier := tier.(ref := tier.ref[s := false]);
      }
      left := left - 1;
    }
    r := Swept(tier, directory, None);
  }

  method VictimSearch(t: Tier, pinned: seq<bool>, counts: seq<nat>, score: nat, steps: nat)
    returns (tier: Tier, found: Option<nat>)
    requires TierShape(t, |pinned|) && |t.owners| > 0 && |pinned| == |counts|
    ensures (tier, found) == Seek(t, pinned, counts, score, steps)
  {
    var left: nat := steps;
    tier := t;
    while left > 0
      invariant TierShape(tier, |pinned|) && tier.owners == t.owners
      invariant Seek(tier, pinned, counts, score, left) == Seek(t, pinned, counts, score, steps)
    {
      var s := tier.hand;
      tier := Advance(tier);
      if tier.owners[s].None? {
        return tier, Some(s);
      }
      var owner := tier.owners[s].value;
      if !pinned[owner] {
        if tier.ref[s] {
          tier := tier.(ref := tier.ref[s := false]);
        } else if score > counts[owner] {
          return tier, Some(s);
        }
      }
      left := left - 1;
    }
    found := None;
  }
}
