/** What refused requests leave behind in the expert cache, cause by cause. */
module ExpertRefusals {
  import opened ExpertTables
  import opened ExpertBatches
  import opened ExpertContents
  import opened ExpertRequests

  // ----- A reservation that fails -----

  // The parts of the tables that agreement is about.
  predicate SameTables(c: Tables, d: Tables) {
    && SameFrame(c, d) && d.directory == c.directory && d.counts == c.counts
    && d.vram.owners == c.vram.owners && d.ram.owners == c.ram.owners
    && d.vram.free == c.vram.free && d.ram.free == c.ram.free
  }

  lemma FailureKeepsTables(r: Reserved, id: nat)
    requires Shape(r.c) && id < |r.c.directory| && r.ok && !ReserveOne(r, id).ok
    ensures var q := ReserveOne(r, id);
      Shape(q.c) && SameTables(r.c, q.c) && q.misses == r.misses && (|r.c.vram.owners| > 0 || |r.c.ram.owners| > 0)
  {
    ReserveKeepsShape(r, id);
  }

  lemma SameTablesAgree(c: Tables, d: Tables, misses: seq<Miss>)
    requires Shape(c) && Shape(d) && SameTables(c, d)
    ensures Inverse(c) ==> Inverse(d)
    ensures FreeListsOk(c) ==> FreeListsOk(d)
    ensures Covered(c, misses) ==> Covered(d, misses)
    ensures AllHeld(c, misses) ==> AllHeld(d, misses)
  {
    assert forall id: nat :: OwnsItsSlot(c, id) == OwnsItsSlot(d, id);
    assert forall p :: SlotIsListed(c, p) == SlotIsListed(d, p) && FreeIsUnowned(c, p) == FreeIsUnowned(d, p);
    assert forall p :: Accounted(c, misses, p) == Accounted(d, misses, p);
    assert forall i :: 0 <= i < |misses| ==> Held(c, misses[i]) == Held(d, misses[i]);
  }

  // What a reservation keeps whether it succeeds or fails.
  ghost predicate Reserving(c: Tables, r: Reserved)
    requires Shape(c) && Shape(r.c)
  {
    && Inverse(r.c) && FreeListsOk(r.c) && Evicts(c, r.c) && AllHeld(r.c, r.misses) && Covered(r.c, r.misses)
    && (forall i :: 0 <= i < |r.misses| && r.misses[i].place == Cold ==> NoSlots(c))
    && (!r.ok ==> !NoSlots(c))
  }

  predicate NoSlots(c: Tables) { |c.vram.owners| == 0 && |c.ram.owners| == 0 }

  lemma {:induction false} ReserveAlwaysKeeps(c: Tables, ids: seq<nat>)
    requires Shape(c) && InRange(c, ids) && Ready(c, ids)
    ensures Reserving(c, ReserveAll(c, ids))
  {
    if ids != [] {
      var n := |ids| - 1;
      var r, q := ReserveAll(c, ids[..n]), ReserveAll(c, ids);
      ReserveAlwaysKeeps(c, ids[..n]);
      if q.ok {
        ReserveKeepsInv(c, ids);
        ColdPlacesNeedNoSlots(r, ids[n]);
      } else if r.ok {
        FailureKeepsTables(r, ids[n]);
        SameTablesAgree(r.c, q.c, r.misses);
      }
    }
  }

  lemma ColdPlacesNeedNoSlots(r: Reserved, id: nat)
    requires Shape(r.c) && id < |r.c.directory|
    requires forall i :: 0 <= i < |r.misses| && r.misses[i].place == Cold ==> NoSlots(r.c)
    ensures var q := ReserveOne(r, id);
      forall i :: 0 <= i < |q.misses| && q.misses[i].place == Cold ==> NoSlots(r.c)
  {}

  // A slot held for a miss and given to nobody.
  lemma HeldSlotIsAHole(c: Tables, misses: seq<Miss>, i: nat)
    requires Shape(c) && AllHeld(c, misses) && i < |misses| && misses[i].place != Cold
    ensures !Covered(c, [])
  {
    assert Held(c, misses[i]);
    assert !Accounted(c, [], misses[i].place);
  }

  // The tables after a reservation whose request is given up: free of holes exactly if no slot was taken.
  lemma AbandonedReservation(c: Tables, ids: seq<nat>)
    requires Shape(c) && InRange(c, ids) && Ready(c, ids)
    ensures var r := ReserveAll(c, ids);
      && Inverse(r.c) && FreeListsOk(r.c) && r.c.pinned == c.pinned
      && (Covered(r.c, []) <==> r.misses == [] || NoSlots(c))
  {
    ReserveAlwaysKeeps(c, ids);
    var r := ReserveAll(c, ids);
    if r.misses != [] && !NoSlots(c) {
      HeldSlotIsAHole(r.c, r.misses, 0);
    } else if NoSlots(c) {
      assert forall p :: !HasSlot(r.c, p);
    }
  }

  // ----- Contents -----

  lemma AbandonedContents(c: Tables, ids: seq<nat>, mem: Mem, weights: seq<Data>)
    requires Shape(c) && InRange(c, ids) && Ready(c, ids) && MemShape(c, mem) && Holds(c, mem, weights)
    ensures MemShape(ReserveAll(c, ids).c, mem) && Holds(ReserveAll(c, ids).c, mem, weights)
  {
    ReserveAlwaysKeeps(c, ids);
    EvictionKeepsContents(c, ReserveAll(c, ids).c, mem, weights);
  }

  // ----- Unpinning -----

  lemma UnpinnedTables(c: Tables, layer: nat, experts: seq<nat>, d: Tables, mem: Mem, weights: seq<Data>)
    requires Shape(c) && layer < c.layers && NonePinned(c) && Shape(d) && MemShape(d, mem) && |weights| == |d.directory|
    requires var p := PinAll(c, layer, experts); d.pinned == p.c.pinned && InRange(d, p.ids)
    ensures var u := Unpin(d, PinAll(c, layer, experts).ids);
      Sound(u, mem, weights) <==> Inverse(d) && FreeListsOk(d) && Covered(d, []) && Holds(d, mem, weights)
  {
    var ids := PinAll(c, layer, experts).ids;
    PinsAreTheBatch(c, layer, experts);
    PinsDoNotMatter(d, Unpin(d, ids), mem, weights);
    PinsDoNotMatter(Unpin(d, ids), d, mem, weights);
  }

  // ----- The theorem -----

  // A refusal leaves no trace: for an index out of range, if it was the first; for a request given up in phase 1, if no
  // slot was reserved before; for a failed GPU copy, if the request met no slot it had reserved.
  predicate Harmless(c: Tables, layer: nat, experts: seq<nat>, world: World)
    requires Shape(c)
  {
    layer >= c.layers ||
    var p := PinAll(c, layer, experts);
    if !p.ok then experts != [] && experts[0] >= c.perLayer
    else if |p.ids| >= StagingSlots then true
    else if !GetsThrough(p.c, p.ids, world) then ReserveAll(p.c, p.ids).misses == [] || NoSlots(c)
    else Clean(p.c, p.ids)
  }

  lemma {:induction false} FirstIndexDecides(c: Tables, layer: nat, experts: seq<nat>)
    requires Shape(c) && layer < c.layers && NonePinned(c) && experts != []
    ensures PinAll(c, layer, experts).ids == [] <==> experts[0] >= c.perLayer
  {
    var n := |experts| - 1;
    if n > 0 {
      FirstIndexDecides(c, layer, experts[..n]);
    } else {
      assert experts[..n] == [];
    }
  }

  lemma BadIndexRefusal(c: Tables, mem: Mem, layer: nat, experts: seq<nat>, weights: seq<Data>)
    requires Sound(c, mem, weights) && layer < c.layers && !PinAll(c, layer, experts).ok
    ensures Sound(PinAll(c, layer, experts).c, mem, weights) <==> experts != [] && experts[0] >= c.perLayer
  {
    var p := PinAll(c, layer, experts);
    PinsAreTheBatch(c, layer, experts);
    FirstIndexDecides(c, layer, experts);
    PinsDoNotMatter(c, p.c, mem, weights);
    assert p.ids != [] ==> p.c.pinned[p.ids[0]];
  }

  lemma Phase1Refusal(c: Tables, mem: Mem, layer: nat, experts: seq<nat>, world: World, weights: seq<Data>)
    requires Sound(c, mem, weights) && MemShape(c, world.after) && layer < c.layers
    requires var p := PinAll(c, layer, experts); p.ok && |p.ids| < StagingSlots && !GetsThrough(p.c, p.ids, world)
    ensures var o := Acquire(c, mem, layer, experts, world);
      var p := PinAll(c, layer, experts);
      o.answer == Refused && (Sound(o.c, o.mem, weights) <==> ReserveAll(p.c, p.ids).misses == [] || NoSlots(c))
  {
    var p := PinAll(c, layer, experts);
    var left := AcquirePinned(p.c, mem, p.ids, world).mem;
    Phase1Outcome(c, mem, layer, experts, world);
    AbandonedSound(c, mem, layer, experts, left, weights);
  }

  lemma Phase1Outcome(c: Tables, mem: Mem, layer: nat, experts: seq<nat>, world: World)
    requires Shape(c) && MemShape(c, mem) && MemShape(c, world.after) && layer < c.layers
    requires var p := PinAll(c, layer, experts); p.ok && |p.ids| < StagingSlots && !GetsThrough(p.c, p.ids, world)
    ensures var p := PinAll(c, layer, experts);
      var r := ReserveAll(p.c, p.ids);
      var left := AcquirePinned(p.c, mem, p.ids, world).mem;
      && Acquire(c, mem, layer, experts, world) == Outcome(Unpin(r.c, p.ids), left, Refused)
      && MemShape(c, left) && (r.misses == [] ==> left == mem) && (left != mem ==> r.ok)
  {}

  // Whatever memory is left, the tables decide.
  lemma AbandonedSound(c: Tables, mem: Mem, layer: nat, experts: seq<nat>, left: Mem, weights: seq<Data>)
    requires Sound(c, mem, weights) && layer < c.layers && MemShape(c, left)
    requires var p := PinAll(c, layer, experts); ReserveAll(p.c, p.ids).misses == [] ==> left == mem
    ensures var p := PinAll(c, layer, experts);
      var r := ReserveAll(p.c, p.ids);
      Sound(Unpin(r.c, p.ids), left, weights) <==> r.misses == [] || NoSlots(c)
  {
    var p := PinAll(c, layer, experts);
    var r := ReserveAll(p.c, p.ids);
    PinnedIsReady(c, mem, weights, layer, experts);
    AbandonedAgreement(p.c, p.ids, mem, left, weights);
    UnpinnedTables(c, layer, experts, r.c, left, weights);
  }

  lemma AbandonedAgreement(c: Tables, ids: seq<nat>, mem: Mem, left: Mem, weights: seq<Data>)
    requires Shape(c) && InRange(c, ids) && Ready(c, ids) && MemShape(c, mem) && MemShape(c, left)
    requires Holds(c, mem, weights)
    requires ReserveAll(c, ids).misses == [] ==> left == mem
    ensures var r := ReserveAll(c, ids);
      && Inverse(r.c) && FreeListsOk(r.c) && MemShape(r.c, left)
      && (Covered(r.c, []) && Holds(r.c, left, weights) <==> r.misses == [] || NoSlots(c))
  {
    var r := ReserveAll(c, ids);
    AbandonedReservation(c, ids);
    if r.misses == [] {
      AbandonedContents(c, ids, mem, weights);
    } else if NoSlots(c) {
      assert forall x :: SlotHolds(r.c, left, weights, x);
    }
  }

  lemma CopyRefusal(c: Tables, mem: Mem, layer: nat, experts: seq<nat>, world: World, weights: seq<Data>)
    requires Sound(c, mem, weights) && HonestRequest(c, mem, layer, experts, world, weights) && layer < c.layers
    requires var p := PinAll(c, layer, experts); p.ok && |p.ids| < StagingSlots && GetsThrough(p.c, p.ids, world)
    requires AcquirePinned(PinAll(c, layer, experts).c, mem, PinAll(c, layer, experts).ids, world).status == Failed
    ensures var o := Acquire(c, mem, layer, experts, world);
      var p := PinAll(c, layer, experts);
      o.answer == Refused && (Sound(o.c, o.mem, weights) <==> Clean(p.c, p.ids))
  {
    var p := PinAll(c, layer, experts);
    var w := AcquirePinned(p.c, mem, p.ids, world);
    PinnedIsReady(c, mem, weights, layer, experts);
    UnpinnedTables(c, layer, experts, w.c, w.mem, weights);
    if Clean(p.c, p.ids) {
      CleanBatchKeepsInv(p.c, mem, p.ids, world, weights);
    } else {
      UncleanBatchBreaksTables(p.c, mem, p.ids, world);
    }
  }

  /** A refused request leaves a sound cache sound if and only if the refusal was harmless. */
  lemma RefusalIsHarmlessIff(c: Tables, mem: Mem, layer: nat, experts: seq<nat>, world: World, weights: seq<Data>)
    requires Sound(c, mem, weights) && HonestRequest(c, mem, layer, experts, world, weights)
    requires Acquire(c, mem, layer, experts, world).answer == Refused
    ensures var o := Acquire(c, mem, layer, experts, world);
      Sound(o.c, o.mem, weights) <==> Harmless(c, layer, experts, world)
  {
    if layer < c.layers {
      var p := PinAll(c, layer, experts);
      if !p.ok {
        BadIndexRefusal(c, mem, layer, experts, weights);
      } else if |p.ids| >= StagingSlots {
        TooManyRefusal(c, mem, layer, experts, weights);
      } else if !GetsThrough(p.c, p.ids, world) {
        Phase1Refusal(c, mem, layer, experts, world, weights);
      } else {
        RefusedMeansFailedCopy(c, mem, layer, experts, world);
        CopyRefusal(c, mem, layer, experts, world, weights);
      }
    }
  }

  lemma TooManyRefusal(c: Tables, mem: Mem, layer: nat, experts: seq<nat>, weights: seq<Data>)
    requires Sound(c, mem, weights) && layer < c.layers
    ensures var p := PinAll(c, layer, experts); Sound(Unpin(p.c, p.ids), mem, weights)
  {
    var p := PinAll(c, layer, experts);
    PinsDoNotMatter(c, p.c, mem, weights);
    UnpinnedTables(c, layer, experts, p.c, mem, weights);
  }

  lemma RefusedMeansFailedCopy(c: Tables, mem: Mem, layer: nat, experts: seq<nat>, world: World)
    requires Shape(c) && MemShape(c, mem) && MemShape(c, world.after) && layer < c.layers
    requires var p := PinAll(c, layer, experts); p.ok && |p.ids| < StagingSlots && GetsThrough(p.c, p.ids, world)
    requires Acquire(c, mem, layer, experts, world).answer == Refused
    ensures AcquirePinned(PinAll(c, layer, experts).c, mem, PinAll(c, layer, experts).ids, world).status == Failed
  {}
}
