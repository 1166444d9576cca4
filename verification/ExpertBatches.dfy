/** What a batch of expert requests keeps. */
module ExpertBatches {
  import opened Options
  import opened ExpertTables

  // ----- Invariants -----

  predicate OwnsItsSlot(c: Tables, id: nat)
    requires Shape(c)
  { id < |c.directory| && c.directory[id] != Cold ==> Owner(c, c.directory[id]) == Some(id) }

  predicate SlotIsListed(c: Tables, p: Place)
    requires Shape(c)
  { HasSlot(c, p) && Owner(c, p).Some? ==> Owner(c, p).value < |c.directory| && c.directory[Owner(c, p).value] == p }

  // Directory and owner tables are mutually inverse. In particular no expert is in both tiers.
  ghost predicate Inverse(c: Tables)
    requires Shape(c)
  { (forall id: nat :: OwnsItsSlot(c, id)) && (forall p :: SlotIsListed(c, p)) }

  predicate IsFree(c: Tables, p: Place) {
    match p
    case Cold => false
    case Ram(s) => s in c.ram.free
    case Vram(s) => s in c.vram.free
  }

  predicate NoRepeats(l: seq<nat>) { forall i, j :: 0 <= i < j < |l| ==> l[i] != l[j] }

  predicate FreeIsUnowned(c: Tables, p: Place)
    requires Shape(c)
  { IsFree(c, p) ==> HasSlot(c, p) && Owner(c, p).None? }

  ghost predicate FreeListsOk(c: Tables)
    requires Shape(c)
  { NoRepeats(c.vram.free) && NoRepeats(c.ram.free) && forall p :: FreeIsUnowned(c, p) }

  // ----- Reserving one slot -----

  // From `c` to `d` the slot `p` lost its owner, if it had one, and left the free list, if it was there.
  ghost predicate Claims(c: Tables, d: Tables, p: Place)
    requires Shape(c) && Shape(d)
  {
    && SameFrame(c, d) && d.pinned == c.pinned && d.counts == c.counts
    && HasSlot(c, p) && Owner(d, p).None?
    && (forall q :: HasSlot(c, q) && q != p ==> Owner(d, q) == Owner(c, q))
    && (forall q :: IsFree(d, q) <==> IsFree(c, q) && q != p)
    && NoRepeats(d.vram.free) && NoRepeats(d.ram.free)
    && match Owner(c, p)
       case None => d.directory == c.directory
       case Some(o) => o < |c.directory| && !c.pinned[o] && d.directory == c.directory[o := Cold]
  }

  lemma PopRemoves(free: seq<nat>, rest: seq<nat>, s: nat)
    requires free == rest + [s] && NoRepeats(free)
    ensures NoRepeats(rest) && forall x :: x in rest <==> x in free && x != s
  {
    assert free[|rest|] == s;
    assert forall i :: 0 <= i < |rest| ==> free[i] == rest[i];
  }

  // A tier's side of it.
  lemma TakeClaims(t: Tier, directory: seq<Place>, pinned: seq<bool>)
    requires TierShape(t, |directory|) && |t.owners| > 0 && |pinned| == |directory|
    requires NoRepeats(t.free) && forall i :: 0 <= i < |t.free| ==> t.owners[t.free[i]].None?
    ensures var r := Take(t, directory, pinned);
      r.slot.Some? ==>
        && r.tier.owners == t.owners[r.slot.value := None] && NoRepeats(r.tier.free)
        && (forall x :: x in r.tier.free <==> x in t.free && x != r.slot.value)
        && (t.owners[r.slot.value].None? ==> r.directory == directory)
        && (t.owners[r.slot.value].Some? ==>
            !pinned[t.owners[r.slot.value].value] && r.directory == directory[t.owners[r.slot.value].value := Cold])
  {
    var r := Take(t, directory, pinned);
    if t.free != [] {
      PopRemoves(t.free, r.tier.free, r.slot.value);
      assert t.free[|r.tier.free|] == r.slot.value;
    }
  }

  lemma FreeTierIsUnowned(c: Tables)
    requires Shape(c) && FreeListsOk(c)
    ensures forall i :: 0 <= i < |c.vram.free| ==> c.vram.owners[c.vram.free[i]].None?
    ensures forall i :: 0 <= i < |c.ram.free| ==> c.ram.owners[c.ram.free[i]].None?
  {
    forall i | 0 <= i < |c.vram.free| ensures c.vram.owners[c.vram.free[i]].None? {
      assert FreeIsUnowned(c, Vram(c.vram.free[i]));
    }
    forall i | 0 <= i < |c.ram.free| ensures c.ram.owners[c.ram.free[i]].None? {
      assert FreeIsUnowned(c, Ram(c.ram.free[i]));
    }
  }

  lemma VramClaims(c: Tables, d: Tables, s: nat)
    requires Shape(c) && Shape(d) && FreeListsOk(c) && |c.vram.owners| > 0
    requires var w := Take(c.vram, c.directory, c.pinned);
      w.slot == Some(s) && d == c.(vram := w.tier, directory := w.directory)
    ensures Claims(c, d, Vram(s))
    ensures c.vram.free == [] && MeetsHole(c.vram, c.directory, c.pinned) <==>
      Owner(c, Vram(s)).None? && !IsFree(c, Vram(s))
  {
    FreeTierIsUnowned(c);
    TakeClaims(c.vram, c.directory, c.pinned);
  }

  lemma RamClaims(c: Tables, d: Tables, s: nat)
    requires Shape(c) && Shape(d) && FreeListsOk(c) && |c.ram.owners| > 0
    requires var w := Take(c.ram, c.directory, c.pinned);
      w.slot == Some(s) && d == c.(ram := w.tier, directory := w.directory, hits := d.hits)
    ensures Claims(c, d, Ram(s))
    ensures c.ram.free == [] && MeetsHole(c.ram, c.directory, c.pinned) <==>
      Owner(c, Ram(s)).None? && !IsFree(c, Ram(s))
  {
    FreeTierIsUnowned(c);
    TakeClaims(c.ram, c.directory, c.pinned);
  }

  // The staging slot after a miss.
  function Past(m: Miss): nat { if m.place.Vram? then m.stage else m.stage + 1 }

  // Where a reservation lands, and that a sweep met a hole exactly if the slot was neither owned nor free.
  lemma ReserveClaims(r: Reserved, id: nat)
    requires Shape(r.c) && id < |r.c.directory| && FreeListsOk(r.c) && r.ok && r.c.directory[id] == Cold
    ensures var q := ReserveOne(r, id);
      q.ok ==>
        && |q.misses| == |r.misses| + 1 && q.misses[..|r.misses|] == r.misses
        && var m := q.misses[|r.misses|];
        && m.id == id && m.stage == r.stage && q.stage == Past(m)
        && (m.place == Cold ==> q.c == r.c && !SweepMeetsHole(r.c))
        && (m.place != Cold ==> Shape(q.c) && Claims(r.c, q.c, m.place))
        && (m.place != Cold ==> (SweepMeetsHole(r.c) <==> Owner(r.c, m.place).None? && !IsFree(r.c, m.place)))
  {
    ReserveKeepsShape(r, id);
    var q := ReserveOne(r, id);
    if q.ok && UsesVram(r.c) {
      VramClaims(r.c, q.c, q.misses[|r.misses|].place.slot);
    } else if q.ok && UsesRam(r.c) {
      RamClaims(r.c, q.c, q.misses[|r.misses|].place.slot);
    }
  }

  lemma ClaimKeepsTables(c: Tables, d: Tables, p: Place)
    requires Shape(c) && Shape(d) && Claims(c, d, p) && Inverse(c) && FreeListsOk(c)
    ensures Inverse(d) && FreeListsOk(d)
    ensures forall id :: 0 <= id < |c.directory| ==>
      d.directory[id] == c.directory[id] || (d.directory[id] == Cold && !c.pinned[id])
  {
    assert SlotIsListed(c, p);
    forall id: nat ensures OwnsItsSlot(d, id) {
      assert OwnsItsSlot(c, id);
    }
    forall q ensures SlotIsListed(d, q) && FreeIsUnowned(d, q) {
      assert SlotIsListed(c, q) && FreeIsUnowned(c, q);
    }
  }

  // ----- Reserving for the whole batch -----

  // The slot of a miss is held for it: nobody owns it and it is not on a free list.
  predicate Held(c: Tables, m: Miss) {
    m.place != Cold ==> HasSlot(c, m.place) && Owner(c, m.place).None? && !IsFree(c, m.place)
  }

  ghost predicate AllHeld(c: Tables, misses: seq<Miss>) { forall i :: 0 <= i < |misses| ==> Held(c, misses[i]) }

  predicate Reserves(misses: seq<Miss>, p: Place) { exists i :: 0 <= i < |misses| && misses[i].place == p }

  predicate Accounted(c: Tables, misses: seq<Miss>, p: Place)
    requires Shape(c)
  { HasSlot(c, p) && Owner(c, p).None? ==> IsFree(c, p) || Reserves(misses, p) }

  // A slot without an owner is free or held by a miss.
  ghost predicate Covered(c: Tables, misses: seq<Miss>)
    requires Shape(c)
  { forall p :: Accounted(c, misses, p) }

  // No two misses hold the same slot.
  ghost predicate Distinct(misses: seq<Miss>) {
    forall i, j :: 0 <= i < j < |misses| && misses[i].place != Cold ==> misses[i].place != misses[j].place
  }

  ghost predicate DistinctIds(misses: seq<Miss>) {
    forall i, j :: 0 <= i < j < |misses| ==> misses[i].id != misses[j].id
  }

  ghost predicate StagesRise(misses: seq<Miss>, next: nat) {
    && (forall i, j :: 0 <= i < j < |misses| ==> Past(misses[i]) <= misses[j].stage)
    && (forall i :: 0 <= i < |misses| ==> 1 <= misses[i].stage && Past(misses[i]) <= next)
  }

  ghost predicate HasMiss(misses: seq<Miss>, id: nat) { exists i :: 0 <= i < |misses| && misses[i].id == id }

  // The misses are exactly the cold experts of the batch.
  ghost predicate ForTheCold(c: Tables, ids: seq<nat>, misses: seq<Miss>)
    requires InRange(c, ids)
  {
    && DistinctIds(misses)
    && (forall i :: 0 <= i < |misses| ==> misses[i].id in ids)
    && (forall i :: 0 <= i < |ids| ==> (HasMiss(misses, ids[i]) <==> c.directory[ids[i]] == Cold))
  }

  predicate AllPinned(c: Tables, ids: seq<nat>)
    requires Shape(c) && InRange(c, ids)
  { forall i :: 0 <= i < |ids| ==> c.pinned[ids[i]] }

  // Only unpinned experts lost their slot.
  ghost predicate Evicts(c: Tables, d: Tables) {
    && SameFrame(c, d) && d.pinned == c.pinned && d.counts == c.counts && |c.pinned| == |c.directory|
    && forall id :: 0 <= id < |c.directory| ==>
        d.directory[id] == c.directory[id] || (d.directory[id] == Cold && !c.pinned[id])
  }

  ghost predicate Ready(c: Tables, ids: seq<nat>)
    requires Shape(c) && InRange(c, ids)
  { Inverse(c) && FreeListsOk(c) && Covered(c, []) && NoRepeats(ids) && AllPinned(c, ids) }

  ghost predicate ReserveInv(c: Tables, ids: seq<nat>, r: Reserved)
    requires Shape(c) && InRange(c, ids) && Shape(r.c)
  {
    && Inverse(r.c) && FreeListsOk(r.c) && Evicts(c, r.c)
    && AllHeld(r.c, r.misses) && Covered(r.c, r.misses) && StagesRise(r.misses, r.stage) && r.stage >= 1
    && ForTheCold(c, ids, r.misses)
  }

  lemma HoldOneMore(r: Reserved, q: Reserved, m: Miss)
    requires Shape(r.c) && Shape(q.c) && q.misses == r.misses + [m]
    requires AllHeld(r.c, r.misses) && Covered(r.c, r.misses)
    requires if m.place == Cold then q.c == r.c else Claims(r.c, q.c, m.place)
    ensures AllHeld(q.c, q.misses) && Covered(q.c, q.misses)
  {
    forall i | 0 <= i < |q.misses| ensures Held(q.c, q.misses[i]) {
      if i < |r.misses| { assert Held(r.c, r.misses[i]); }
    }
    forall p ensures Accounted(q.c, q.misses, p) {
      assert Accounted(r.c, r.misses, p);
      if HasSlot(q.c, p) && Owner(q.c, p).None? && !IsFree(q.c, p) {
        if p == m.place {
          assert q.misses[|r.misses|].place == p;
        } else {
          var i :| 0 <= i < |r.misses| && r.misses[i].place == p;
          assert q.misses[i].place == p;
        }
      }
    }
  }

  lemma MissOneMore(c: Tables, ids: seq<nat>, misses: seq<Miss>, m: Miss)
    requires InRange(c, ids) && ids != [] && NoRepeats(ids) && ForTheCold(c, ids[..|ids| - 1], misses)
    requires m.id == ids[|ids| - 1] && c.directory[m.id] == Cold
    ensures ForTheCold(c, ids, misses + [m])
  {
    var n, more := |ids| - 1, misses + [m];
    forall i | 0 <= i < |ids| ensures HasMiss(more, ids[i]) <==> c.directory[ids[i]] == Cold {
      if i < n {
        assert ids[..n][i] == ids[i];
        if HasMiss(misses, ids[i]) {
          var j :| 0 <= j < |misses| && misses[j].id == ids[i];
          assert more[j].id == ids[i];
        } else {
          assert forall j :: 0 <= j < |more| ==> more[j].id != ids[i];
        }
      } else {
        assert more[|misses|].id == ids[i];
      }
    }
  }

  lemma AddedMissKeepsInv(c: Tables, ids: seq<nat>, r: Reserved, q: Reserved, m: Miss)
    requires Shape(c) && InRange(c, ids) && ids != [] && NoRepeats(ids) && AllPinned(c, ids)
    requires Shape(r.c) && Shape(q.c) && ReserveInv(c, ids[..|ids| - 1], r)
    requires m.id == ids[|ids| - 1] && r.c.directory[m.id] == Cold && m.stage == r.stage && q.stage == Past(m)
    requires q.misses == r.misses + [m]
    requires if m.place == Cold then q.c == r.c else Claims(r.c, q.c, m.place)
    ensures ReserveInv(c, ids, q)
  {
    if m.place != Cold { ClaimKeepsTables(r.c, q.c, m.place); }
    HoldOneMore(r, q, m);
    MissOneMore(c, ids, r.misses, m);
  }

  lemma ReserveOneKeepsInv(c: Tables, ids: seq<nat>, r: Reserved)
    requires Shape(c) && InRange(c, ids) && ids != [] && NoRepeats(ids) && AllPinned(c, ids)
    requires Shape(r.c) && ReserveInv(c, ids[..|ids| - 1], r) && r.ok
    ensures var q := ReserveOne(r, ids[|ids| - 1]);
      Shape(q.c) && (q.ok ==> ReserveInv(c, ids, q))
  {
    var n := |ids| - 1;
    var id := ids[n];
    ReserveKeepsShape(r, id);
    var q := ReserveOne(r, id);
    if r.c.directory[id] == Cold && q.ok {
      ReserveClaims(r, id);
      var m := q.misses[|r.misses|];
      assert q.misses == r.misses + [m];
      AddedMissKeepsInv(c, ids, r, q, m);
    } else if q.ok {
      assert forall i :: 0 <= i < |ids| ==>
        (if i < n then ids[i] == ids[..n][i] else c.directory[ids[i]] != Cold && ids[i] !in ids[..n]);
    }
  }

  lemma {:induction false} ReserveKeepsInv(c: Tables, ids: seq<nat>)
    requires Shape(c) && InRange(c, ids) && Ready(c, ids)
    ensures ReserveAll(c, ids).ok ==> ReserveInv(c, ids, ReserveAll(c, ids))
  {
    if ids != [] {
      var n := |ids| - 1;
      ReserveKeepsInv(c, ids[..n]);
      if ReserveAll(c, ids).ok {
        ReserveOneKeepsInv(c, ids, ReserveAll(c, ids[..n]));
      }
    }
  }

  // A sweep meets a hole exactly where two misses come to hold one slot.
  lemma {:induction false} CleanMeansDistinct(c: Tables, ids: seq<nat>)
    requires Shape(c) && InRange(c, ids) && Ready(c, ids) && ReserveAll(c, ids).ok
    ensures Clean(c, ids) <==> Distinct(ReserveAll(c, ids).misses)
  {
    if ids != [] {
      var n := |ids| - 1;
      CleanMeansDistinct(c, ids[..n]);
      ReserveKeepsInv(c, ids[..n]);
      var r, q := ReserveAll(c, ids[..n]), ReserveAll(c, ids);
      if r.c.directory[ids[n]] == Cold {
        ReserveClaims(r, ids[n]);
        DistinctOneMore(r, q.misses[|r.misses|], q.misses);
      }
    }
  }

  lemma DistinctOneMore(r: Reserved, m: Miss, more: seq<Miss>)
    requires Shape(r.c) && AllHeld(r.c, r.misses) && Covered(r.c, r.misses)
    requires |more| == |r.misses| + 1 && more[..|r.misses|] == r.misses && more[|r.misses|] == m
    requires m.place == Cold || HasSlot(r.c, m.place)
    ensures Distinct(more) <==>
      Distinct(r.misses) && !(m.place != Cold && Owner(r.c, m.place).None? && !IsFree(r.c, m.place))
  {
    var n := |r.misses|;
    assert forall i :: 0 <= i < n ==> more[i] == r.misses[i];
    if m.place != Cold && Owner(r.c, m.place).None? && !IsFree(r.c, m.place) {
      assert Accounted(r.c, r.misses, m.place);
      var i :| 0 <= i < n && r.misses[i].place == m.place;
      assert more[i].place == more[n].place;
    } else {
      forall i | 0 <= i < n && r.misses[i].place != Cold ensures r.misses[i].place != m.place {
        assert Held(r.c, r.misses[i]);
      }
    }
  }
}
