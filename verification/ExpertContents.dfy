/** What the slots and the returned views hold through a batch. */
module ExpertContents {
  import opened Options
  import opened ExpertTables
  import opened ExpertBatches

  predicate SlotHolds(c: Tables, mem: Mem, weights: seq<Data>, p: Place)
    requires Shape(c) && MemShape(c, mem)
  {
    HasSlot(c, p) && Owner(c, p).Some? ==>
      Owner(c, p).value < |weights| && Get(mem, LocOf(p)) == weights[Owner(c, p).value]
  }

  // Every slot holds its owner's bytes.
  ghost predicate Holds(c: Tables, mem: Mem, weights: seq<Data>)
    requires Shape(c) && MemShape(c, mem)
  { forall p :: SlotHolds(c, mem, weights, p) }

  // A view addresses its expert: the VRAM slot the directory names, or a staging slot below `bound` with the expert's
  // bytes.
  predicate Shows(w: Work, weights: seq<Data>, id: nat, bound: nat)
    requires WorkShape(w)
  {
    id in w.views ==>
      && id < |w.c.directory| && id < |weights|
      && match w.views[id].at
         case InVram(s) => w.c.directory[id] == Vram(s)
         case InHost(s) => 1 <= s < bound && s < StagingSlots && w.mem.host[s] == weights[id]
         case InRam(_) => false
  }

  ghost predicate AllShown(w: Work, weights: seq<Data>, bound: nat)
    requires WorkShape(w)
  { forall id: nat :: Shows(w, weights, id, bound) }

  // ----- Binding -----

  predicate Filled(w: Work, weights: seq<Data>, m: Miss)
    requires WorkShape(w)
  {
    && MissFits(w, m) && m.id < |weights| && Get(w.mem, Dest(m)) == weights[m.id]
    && m.id !in w.views && w.c.directory[m.id] == Cold
  }

  ghost predicate BindInv(w: Work, rest: seq<Miss>, weights: seq<Data>)
    requires WorkShape(w)
  {
    && Inverse(w.c) && FreeListsOk(w.c) && Holds(w.c, w.mem, weights)
    && AllHeld(w.c, rest) && Covered(w.c, rest) && Distinct(rest) && DistinctIds(rest) && StagesRise(rest, w.stage)
    && (forall i :: 0 <= i < |rest| ==> Filled(w, weights, rest[i]))
    && AllShown(w, weights, if rest == [] then w.stage else rest[0].stage)
    && 1 <= w.stage <= 1 + |w.views| + |rest| && w.status == Going
  }

  lemma BindKeepsTables(c: Tables, p: Place, id: nat)
    requires Shape(c) && HasSlot(c, p) && id < |c.directory| && Inverse(c) && FreeListsOk(c)
    requires Owner(c, p).None? && !IsFree(c, p) && c.directory[id] == Cold
    ensures Inverse(Bind(c, p, id)) && FreeListsOk(Bind(c, p, id))
  {
    var d := Bind(c, p, id);
    forall i: nat ensures OwnsItsSlot(d, i) { assert OwnsItsSlot(c, i); }
    forall q ensures SlotIsListed(d, q) && FreeIsUnowned(d, q) { assert SlotIsListed(c, q) && FreeIsUnowned(c, q); }
  }

  lemma BindKeepsHeld(w: Work, rest: seq<Miss>, weights: seq<Data>)
    requires WorkShape(w) && rest != [] && BindInv(w, rest, weights)
    ensures AllHeld(BindOne(w, rest[0]).c, rest[1..])
  {
    assert Filled(w, weights, rest[0]) && Held(w.c, rest[0]);
    forall i | 0 <= i < |rest[1..]| ensures Held(BindOne(w, rest[0]).c, rest[1..][i]) {
      assert Held(w.c, rest[i + 1]) && rest[1..][i] == rest[i + 1];
    }
  }

  lemma BindKeepsCovered(w: Work, rest: seq<Miss>, weights: seq<Data>)
    requires WorkShape(w) && rest != [] && BindInv(w, rest, weights)
    ensures Covered(BindOne(w, rest[0]).c, rest[1..])
  {
    var q := BindOne(w, rest[0]);
    assert Filled(w, weights, rest[0]) && Held(w.c, rest[0]);
    forall p ensures Accounted(q.c, rest[1..], p) {
      assert Accounted(w.c, rest, p);
      if HasSlot(q.c, p) && Owner(q.c, p).None? && !IsFree(q.c, p) {
        var i :| 0 <= i < |rest| && rest[i].place == p;
        assert rest[1..][i - 1].place == p;
      }
    }
  }

  lemma BindKeepsHolds(w: Work, rest: seq<Miss>, weights: seq<Data>)
    requires WorkShape(w) && rest != [] && BindInv(w, rest, weights)
    ensures Holds(BindOne(w, rest[0]).c, BindOne(w, rest[0]).mem, weights)
  {
    var q := BindOne(w, rest[0]);
    assert Filled(w, weights, rest[0]) && Held(w.c, rest[0]);
    forall p ensures SlotHolds(q.c, q.mem, weights, p) {
      assert SlotHolds(w.c, w.mem, weights, p);
    }
  }

  lemma BindKeepsFilled(w: Work, rest: seq<Miss>, weights: seq<Data>, i: nat)
    requires WorkShape(w) && rest != [] && BindInv(w, rest, weights) && 0 < i < |rest|
    ensures Filled(BindOne(w, rest[0]), weights, rest[i])
  {
    assert Filled(w, weights, rest[0]) && Filled(w, weights, rest[i]);
    assert Past(rest[0]) <= rest[i].stage;
  }

  lemma BindKeepsShown(w: Work, rest: seq<Miss>, weights: seq<Data>, bound: nat, id: nat)
    requires WorkShape(w) && rest != [] && BindInv(w, rest, weights) && Past(rest[0]) <= bound
    ensures Shows(BindOne(w, rest[0]), weights, id, bound)
  {
    assert Filled(w, weights, rest[0]) && Shows(w, weights, id, rest[0].stage);
  }

  lemma BindKeepsViews(w: Work, rest: seq<Miss>, weights: seq<Data>)
    requires WorkShape(w) && rest != [] && BindInv(w, rest, weights)
    ensures var q := BindOne(w, rest[0]);
      && AllShown(q, weights, if rest[1..] == [] then q.stage else rest[1..][0].stage)
      && |q.views| == |w.views| + 1 && q.stage == w.stage && q.status == w.status
  {
    assert Filled(w, weights, rest[0]);
    var q := BindOne(w, rest[0]);
    var bound := if rest[1..] == [] then q.stage else rest[1..][0].stage;
    forall id: nat ensures Shows(q, weights, id, bound) { BindKeepsShown(w, rest, weights, bound, id); }
    assert q.views.Keys == w.views.Keys + {rest[0].id};
    assert |q.views| == |q.views.Keys| && |w.views| == |w.views.Keys|;
  }

  lemma RestStaysApart(rest: seq<Miss>, next: nat)
    requires rest != [] && Distinct(rest) && DistinctIds(rest) && StagesRise(rest, next)
    ensures Distinct(rest[1..]) && DistinctIds(rest[1..]) && StagesRise(rest[1..], next)
  {}

  lemma BindOneKeepsInv(w: Work, rest: seq<Miss>, weights: seq<Data>)
    requires WorkShape(w) && rest != [] && BindInv(w, rest, weights)
    ensures Filled(w, weights, rest[0]) && BindInv(BindOne(w, rest[0]), rest[1..], weights)
  {
    var m := rest[0];
    assert Filled(w, weights, m) && Held(w.c, m);
    var q := BindOne(w, m);
    if m.place != Cold { BindKeepsTables(w.c, m.place, m.id); }
    BindKeepsHeld(w, rest, weights);
    BindKeepsCovered(w, rest, weights);
    BindKeepsHolds(w, rest, weights);
    BindKeepsViews(w, rest, weights);
    RestStaysApart(rest, w.stage);
    forall i | 0 <= i < |rest[1..]| ensures Filled(q, weights, rest[1..][i]) {
      BindKeepsFilled(w, rest, weights, i + 1);
    }
  }

  // ----- Serving the hits -----

  ghost predicate ServeInv(w: Work, weights: seq<Data>)
    requires WorkShape(w)
  {
    && Inverse(w.c) && FreeListsOk(w.c) && Covered(w.c, [])
    && Holds(w.c, w.mem, weights) && AllShown(w, weights, w.stage)
    && 1 <= w.stage <= 1 + |w.views| && |weights| == |w.c.directory|
  }

  // Every view of the batch is of a pinned expert.
  predicate ViewsPinned(w: Work)
    requires WorkShape(w)
  { forall id :: id in w.views ==> id < |w.c.pinned| && w.c.pinned[id] }

  // Bits, hands and hit counts do not matter to any of it.
  lemma BitsDoNotMatter(w: Work, q: Work, weights: seq<Data>)
    requires WorkShape(w) && WorkShape(q) && ServeInv(w, weights)
    requires q.c.directory == w.c.directory && q.c.vram.owners == w.c.vram.owners && q.c.ram.owners == w.c.ram.owners
    requires q.c.vram.free == w.c.vram.free && q.c.ram.free == w.c.ram.free && q.mem == w.mem && q.views == w.views
    requires q.stage == w.stage
    ensures ServeInv(q, weights)
  {
    forall id: nat ensures OwnsItsSlot(q.c, id) && Shows(q, weights, id, q.stage) {
      assert OwnsItsSlot(w.c, id) && Shows(w, weights, id, w.stage);
    }
    forall p
      ensures SlotIsListed(q.c, p) && FreeIsUnowned(q.c, p) && Accounted(q.c, [], p) &&
        SlotHolds(q.c, q.mem, weights, p)
    {
      assert SlotIsListed(w.c, p) && FreeIsUnowned(w.c, p) && Accounted(w.c, [], p);
      assert SlotHolds(w.c, w.mem, weights, p);
    }
  }

  lemma PromoteKeepsTables(w: Work, weights: seq<Data>, id: nat, r: nat)
    requires WorkShape(w) && ServeInv(w, weights) && id < |w.c.directory| && w.c.directory[id] == Ram(r)
    requires w.c.vram.free != []
    ensures var q := Promote(w, id, r);
      Inverse(q.c) && FreeListsOk(q.c) && Covered(q.c, []) && Holds(q.c, q.mem, weights)
  {
    var n := |w.c.vram.free| - 1;
    var v := w.c.vram.free[n];
    var q := Promote(w, id, r);
    assert OwnsItsSlot(w.c, id) && FreeIsUnowned(w.c, Vram(v)) && FreeIsUnowned(w.c, Ram(r));
    assert SlotHolds(w.c, w.mem, weights, Ram(r));
    PopRemoves(w.c.vram.free, w.c.vram.free[..n], v);
    forall i: nat ensures OwnsItsSlot(q.c, i) { assert OwnsItsSlot(w.c, i); }
    forall p
      ensures SlotIsListed(q.c, p) && FreeIsUnowned(q.c, p) && Accounted(q.c, [], p) &&
        SlotHolds(q.c, q.mem, weights, p)
    {
      assert SlotIsListed(w.c, p) && FreeIsUnowned(w.c, p) && Accounted(w.c, [], p);
      assert SlotHolds(w.c, w.mem, weights, p);
    }
  }

  lemma ExchangeKeepsTables(w: Work, weights: seq<Data>, id: nat, r: nat, v: nat, victim: nat)
    requires WorkShape(w) && ServeInv(w, weights) && id < |w.c.directory| && w.c.directory[id] == Ram(r)
    requires v < |w.c.vram.owners| && w.c.vram.owners[v] == Some(victim)
    ensures var q := Exchange(w, id, r, v, victim);
      Inverse(q.c) && FreeListsOk(q.c) && Covered(q.c, []) && Holds(q.c, q.mem, weights)
    ensures Exchange(w, id, r, v, victim).c.directory == w.c.directory[id := Vram(v)][victim := Ram(r)]
  {
    var q := Exchange(w, id, r, v, victim);
    assert OwnsItsSlot(w.c, id) && SlotIsListed(w.c, Vram(v));
    assert SlotHolds(w.c, w.mem, weights, Ram(r)) && SlotHolds(w.c, w.mem, weights, Vram(v));
    forall i: nat ensures OwnsItsSlot(q.c, i) { assert OwnsItsSlot(w.c, i); }
    forall p
      ensures SlotIsListed(q.c, p) && FreeIsUnowned(q.c, p) && Accounted(q.c, [], p) &&
        SlotHolds(q.c, q.mem, weights, p)
    {
      assert SlotIsListed(w.c, p) && FreeIsUnowned(w.c, p) && Accounted(w.c, [], p);
      assert SlotHolds(w.c, w.mem, weights, p);
    }
  }

  // ----- One step of phase 2 -----

  // Pinned experts other than the one served keep their place, and only the one served gets a view.
  ghost predicate OthersStay(w: Work, q: Work, id: nat) {
    && |q.c.directory| == |w.c.directory| == |w.c.pinned| && q.c.pinned == w.c.pinned && q.c.counts == w.c.counts
    && (forall i :: 0 <= i < |w.c.directory| && i != id && w.c.pinned[i] ==> q.c.directory[i] == w.c.directory[i])
    && (q.views.Keys == w.views.Keys || q.views.Keys == w.views.Keys + {id})
    && (id in w.views ==> q == w)
  }

  lemma OthersStayPut(w: Work, id: nat, dma: bool)
    requires WorkShape(w) && id < |w.c.directory|
    ensures OthersStay(w, ServeOne(w, id, dma), id)
  {
    if id !in w.views && w.c.directory[id].Ram? { RamOthersStayPut(w, id, w.c.directory[id].slot, dma); }
  }

  lemma RamOthersStayPut(w: Work, id: nat, r: nat, dma: bool)
    requires WorkShape(w) && id < |w.c.directory| && r < |w.c.ram.owners| && id !in w.views
    ensures OthersStay(w, ServeRam(w, id, r, dma), id)
  {
    var q := ServeRam(w, id, r, dma);
    assert q.views == w.views || q.views == w.views[id := q.views[id]];
  }

  lemma AddView(w: Work, q: Work, weights: seq<Data>, id: nat, at: Loc, source: Source)
    requires WorkShape(w) && WorkShape(q) && AllShown(w, weights, w.stage) && id !in w.views && ViewsPinned(w)
    requires q.views == w.views[id := View(at, source)] && q.stage >= w.stage
    requires |q.c.directory| == |w.c.directory| <= |weights|
    requires forall i :: 0 <= i < |w.c.directory| && i != id && w.c.pinned[i] ==> q.c.directory[i] == w.c.directory[i]
    requires forall s :: 1 <= s < w.stage && s < StagingSlots ==> q.mem.host[s] == w.mem.host[s]
    requires id < |weights| && Shows(q, weights, id, q.stage)
    ensures AllShown(q, weights, q.stage) && |q.views| == |w.views| + 1
  {
    forall i: nat ensures Shows(q, weights, i, q.stage) { assert Shows(w, weights, i, w.stage); }
    assert q.views.Keys == w.views.Keys + {id};
    assert |q.views| == |q.views.Keys| && |w.views| == |w.views.Keys|;
  }

  predicate CanServe(w: Work, id: nat)
    requires WorkShape(w)
  {
    && id < |w.c.directory| && w.c.pinned[id] && id !in w.views && w.c.directory[id] != Cold && w.stage < StagingSlots
    && w.status == Going
  }

  lemma PromoteKeepsInv(w: Work, weights: seq<Data>, id: nat, r: nat)
    requires WorkShape(w) && ServeInv(w, weights) && ViewsPinned(w) && CanServe(w, id) && w.c.directory[id] == Ram(r)
    requires w.c.vram.free != []
    ensures ServeInv(Promote(w, id, r), weights)
  {
    PromoteKeepsTables(w, weights, id, r);
    var q := Promote(w, id, r);
    AddView(w, q, weights, id, q.views[id].at, RamPromotedToVram);
  }

  lemma ExchangeKeepsInv(w: Work, weights: seq<Data>, id: nat, r: nat, v: nat, victim: nat)
    requires WorkShape(w) && ServeInv(w, weights) && ViewsPinned(w) && CanServe(w, id) && w.c.directory[id] == Ram(r)
    requires v < |w.c.vram.owners| && w.c.vram.owners[v] == Some(victim) && !w.c.pinned[victim]
    ensures ServeInv(Exchange(w, id, r, v, victim), weights)
  {
    ExchangeKeepsTables(w, weights, id, r, v, victim);
    AddView(w, Exchange(w, id, r, v, victim), weights, id, InVram(v), RamSwappedToVram);
  }

  lemma ServeRamKeepsInv(w: Work, weights: seq<Data>, id: nat, r: nat, dma: bool)
    requires WorkShape(w) && ServeInv(w, weights) && ViewsPinned(w) && CanServe(w, id) && w.c.directory[id] == Ram(r)
    ensures var q := ServeRam(w, id, r, dma);
      q.status != Panicked && ServeInv(q, weights) && (q.status == Going ==> id in q.views)
  {
    var t := Touch(w, r);
    BitsDoNotMatter(w, t, weights);
    if w.c.vram.free != [] {
      PromoteKeepsInv(t, weights, id, r);
    } else {
      var (h, found) := Hunt(t, id, t.c.hits[r]);
      BitsDoNotMatter(t, h, weights);
      if found.None? {
        StageKeepsInv(h, weights, id, r);
      } else {
        assert Accounted(w.c, [], Vram(found.value));
        if dma {
          ExchangeKeepsInv(h, weights, id, r, found.value, h.c.vram.owners[found.value].value);
        } else {
          BitsDoNotMatter(h, h.(status := Failed), weights);
        }
      }
    }
  }

  lemma StageKeepsInv(w: Work, weights: seq<Data>, id: nat, r: nat)
    requires WorkShape(w) && ServeInv(w, weights) && ViewsPinned(w) && CanServe(w, id) && w.c.directory[id] == Ram(r)
    ensures ServeInv(StageHit(w, id, r), weights)
  {
    var q := StageHit(w, id, r);
    assert OwnsItsSlot(w.c, id) && SlotHolds(w.c, w.mem, weights, Ram(r));
    forall p ensures SlotHolds(q.c, q.mem, weights, p) { assert SlotHolds(w.c, w.mem, weights, p); }
    AddView(w, q, weights, id, InHost(w.stage), RamStagedToHost);
  }

  lemma ServeOneKeepsInv(w: Work, weights: seq<Data>, id: nat, dma: bool)
    requires WorkShape(w) && ServeInv(w, weights) && ViewsPinned(w) && CanServe(w, id)
    ensures var q := ServeOne(w, id, dma);
      q.status != Panicked && ServeInv(q, weights) && (q.status == Going ==> id in q.views)
  {
    if w.c.directory[id].Ram? {
      ServeRamKeepsInv(w, weights, id, w.c.directory[id].slot, dma);
    } else {
      var q := ServeOne(w, id, dma);
      BitsDoNotMatter(w, q.(views := w.views), weights);
      AddView(w, q, weights, id, InVram(w.c.directory[id].slot), VramHit);
      forall p ensures SlotHolds(q.c, q.mem, weights, p) { assert SlotHolds(w.c, w.mem, weights, p); }
    }
  }
}
