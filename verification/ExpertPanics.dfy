/** When a request to the expert cache panics. */
module ExpertPanics {
  import opened Options
  import opened ExpertTables
  import opened ExpertBatches
  import opened ExpertContents
  import opened ExpertRequests

  // ----- Pins that were there before -----

  // How many experts from the front have an index in range.
  function GoodPrefix(experts: seq<nat>, perLayer: nat): (g: nat)
    ensures g <= |experts| && (forall k :: 0 <= k < g ==> experts[k] < perLayer)
    ensures g < |experts| ==> experts[g] >= perLayer
  {
    if experts == [] then 0
    else
      var n := |experts| - 1;
      var g := GoodPrefix(experts[..n], perLayer);
      if g == n && experts[n] < perLayer then n + 1 else g
  }

  ghost predicate Asked(c: Tables, layer: nat, experts: seq<nat>, upTo: nat, id: nat)
    requires layer < c.layers && upTo <= |experts| && forall k :: 0 <= k < upTo ==> experts[k] < c.perLayer
  { exists k :: 0 <= k < upTo && ExpertId(c, layer, experts[k]) == id }

  lemma AskedGrows(c: Tables, layer: nat, experts: seq<nat>, n: nat, id: nat)
    requires layer < c.layers && n < |experts| && forall k :: 0 <= k <= n ==> experts[k] < c.perLayer
    ensures Asked(c, layer, experts, n + 1, id) <==>
      Asked(c, layer, experts[..n], n, id) || id == ExpertId(c, layer, experts[n])
  {
    if Asked(c, layer, experts[..n], n, id) {
      var k :| 0 <= k < n && ExpertId(c, layer, experts[..n][k]) == id;
      assert ExpertId(c, layer, experts[k]) == id;
    }
    if Asked(c, layer, experts, n + 1, id) {
      var k :| 0 <= k < n + 1 && ExpertId(c, layer, experts[k]) == id;
      assert k < n ==> ExpertId(c, layer, experts[..n][k]) == id;
    }
  }

  lemma AskedInPrefix(c: Tables, layer: nat, experts: seq<nat>, n: nat, upTo: nat, id: nat)
    requires layer < c.layers && upTo <= n <= |experts| && forall k :: 0 <= k < upTo ==> experts[k] < c.perLayer
    ensures Asked(c, layer, experts, upTo, id) <==> Asked(c, layer, experts[..n], upTo, id)
  {
    if k :| 0 <= k < upTo && ExpertId(c, layer, experts[k]) == id { assert ExpertId(c, layer, experts[..n][k]) == id; }
    if k :| 0 <= k < upTo && ExpertId(c, layer, experts[..n][k]) == id { assert ExpertId(c, layer, experts[k]) == id; }
  }

  // What pinning does from any pins: the experts before the first bad index are pinned, and those that were not before
  // are the batch.
  ghost predicate PinsOf(c: Tables, layer: nat, experts: seq<nat>, p: Pins, id: nat)
    requires layer < c.layers
  {
    var g := GoodPrefix(experts, c.perLayer);
    id < |c.pinned| && id < |p.c.pinned| ==>
      && (p.c.pinned[id] <==> c.pinned[id] || Asked(c, layer, experts, g, id))
      && (id in p.ids <==> !c.pinned[id] && Asked(c, layer, experts, g, id))
  }

  /** A request pins exactly the experts before its first bad index, whatever was pinned before; they stay pinned if
      there is one. */
  lemma {:induction false} PinsUpToTheFirstBadIndex(c: Tables, layer: nat, experts: seq<nat>, id: nat)
    requires Shape(c) && layer < c.layers
    ensures var p := PinAll(c, layer, experts);
      PinsOf(c, layer, experts, p, id) && (p.ok <==> GoodPrefix(experts, c.perLayer) == |experts|)
  {
    if experts != [] {
      var n := |experts| - 1;
      PinsUpToTheFirstBadIndex(c, layer, experts[..n], id);
      var g := GoodPrefix(experts, c.perLayer);
      if g == n + 1 {
        if id < |c.pinned| {
          AskedGrows(c, layer, experts, n, id);
          PinOneMore(c, layer, experts, id);
        }
      } else {
        AskedInPrefix(c, layer, experts, n, g, id);
      }
    }
  }

  lemma PinOneMore(c: Tables, layer: nat, experts: seq<nat>, id: nat)
    requires Shape(c) && layer < c.layers && experts != [] && experts[|experts| - 1] < c.perLayer
    requires PinAll(c, layer, experts[..|experts| - 1]).ok && id < |c.pinned|
    ensures var p, q := PinAll(c, layer, experts[..|experts| - 1]), PinAll(c, layer, experts);
      var added := ExpertId(c, layer, experts[|experts| - 1]);
      && (q.c.pinned[id] <==> p.c.pinned[id] || id == added)
      && (id in q.ids <==> id in p.ids || (id == added && !p.c.pinned[id]))
  {}

  lemma {:induction false} BatchHasNoRepeats(c: Tables, layer: nat, experts: seq<nat>)
    requires Shape(c) && layer < c.layers
    ensures var p := PinAll(c, layer, experts);
      NoRepeats(p.ids) && AllPinned(p.c, p.ids)
  {
    if experts != [] { BatchHasNoRepeats(c, layer, experts[..|experts| - 1]); }
  }

  // ----- Phase 1 from any tables -----

  // Sweeps evict unpinned experts only, whatever else the tables say.
  lemma ReserveOneEvicts(r: Reserved, id: nat)
    requires Shape(r.c) && id < |r.c.directory|
    ensures Evicts(r.c, ReserveOne(r, id).c)
  {
    ReserveKeepsShape(r, id);
  }

  lemma {:induction false} ReserveEvicts(c: Tables, ids: seq<nat>)
    requires Shape(c) && InRange(c, ids) && NoRepeats(ids) && AllPinned(c, ids)
    ensures var r := ReserveAll(c, ids);
      Evicts(c, r.c) && (r.ok ==> ForTheCold(c, ids, r.misses))
  {
    if ids != [] {
      var n := |ids| - 1;
      ReserveEvicts(c, ids[..n]);
      var r := ReserveAll(c, ids[..n]);
      ReserveOneEvicts(r, ids[n]);
      if ReserveAll(c, ids).ok { ReservedForTheCold(c, ids, r); }
    }
  }

  lemma ReservedForTheCold(c: Tables, ids: seq<nat>, r: Reserved)
    requires Shape(c) && InRange(c, ids) && ids != [] && NoRepeats(ids) && AllPinned(c, ids)
    requires Shape(r.c) && Evicts(c, r.c) && r.ok && ForTheCold(c, ids[..|ids| - 1], r.misses)
    requires ReserveOne(r, ids[|ids| - 1]).ok
    ensures ForTheCold(c, ids, ReserveOne(r, ids[|ids| - 1]).misses)
  {
    var n := |ids| - 1;
    var q := ReserveOne(r, ids[n]);
    if c.directory[ids[n]] == Cold {
      var m := q.misses[|r.misses|];
      assert q.misses == r.misses + [m];
      MissOneMore(c, ids, r.misses, m);
    } else {
      assert forall i :: 0 <= i < |ids| ==>
        (if i < n then ids[i] == ids[..n][i] else c.directory[ids[i]] != Cold && ids[i] !in ids[..n]);
    }
  }

  lemma {:induction false} BoundCounts(w: Work, rest: seq<Miss>)
    requires WorkShape(w) && AllFit(w, rest) && DistinctIds(rest)
    requires forall i :: 0 <= i < |rest| ==> rest[i].id !in w.views
    ensures |BindAll(w, rest).views| == |w.views| + |rest|
    decreases |rest|
  {
    if rest != [] {
      var q := BindOne(w, rest[0]);
      assert q.views.Keys == w.views.Keys + {rest[0].id};
      assert |q.views| == |q.views.Keys| && |w.views| == |w.views.Keys|;
      BoundCounts(q, rest[1..]);
    }
  }

  // ----- Phase 2 from any tables -----

  // Every expert of the batch is pinned and placed, and the staging slots suffice.
  ghost predicate Servable(w: Work, ids: seq<nat>, k: nat)
    requires WorkShape(w) && InRange(w.c, ids)
  {
    && AllPinned(w.c, ids) && k <= |ids| && w.status == Going && 1 <= w.stage <= 1 + |w.views|
    && (forall id :: id in w.views ==> id in ids)
    && (forall i :: 0 <= i < |ids| ==> ids[i] in w.views || w.c.directory[ids[i]] != Cold)
    && (forall i :: 0 <= i < k ==> ids[i] in w.views)
  }

  // Serving this expert, the search for a victim stops at a slot that nobody owns.
  predicate HuntMeetsHole(w: Work, id: nat)
    requires WorkShape(w) && id < |w.c.directory|
  {
    && w.status == Going && id !in w.views && w.c.directory[id].Ram? && w.c.vram.free == []
    && var t := Touch(w, w.c.directory[id].slot);
    && var found := Hunt(t, id, t.c.hits[w.c.directory[id].slot]).1;
    && found.Some? && w.c.vram.owners[found.value].None?
  }

  // A served expert gets one more view and at most one more staging slot.
  predicate Served(w: Work, q: Work, id: nat) {
    id !in w.views && q.views.Keys == w.views.Keys + {id} && w.stage <= q.stage <= w.stage + 1
  }

  /** Serving a placed expert panics if and only if the search for its victim stops at an owner-less slot. */
  lemma ServePanicsIff(w: Work, id: nat, dma: bool)
    requires WorkShape(w) && id < |w.c.directory| && id !in w.views && w.c.directory[id] != Cold && w.status == Going
    requires w.stage < StagingSlots
    ensures var q := ServeOne(w, id, dma);
      (q.status == Panicked <==> HuntMeetsHole(w, id)) && (q.status == Going ==> Served(w, q, id))
  {}

  lemma ServedCounts(w: Work, q: Work, id: nat)
    requires Served(w, q, id)
    ensures |q.views| == |w.views| + 1
  {
    assert |q.views| == |q.views.Keys| && |w.views| == |w.views.Keys|;
  }

  lemma ServableNext(w: Work, ids: seq<nat>, k: nat, dma: bool)
    requires WorkShape(w) && InRange(w.c, ids) && |ids| < StagingSlots && k < |ids| && Servable(w, ids, k)
    ensures var q := ServeOne(w, ids[k], dma);
      (q.status == Panicked <==> HuntMeetsHole(w, ids[k])) && (q.status == Going ==> Servable(q, ids, k + 1))
  {
    var q := ServeOne(w, ids[k], dma);
    OthersStayPut(w, ids[k], dma);
    if ids[k] !in w.views {
      RoomToStage(ids, w.views, ids[k]);
      ServePanicsIff(w, ids[k], dma);
      if q.status == Going { ServedCounts(w, q, ids[k]); }
    }
  }

  // Some search of the batch stops at a slot that nobody owns, if every copy succeeds.
  predicate SomeHuntMeetsHole(w: Work, ids: seq<nat>)
    requires WorkShape(w) && InRange(w.c, ids)
  {
    ids != [] &&
    var n := |ids| - 1;
    SomeHuntMeetsHole(w, ids[..n]) || HuntMeetsHole(ServeAll(w, ids[..n], Always), ids[n])
  }

  function Always(id: nat): bool { true }

  // Apart from the bytes, two batches are in the same state.
  predicate Alike(w: Work, v: Work) { v.c == w.c && v.views == w.views && v.stage == w.stage && v.status == w.status }

  lemma TouchAlike(w: Work, v: Work, id: nat, r: nat, hits: nat)
    requires WorkShape(w) && WorkShape(v) && Alike(w, v) && id < |w.c.directory| && r < |w.c.ram.owners|
    ensures Alike(Touch(w, r), Touch(v, r))
    ensures Alike(Hunt(w, id, hits).0, Hunt(v, id, hits).0) && Hunt(w, id, hits).1 == Hunt(v, id, hits).1
  {}

  lemma MoveAlike(w: Work, v: Work, id: nat, r: nat)
    requires WorkShape(w) && WorkShape(v) && Alike(w, v) && id < |w.c.directory| && r < |w.c.ram.owners|
    ensures w.c.vram.free != [] ==> Alike(Promote(w, id, r), Promote(v, id, r))
    ensures w.stage < StagingSlots ==> Alike(StageHit(w, id, r), StageHit(v, id, r))
    ensures forall s, victim :: 0 <= s < |w.c.vram.owners| && 0 <= victim < |w.c.directory| ==>
      Alike(Exchange(w, id, r, s, victim), Exchange(v, id, r, s, victim))
  {}

  lemma ServeRamAlike(w: Work, v: Work, id: nat, r: nat, dma: bool)
    requires WorkShape(w) && WorkShape(v) && Alike(w, v) && id < |w.c.directory| && r < |w.c.ram.owners|
    ensures ServeRam(w, id, r, dma).status != Failed ==> Alike(ServeRam(w, id, r, dma), ServeRam(v, id, r, true))
  {
    var t, u := Touch(w, r), Touch(v, r);
    TouchAlike(w, v, id, r, 0);
    TouchAlike(t, u, id, r, t.c.hits[r]);
    MoveAlike(t, u, id, r);
    MoveAlike(Hunt(t, id, t.c.hits[r]).0, Hunt(u, id, t.c.hits[r]).0, id, r);
  }

  // Neither the bytes nor the copies that succeed make a difference.
  lemma ServeAlike(w: Work, v: Work, id: nat, dma: bool)
    requires WorkShape(w) && WorkShape(v) && Alike(w, v) && id < |w.c.directory|
    ensures ServeOne(w, id, dma).status != Failed ==> Alike(ServeOne(w, id, dma), ServeOne(v, id, true))
    ensures HuntMeetsHole(w, id) <==> HuntMeetsHole(v, id)
  {
    if w.c.directory[id].Ram? {
      var r := w.c.directory[id].slot;
      TouchAlike(w, v, id, r, 0);
      TouchAlike(Touch(w, r), Touch(v, r), id, r, Touch(w, r).c.hits[r]);
      ServeRamAlike(w, v, id, r, dma);
    }
  }

  lemma {:induction false} BindAlike(w: Work, v: Work, rest: seq<Miss>)
    requires WorkShape(w) && WorkShape(v) && Alike(w, v) && AllFit(w, rest) && AllFit(v, rest)
    ensures Alike(BindAll(w, rest), BindAll(v, rest))
    decreases |rest|
  {
    if rest != [] { BindAlike(BindOne(w, rest[0]), BindOne(v, rest[0]), rest[1..]); }
  }

  lemma {:induction false} ServeAllAlike(w: Work, v: Work, ids: seq<nat>, dma: nat -> bool)
    requires WorkShape(w) && WorkShape(v) && Alike(w, v) && InRange(w.c, ids) && ServeAll(w, ids, dma).status != Failed
    ensures Alike(ServeAll(w, ids, dma), ServeAll(v, ids, Always))
  {
    if ids != [] {
      var n := |ids| - 1;
      ServeAllAlike(w, v, ids[..n], dma);
      ServeAlike(ServeAll(w, ids[..n], dma), ServeAll(v, ids[..n], Always), ids[n], dma(ids[n]));
    }
  }

  // With every copy a success, phase 2 panics if and only if some search stops at an owner-less slot.
  lemma {:induction false} ServablePanicsIff(w: Work, ids: seq<nat>, k: nat)
    requires WorkShape(w) && InRange(w.c, ids) && |ids| < StagingSlots && Servable(w, ids, 0) && k <= |ids|
    ensures var q := ServeAll(w, ids[..k], Always);
      (q.status == Panicked <==> SomeHuntMeetsHole(w, ids[..k])) && (q.status == Going ==> Servable(q, ids, k))
  {
    if k > 0 {
      assert ids[..k][..k - 1] == ids[..k - 1];
      ServablePanicsIff(w, ids, k - 1);
      var q := ServeAll(w, ids[..k - 1], Always);
      if q.status == Going { ServableNext(q, ids, k - 1, Always(ids[k - 1])); }
    }
  }

  lemma AlikePanicsIff(w: Work, v: Work, ids: seq<nat>, dma: nat -> bool)
    requires WorkShape(w) && WorkShape(v) && Alike(w, v) && InRange(w.c, ids) && |ids| < StagingSlots
    requires Servable(v, ids, 0) && ServeAll(w, ids, dma).status != Failed
    ensures var q := ServeAll(w, ids, dma);
      && (q.status == Panicked <==> SomeHuntMeetsHole(v, ids))
      && (q.status == Going ==> forall id :: id in q.views <==> id in ids)
  {
    assert ids[..|ids|] == ids;
    ServablePanicsIff(v, ids, |ids|);
    ServeAllAlike(w, v, ids, dma);
  }

  // ----- One batch from any tables -----

  function Blank(c: Tables): (mem: Mem)
    ensures MemShape(c, mem)
  { Mem(seq(|c.vram.owners|, _ => []), seq(|c.ram.owners|, _ => []), seq(StagingSlots, _ => [])) }

  // The same for a batch, as a function of the tables alone: a run of both phases over blank memory.
  predicate BatchMeetsHole(c: Tables, ids: seq<nat>)
    requires Shape(c) && InRange(c, ids) && |ids| < StagingSlots
  {
    var r := ReserveAll(c, ids);
    ReservationsFit(c, ids);
    r.ok && SomeHuntMeetsHole(BindAll(Work(r.c, Blank(r.c), map[], r.stage, Going), r.misses), ids)
  }

  lemma ServableStarts(c: Tables, ids: seq<nat>, r: Reserved, w: Work)
    requires Shape(c) && InRange(c, ids) && AllPinned(c, ids) && Shape(r.c) && Evicts(c, r.c) && Fits(r)
    requires ForTheCold(c, ids, r.misses)
    requires WorkShape(w) && w.c == r.c && w.views == map[] && w.stage == r.stage && w.status == Going
    requires AllFit(w, r.misses)
    ensures Servable(BindAll(w, r.misses), ids, 0)
  {
    BoundCounts(w, r.misses);
    BindAllBindsOnly(w, r.misses);
    var b := BindAll(w, r.misses);
    forall i | 0 <= i < |ids| ensures b.c.pinned[ids[i]] && (ids[i] in b.views || b.c.directory[ids[i]] != Cold) {
      assert HasMiss(r.misses, ids[i]) <==> c.directory[ids[i]] == Cold;
    }
  }

  lemma BatchPanicsIff(c: Tables, mem: Mem, ids: seq<nat>, world: World)
    requires Shape(c) && MemShape(c, mem) && MemShape(c, world.after) && InRange(c, ids) && |ids| < StagingSlots
    requires NoRepeats(ids) && AllPinned(c, ids) && AcquirePinned(c, mem, ids, world).status != Failed
    ensures var w := AcquirePinned(c, mem, ids, world);
      && (w.status == Panicked <==> BatchMeetsHole(c, ids))
      && (w.status == Going ==> forall id :: id in w.views <==> id in ids)
  {
    var r := ReserveAll(c, ids);
    ReserveEvicts(c, ids);
    ReservationsFit(c, ids);
    var w := Work(r.c, if r.misses == [] then mem else world.after, map[], r.stage, Going);
    var v := w.(mem := Blank(r.c));
    forall k | 0 <= k < |r.misses| ensures MissFits(w, r.misses[k]) { assert MissFitsTables(r.c, r.misses[k]); }
    ServableStarts(c, ids, r, v);
    BindAlike(w, v, r.misses);
    AlikePanicsIff(BindAll(w, r.misses), BindAll(v, r.misses), ids, world.dma);
  }

  // ----- The theorem -----

  ghost predicate AsksForPinned(c: Tables, layer: nat, experts: seq<nat>) {
    layer < c.layers && exists k :: 0 <= k < |experts| && PinnedBefore(c, layer, experts[k])
  }

  predicate PinnedBefore(c: Tables, layer: nat, expert: nat)
    requires layer < c.layers
  { expert < c.perLayer && ExpertId(c, layer, expert) < |c.pinned| && c.pinned[ExpertId(c, layer, expert)] }

  // Some victim search of the request stops at a slot that nobody owns.
  predicate VictimIsMissing(c: Tables, layer: nat, experts: seq<nat>)
    requires Shape(c)
  {
    && layer < c.layers
    && var p := PinAll(c, layer, experts);
    p.ok && |p.ids| < StagingSlots && BatchMeetsHole(p.c, p.ids)
  }

  lemma BatchMissesThePinned(c: Tables, layer: nat, experts: seq<nat>, k: nat)
    requires Shape(c) && layer < c.layers && PinAll(c, layer, experts).ok && k < |experts|
    ensures experts[k] < c.perLayer
    ensures ExpertId(c, layer, experts[k]) in PinAll(c, layer, experts).ids <==> !PinnedBefore(c, layer, experts[k])
  {
    var id := ExpertId(c, layer, experts[k]);
    PinsUpToTheFirstBadIndex(c, layer, experts, id);
    assert Asked(c, layer, experts, |experts|, id);
  }

  /** From any tables, holes, shared slots and stale pins included: a request that is not refused panics if and only if
      it asks for an expert that was pinned before it, or one of its victim searches stops at an owner-less slot. */
  lemma PanicsIff(c: Tables, mem: Mem, layer: nat, experts: seq<nat>, world: World)
    requires Shape(c) && MemShape(c, mem) && MemShape(c, world.after)
    requires Acquire(c, mem, layer, experts, world).answer != Refused
    ensures Acquire(c, mem, layer, experts, world).answer == Crashed <==>
      AsksForPinned(c, layer, experts) || VictimIsMissing(c, layer, experts)
  {
    var p := PinAll(c, layer, experts);
    BatchHasNoRepeats(c, layer, experts);
    BatchPanicsIff(p.c, mem, p.ids, world);
    var w := AcquirePinned(p.c, mem, p.ids, world);
    if w.status == Going {
      forall k | 0 <= k < |experts|
        ensures ExpertId(c, layer, experts[k]) in w.views <==> !PinnedBefore(c, layer, experts[k])
      {
        BatchMissesThePinned(c, layer, experts, k);
      }
    }
  }

  // ----- Tables in which every owner-less slot is free -----

  // Sound tables, apart from pins.
  ghost predicate Agreeing(c: Tables) { Shape(c) && Inverse(c) && FreeListsOk(c) && Covered(c, []) }

  lemma PromoteStaysCovered(w: Work, id: nat, r: nat)
    requires WorkShape(w) && id < |w.c.directory| && r < |w.c.ram.owners| && w.c.vram.free != [] && Covered(w.c, [])
    ensures Covered(Promote(w, id, r).c, [])
  {
    var q := Promote(w, id, r);
    forall p ensures Accounted(q.c, [], p) {
      assert Accounted(w.c, [], p);
      if p == Ram(r) { assert q.c.ram.free[|w.c.ram.free|] == r; }
    }
  }

  lemma ExchangeStaysCovered(w: Work, id: nat, r: nat, v: nat, victim: nat)
    requires WorkShape(w) && id < |w.c.directory| && victim < |w.c.directory| && r < |w.c.ram.owners|
    requires v < |w.c.vram.owners|
    requires Covered(w.c, [])
    ensures Covered(Exchange(w, id, r, v, victim).c, [])
  {
    forall p ensures Accounted(Exchange(w, id, r, v, victim).c, [], p) { assert Accounted(w.c, [], p); }
  }

  // Where every owner-less slot is free, a victim search runs only with none of them free, and so finds an owner.
  lemma RamServeStaysCovered(w: Work, id: nat, r: nat, dma: bool)
    requires WorkShape(w) && id < |w.c.directory| && w.c.directory[id] == Ram(r) && Covered(w.c, [])
    ensures Covered(ServeRam(w, id, r, dma).c, []) && !HuntMeetsHole(w, id)
  {
    var t := Touch(w, r);
    forall p ensures Accounted(t.c, [], p) { assert Accounted(w.c, [], p); }
    if w.c.vram.free != [] {
      PromoteStaysCovered(t, id, r);
    } else {
      var (h, found) := Hunt(t, id, t.c.hits[r]);
      forall p ensures Accounted(h.c, [], p) { assert Accounted(t.c, [], p); }
      if found.Some? {
        assert Accounted(w.c, [], Vram(found.value));
        ExchangeStaysCovered(h, id, r, found.value, h.c.vram.owners[found.value].value);
      }
    }
  }

  lemma ServeStaysCovered(w: Work, id: nat, dma: bool)
    requires WorkShape(w) && id < |w.c.directory| && Covered(w.c, [])
    ensures Covered(ServeOne(w, id, dma).c, []) && !HuntMeetsHole(w, id)
  {
    if w.c.directory[id].Ram? {
      RamServeStaysCovered(w, id, w.c.directory[id].slot, dma);
    } else {
      forall p ensures Accounted(ServeOne(w, id, dma).c, [], p) { assert Accounted(w.c, [], p); }
    }
  }

  lemma {:induction false} CoveredMeetsNoHole(w: Work, ids: seq<nat>)
    requires WorkShape(w) && InRange(w.c, ids) && Covered(w.c, [])
    ensures Covered(ServeAll(w, ids, Always).c, []) && !SomeHuntMeetsHole(w, ids)
  {
    if ids != [] {
      var n := |ids| - 1;
      CoveredMeetsNoHole(w, ids[..n]);
      ServeStaysCovered(ServeAll(w, ids[..n], Always), ids[n], Always(ids[n]));
    }
  }

  lemma BindStaysCovered(w: Work, rest: seq<Miss>)
    requires WorkShape(w) && rest != [] && MissFits(w, rest[0]) && Covered(w.c, rest)
    ensures Covered(BindOne(w, rest[0]).c, rest[1..])
  {
    var q := BindOne(w, rest[0]);
    forall p ensures Accounted(q.c, rest[1..], p) {
      assert Accounted(w.c, rest, p);
      if HasSlot(q.c, p) && Owner(q.c, p).None? && !IsFree(q.c, p) {
        var i :| 0 <= i < |rest| && rest[i].place == p;
        assert rest[1..][i - 1].place == p;
      }
    }
  }

  lemma {:induction false} BoundIsCovered(w: Work, rest: seq<Miss>)
    requires WorkShape(w) && AllFit(w, rest) && Covered(w.c, rest)
    ensures Covered(BindAll(w, rest).c, [])
    decreases |rest|
  {
    if rest != [] {
      BindStaysCovered(w, rest);
      BoundIsCovered(BindOne(w, rest[0]), rest[1..]);
    }
  }

  lemma ReadyMeetsNoHole(c: Tables, ids: seq<nat>)
    requires Shape(c) && InRange(c, ids) && |ids| < StagingSlots && Ready(c, ids)
    ensures !BatchMeetsHole(c, ids)
  {
    var r := ReserveAll(c, ids);
    if r.ok {
      ReserveKeepsInv(c, ids);
      ReservationsFit(c, ids);
      var w := Work(r.c, Blank(r.c), map[], r.stage, Going);
      forall k | 0 <= k < |r.misses| ensures MissFits(w, r.misses[k]) { assert MissFitsTables(r.c, r.misses[k]); }
      BoundIsCovered(w, r.misses);
      CoveredMeetsNoHole(BindAll(w, r.misses), ids);
    }
  }

  lemma PinnedIsAgreeing(c: Tables, layer: nat, experts: seq<nat>)
    requires Agreeing(c) && layer < c.layers
    ensures var p := PinAll(c, layer, experts); Ready(p.c, p.ids)
  {
    BatchHasNoRepeats(c, layer, experts);
    PinsDoNotMatter(c, PinAll(c, layer, experts).c, Blank(c), []);
  }

  /** From agreeing tables no victim is missing, so a request that is not refused panics if and only if it asks for an
      expert that was pinned before it. */
  lemma PanicsIffPinnedBefore(c: Tables, mem: Mem, layer: nat, experts: seq<nat>, world: World)
    requires Agreeing(c) && MemShape(c, mem) && MemShape(c, world.after)
    ensures !VictimIsMissing(c, layer, experts)
    ensures var a := Acquire(c, mem, layer, experts, world).answer;
      a != Refused ==> (a == Crashed <==> AsksForPinned(c, layer, experts))
  {
    if layer < c.layers {
      var p := PinAll(c, layer, experts);
      PinnedIsAgreeing(c, layer, experts);
      if |p.ids| < StagingSlots { ReadyMeetsNoHole(p.c, p.ids); }
    }
    if Acquire(c, mem, layer, experts, world).answer != Refused { PanicsIff(c, mem, layer, experts, world); }
  }

  /** From a sound cache no request panics. */
  lemma SoundCannotPanic(c: Tables, mem: Mem, layer: nat, experts: seq<nat>, world: World, weights: seq<Data>)
    requires Sound(c, mem, weights) && MemShape(c, world.after)
    ensures Acquire(c, mem, layer, experts, world).answer != Crashed
  {
    PanicsIffPinnedBefore(c, mem, layer, experts, world);
    assert !AsksForPinned(c, layer, experts);
  }
}
