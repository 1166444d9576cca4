/** Whole batches and whole requests of the expert cache. */
module ExpertRequests {
  import opened Options
  import opened Arithmetic
  import opened ExpertTables
  import opened ExpertBatches
  import opened ExpertContents

  // ----- Binding, all misses -----

  lemma {:induction false} BindAllKeepsInv(w: Work, rest: seq<Miss>, weights: seq<Data>)
    requires WorkShape(w) && AllFit(w, rest) && BindInv(w, rest, weights)
    ensures BindInv(BindAll(w, rest), [], weights)
    decreases |rest|
  {
    if rest != [] {
      BindOneKeepsInv(w, rest, weights);
      BindAllKeepsInv(BindOne(w, rest[0]), rest[1..], weights);
    }
  }

  // Binding touches the experts that missed and no others.
  ghost predicate BindsOnly(w: Work, q: Work, rest: seq<Miss>) {
    && SameFrame(w.c, q.c) && q.c.pinned == w.c.pinned && q.c.counts == w.c.counts
    && (forall id :: id in q.views <==> id in w.views || HasMiss(rest, id))
    && (forall id :: 0 <= id < |w.c.directory| && !HasMiss(rest, id) ==> q.c.directory[id] == w.c.directory[id])
  }

  lemma HasMissSplits(rest: seq<Miss>, id: nat)
    requires rest != []
    ensures HasMiss(rest, id) <==> rest[0].id == id || HasMiss(rest[1..], id)
  {
    if HasMiss(rest, id) && rest[0].id != id {
      var i :| 0 <= i < |rest| && rest[i].id == id;
      assert rest[1..][i - 1].id == id;
    } else if HasMiss(rest[1..], id) {
      var i :| 0 <= i < |rest[1..]| && rest[1..][i].id == id;
      assert rest[i + 1].id == id;
    }
  }

  lemma {:induction false} BindAllBindsOnly(w: Work, rest: seq<Miss>)
    requires WorkShape(w) && AllFit(w, rest)
    ensures BindsOnly(w, BindAll(w, rest), rest)
    decreases |rest|
  {
    if rest != [] {
      var q := BindOne(w, rest[0]);
      BindAllBindsOnly(q, rest[1..]);
      forall id: nat ensures HasMiss(rest, id) <==> rest[0].id == id || HasMiss(rest[1..], id) {
        HasMissSplits(rest, id);
      }
    }
  }

  lemma {:induction false} BindAllPlaces(w: Work, rest: seq<Miss>, i: nat)
    requires WorkShape(w) && AllFit(w, rest) && DistinctIds(rest) && i < |rest| && rest[i].place != Cold
    ensures BindAll(w, rest).c.directory[rest[i].id] == rest[i].place
    decreases |rest|
  {
    var q := BindOne(w, rest[0]);
    if i > 0 {
      assert rest[1..][i - 1] == rest[i];
      BindAllPlaces(q, rest[1..], i - 1);
    } else {
      BindAllBindsOnly(q, rest[1..]);
      assert !HasMiss(rest[1..], rest[0].id);
    }
  }

  // ----- Serving, all experts -----

  function IdSet(ids: seq<nat>): set<nat> { set x | x in ids }

  lemma {:induction false} CountIds(ids: seq<nat>)
    ensures |IdSet(ids)| <= |ids|
  {
    if ids != [] {
      var n := |ids| - 1;
      CountIds(ids[..n]);
      assert IdSet(ids) == IdSet(ids[..n]) + {ids[n]};
    }
  }

  lemma RoomToStage(ids: seq<nat>, views: map<nat, View>, id: nat)
    requires id in ids && id !in views && forall x :: x in views ==> x in ids
    ensures |views| < |ids|
  {
    var all := IdSet(ids);
    CountIds(ids);
    assert views.Keys <= all - {id};
    SubsetIsSmaller(views.Keys, all - {id});
    assert |all - {id}| == |all| - 1;
    assert |views| == |views.Keys|;
  }

  // What phase 2 keeps after the first `k` experts of the batch.
  ghost predicate Serving(w: Work, ids: seq<nat>, weights: seq<Data>, k: nat)
    requires WorkShape(w) && InRange(w.c, ids)
  {
    && ServeInv(w, weights) && AllPinned(w.c, ids) && k <= |ids| && w.status == Going
    && (forall id :: id in w.views ==> id in ids)
    && (forall i :: 0 <= i < |ids| ==> ids[i] in w.views || w.c.directory[ids[i]] != Cold)
    && (forall i :: 0 <= i < k ==> ids[i] in w.views)
  }

  lemma ServeNext(w: Work, ids: seq<nat>, weights: seq<Data>, k: nat, dma: bool)
    requires WorkShape(w) && InRange(w.c, ids) && |ids| < StagingSlots && k < |ids| && Serving(w, ids, weights, k)
    ensures var q := ServeOne(w, ids[k], dma);
      q.status != Panicked && ServeInv(q, weights) && (q.status == Going ==> Serving(q, ids, weights, k + 1))
  {
    if ids[k] !in w.views {
      RoomToStage(ids, w.views, ids[k]);
      ServeOneKeepsInv(w, weights, ids[k], dma);
    }
    OthersStayPut(w, ids[k], dma);
  }

  lemma {:induction false} ServeAllKeepsInv(w: Work, ids: seq<nat>, weights: seq<Data>, k: nat, dma: nat -> bool)
    requires WorkShape(w) && InRange(w.c, ids) && |ids| < StagingSlots && Serving(w, ids, weights, 0) && k <= |ids|
    ensures var q := ServeAll(w, ids[..k], dma);
      q.status != Panicked && ServeInv(q, weights) && (q.status == Going ==> Serving(q, ids, weights, k))
  {
    if k > 0 {
      assert ids[..k][..k - 1] == ids[..k - 1];
      ServeAllKeepsInv(w, ids, weights, k - 1, dma);
      var q := ServeAll(w, ids[..k - 1], dma);
      if q.status == Going { ServeNext(q, ids, weights, k - 1, dma(ids[k - 1])); }
    }
  }

  // An expert that already has its view keeps its place.
  lemma {:induction false} ServedStaysPut(w: Work, ids: seq<nat>, dma: nat -> bool, id: nat)
    requires WorkShape(w) && InRange(w.c, ids) && id < |w.c.directory| && w.c.pinned[id] && id in w.views
    ensures var q := ServeAll(w, ids, dma);
      q.c.directory[id] == w.c.directory[id] && q.c.pinned == w.c.pinned && id in q.views
  {
    if ids != [] {
      var n := |ids| - 1;
      ServedStaysPut(w, ids[..n], dma, id);
      OthersStayPut(ServeAll(w, ids[..n], dma), ids[n], dma(ids[n]));
    }
  }

  // ----- One batch -----

  // What the outside world promises: a successful read fills the slots it was given.
  ghost predicate Honest(c: Tables, mem: Mem, ids: seq<nat>, world: World, weights: seq<Data>)
    requires Shape(c) && InRange(c, ids)
  { MemShape(c, world.after) && (world.readOk ==> ReadsInto(mem, world.after, ReserveAll(c, ids).misses, weights)) }

  lemma AllAlone(misses: seq<Miss>, next: nat, i: nat)
    requires Distinct(misses) && StagesRise(misses, next) && i < |misses|
    ensures Alone(misses, i)
  {
    forall j | 0 <= j < |misses| && j != i ensures Dest(misses[j]) != Dest(misses[i]) {
      var a, b := if i < j then i else j, if i < j then j else i;
      assert Past(misses[a]) <= misses[b].stage;
      assert misses[a].place != Cold ==> misses[a].place != misses[b].place;
    }
  }

  lemma ReadFills(c: Tables, mem: Mem, after: Mem, misses: seq<Miss>, weights: seq<Data>)
    requires Shape(c) && MemShape(c, mem) && MemShape(c, after) && Holds(c, mem, weights) && AllHeld(c, misses)
    requires ReadsInto(mem, after, misses, weights)
    ensures Holds(c, after, weights)
  {
    forall p ensures SlotHolds(c, after, weights, p) {
      assert SlotHolds(c, mem, weights, p);
      if HasSlot(c, p) && Owner(c, p).Some? {
        forall i | 0 <= i < |misses| ensures Dest(misses[i]) != LocOf(p) { assert Held(c, misses[i]); }
      }
    }
  }

  // The state in which binding starts.
  lemma BindStarts(c: Tables, mem: Mem, ids: seq<nat>, read: Mem, weights: seq<Data>)
    requires Shape(c) && MemShape(c, mem) && MemShape(c, read) && InRange(c, ids) && |ids| < StagingSlots
    requires Ready(c, ids)
    requires Holds(c, mem, weights) && |weights| == |c.directory| && ReserveAll(c, ids).ok && Clean(c, ids)
    requires ReadsInto(mem, read, ReserveAll(c, ids).misses, weights)
    ensures var r := ReserveAll(c, ids);
      var w := Work(r.c, read, map[], r.stage, Going);
      AllFit(w, r.misses) && BindInv(w, r.misses, weights)
  {
    var r := ReserveAll(c, ids);
    ReserveKeepsInv(c, ids);
    CleanMeansDistinct(c, ids);
    ReservationsFit(c, ids);
    var w := Work(r.c, read, map[], r.stage, Going);
    assert Holds(r.c, mem, weights) by { EvictionKeepsContents(c, r.c, mem, weights); }
    ReadFills(r.c, mem, read, r.misses, weights);
    forall i | 0 <= i < |r.misses| ensures Filled(w, weights, r.misses[i]) {
      AllAlone(r.misses, r.stage, i);
      assert MissFitsTables(r.c, r.misses[i]);
      MissIsCold(c, ids, r, i);
    }
  }

  lemma MissIsCold(c: Tables, ids: seq<nat>, r: Reserved, i: nat)
    requires Shape(c) && InRange(c, ids) && Shape(r.c) && ReserveInv(c, ids, r) && i < |r.misses|
    ensures r.misses[i].id < |r.c.directory| && r.c.directory[r.misses[i].id] == Cold
  {
    assert r.misses[i].id in ids;
    var k :| 0 <= k < |ids| && ids[k] == r.misses[i].id;
    assert HasMiss(r.misses, ids[k]);
  }

  lemma EvictionKeepsContents(c: Tables, d: Tables, mem: Mem, weights: seq<Data>)
    requires Shape(c) && Shape(d) && MemShape(c, mem) && Inverse(c) && Inverse(d) && Evicts(c, d)
    requires Holds(c, mem, weights)
    ensures Holds(d, mem, weights)
  {
    forall p ensures SlotHolds(d, mem, weights, p) {
      assert SlotIsListed(d, p) && SlotHolds(c, mem, weights, p);
      if HasSlot(d, p) && Owner(d, p).Some? { assert OwnsItsSlot(c, Owner(d, p).value); }
    }
  }

  lemma ServingStarts(c: Tables, ids: seq<nat>, r: Reserved, w: Work, weights: seq<Data>)
    requires Shape(c) && InRange(c, ids) && AllPinned(c, ids) && Shape(r.c) && ReserveInv(c, ids, r)
    requires |weights| == |c.directory|
    requires WorkShape(w) && w.c == r.c && w.views == map[] && AllFit(w, r.misses) && BindInv(w, r.misses, weights)
    ensures Serving(BindAll(w, r.misses), ids, weights, 0)
  {
    BindAllKeepsInv(w, r.misses, weights);
    BindAllBindsOnly(w, r.misses);
    var b := BindAll(w, r.misses);
    forall i | 0 <= i < |ids| ensures b.c.pinned[ids[i]] && (ids[i] in b.views || b.c.directory[ids[i]] != Cold) {
      assert HasMiss(r.misses, ids[i]) <==> c.directory[ids[i]] == Cold;
    }
  }

  // Every miss got a slot and the read succeeded, so phase 2 is reached.
  predicate GetsThrough(c: Tables, ids: seq<nat>, world: World)
    requires Shape(c) && InRange(c, ids)
  { var r := ReserveAll(c, ids); r.ok && (r.misses == [] || world.readOk) }

  lemma CleanBatchKeepsInv(c: Tables, mem: Mem, ids: seq<nat>, world: World, weights: seq<Data>)
    requires Shape(c) && MemShape(c, mem) && InRange(c, ids) && |ids| < StagingSlots && Ready(c, ids)
    requires Holds(c, mem, weights) && |weights| == |c.directory| && Honest(c, mem, ids, world, weights)
    requires Clean(c, ids)
    ensures var w := AcquirePinned(c, mem, ids, world);
      && w.status != Panicked && (w.status == Going ==> Serving(w, ids, weights, |ids|))
      && (GetsThrough(c, ids, world) ==> ServeInv(w, weights))
  {
    var r := ReserveAll(c, ids);
    var read := if r.misses == [] then mem else world.after;
    if r.ok && (r.misses == [] || world.readOk) {
      BindStarts(c, mem, ids, read, weights);
      ReserveKeepsInv(c, ids);
      var w := Work(r.c, read, map[], r.stage, Going);
      ServingStarts(c, ids, r, w, weights);
      ServeAllKeepsInv(BindAll(w, r.misses), ids, weights, |ids|, world.dma);
      assert ids[..|ids|] == ids;
    }
  }

  // If two misses shared a slot, the directory still names it for both after the batch.
  lemma UncleanBatchBreaksTables(c: Tables, mem: Mem, ids: seq<nat>, world: World)
    requires Shape(c) && MemShape(c, mem) && MemShape(c, world.after) && InRange(c, ids) && |ids| < StagingSlots
    requires Ready(c, ids)
    requires !Clean(c, ids) && GetsThrough(c, ids, world)
    ensures !Inverse(AcquirePinned(c, mem, ids, world).c)
  {
    var r := ReserveAll(c, ids);
    ReserveKeepsInv(c, ids);
    CleanMeansDistinct(c, ids);
    ReservationsFit(c, ids);
    var i, j :| 0 <= i < j < |r.misses| && r.misses[i].place != Cold && r.misses[i].place == r.misses[j].place;
    var w := Work(r.c, if r.misses == [] then mem else world.after, map[], r.stage, Going);
    forall k | 0 <= k < |r.misses| ensures MissFits(w, r.misses[k]) { assert MissFitsTables(r.c, r.misses[k]); }
    SharedSlotStaysShared(c, ids, r, w, i, j, world.dma);
  }

  lemma SharedSlotStaysShared(c: Tables, ids: seq<nat>, r: Reserved, w: Work, i: nat, j: nat, dma: nat -> bool)
    requires Shape(c) && InRange(c, ids) && AllPinned(c, ids) && Shape(r.c) && ReserveInv(c, ids, r)
    requires WorkShape(w) && w.c == r.c && AllFit(w, r.misses)
    requires i < j < |r.misses| && r.misses[i].place == r.misses[j].place != Cold
    ensures !Inverse(ServeAll(BindAll(w, r.misses), ids, dma).c)
  {
    var x, y := r.misses[i].id, r.misses[j].id;
    var b := BindAll(w, r.misses);
    BindAllBindsOnly(w, r.misses);
    BindAllPlaces(w, r.misses, i);
    BindAllPlaces(w, r.misses, j);
    MissIsPinned(c, ids, r, i);
    MissIsPinned(c, ids, r, j);
    ServedStaysPut(b, ids, dma, x);
    ServedStaysPut(b, ids, dma, y);
    var d := ServeAll(b, ids, dma).c;
    assert !(OwnsItsSlot(d, x) && OwnsItsSlot(d, y));
  }

  lemma MissIsPinned(c: Tables, ids: seq<nat>, r: Reserved, i: nat)
    requires Shape(c) && InRange(c, ids) && Shape(r.c) && ReserveInv(c, ids, r) && AllPinned(c, ids) && i < |r.misses|
    ensures r.misses[i].id < |r.c.pinned| && r.c.pinned[r.misses[i].id] && HasMiss(r.misses, r.misses[i].id)
  {
    assert r.misses[i].id in ids;
    var k :| 0 <= k < |ids| && ids[k] == r.misses[i].id;
  }

  // ----- Requests -----

  predicate NonePinned(c: Tables) { forall i :: 0 <= i < |c.pinned| ==> !c.pinned[i] }

  // What holds between batches.
  ghost predicate Sound(c: Tables, mem: Mem, weights: seq<Data>) {
    && Shape(c) && MemShape(c, mem) && |weights| == |c.directory|
    && Inverse(c) && FreeListsOk(c) && Covered(c, []) && Holds(c, mem, weights) && NonePinned(c)
  }

  lemma {:induction false} PinsAreTheBatch(c: Tables, layer: nat, experts: seq<nat>)
    requires Shape(c) && layer < c.layers && NonePinned(c)
    ensures var p := PinAll(c, layer, experts);
      && NoRepeats(p.ids) && (forall i :: 0 <= i < |p.c.pinned| ==> (p.c.pinned[i] <==> i in p.ids))
      && (p.ok ==> forall k :: 0 <= k < |experts| ==> ExpertId(c, layer, experts[k]) in p.ids)
  {
    if experts != [] {
      var n := |experts| - 1;
      PinsAreTheBatch(c, layer, experts[..n]);
      var p, q := PinAll(c, layer, experts[..n]), PinAll(c, layer, experts);
      if q.ok {
        var id := ExpertId(c, layer, experts[n]);
        forall k | 0 <= k < |experts| ensures ExpertId(c, layer, experts[k]) in q.ids {
          if k < n { assert experts[..n][k] == experts[k]; }
        }
      }
    }
  }

  // Pins and counts do not matter to the tables.
  lemma PinsDoNotMatter(c: Tables, d: Tables, mem: Mem, weights: seq<Data>)
    requires Shape(c) && Shape(d) && MemShape(c, mem) && d == c.(pinned := d.pinned, counts := d.counts)
    ensures Inverse(c) <==> Inverse(d)
    ensures FreeListsOk(c) ==> FreeListsOk(d)
    ensures Covered(c, []) ==> Covered(d, [])
    ensures Holds(c, mem, weights) ==> Holds(d, mem, weights)
  {
    assert forall id: nat :: OwnsItsSlot(c, id) == OwnsItsSlot(d, id);
    assert forall p :: SlotIsListed(c, p) == SlotIsListed(d, p);
    assert forall p :: FreeIsUnowned(c, p) == FreeIsUnowned(d, p);
    assert forall p :: Accounted(c, [], p) == Accounted(d, [], p);
    assert forall p :: SlotHolds(c, mem, weights, p) == SlotHolds(d, mem, weights, p);
  }

  // The guard of the failing branch, over the sweeps of one request.
  predicate CleanRequest(c: Tables, layer: nat, experts: seq<nat>)
    requires Shape(c)
  { layer < c.layers ==> var p := PinAll(c, layer, experts); p.ok ==> Clean(p.c, p.ids) }

  ghost predicate HonestRequest(c: Tables, mem: Mem, layer: nat, experts: seq<nat>, world: World, weights: seq<Data>)
    requires Shape(c)
  {
    MemShape(c, world.after) &&
      (layer < c.layers ==> var p := PinAll(c, layer, experts); Honest(p.c, mem, p.ids, world, weights))
  }

  predicate Addresses(mem: Mem, view: View, id: nat, weights: seq<Data>) {
    id < |weights| && HasLoc(mem, view.at) && Get(mem, view.at) == weights[id]
  }

  // Every returned view addresses its expert's bytes.
  ghost predicate ViewsAddress(c: Tables, mem: Mem, layer: nat, experts: seq<nat>, views: seq<View>, weights: seq<Data>)
    requires layer < c.layers
  {
    && |views| == |experts|
    && forall k :: 0 <= k < |experts| ==>
        experts[k] < c.perLayer && Addresses(mem, views[k], ExpertId(c, layer, experts[k]), weights)
  }

  lemma PinnedIsReady(c: Tables, mem: Mem, weights: seq<Data>, layer: nat, experts: seq<nat>)
    requires Sound(c, mem, weights) && layer < c.layers
    ensures var p := PinAll(c, layer, experts);
      Ready(p.c, p.ids) && Holds(p.c, mem, weights)
  {
    PinsAreTheBatch(c, layer, experts);
    PinsDoNotMatter(c, PinAll(c, layer, experts).c, mem, weights);
  }

  lemma ViewShows(w: Work, weights: seq<Data>, id: nat)
    requires WorkShape(w) && ServeInv(w, weights) && id in w.views
    ensures Addresses(w.mem, w.views[id], id, weights)
  {
    assert Shows(w, weights, id, w.stage) && OwnsItsSlot(w.c, id);
    if w.views[id].at.InVram? { assert SlotHolds(w.c, w.mem, weights, Vram(w.views[id].at.slot)); }
  }

  lemma ServingEnds(c: Tables, layer: nat, experts: seq<nat>, w: Work, weights: seq<Data>)
    requires Shape(c) && layer < c.layers && NonePinned(c) && PinAll(c, layer, experts).ok && WorkShape(w)
    requires var p := PinAll(c, layer, experts); SameFrame(p.c, w.c) && Serving(w, p.ids, weights, |p.ids|)
    ensures var o := Complete(c, layer, experts, PinAll(c, layer, experts).ids, w);
      Sound(o.c, o.mem, weights) && o.answer.Views? && ViewsAddress(c, o.mem, layer, experts, o.answer.views, weights)
  {
    UnpinnedIsSound(c, layer, experts, w, weights);
    EveryExpertIsShown(c, layer, experts, w, weights);
  }

  lemma UnpinnedIsSound(c: Tables, layer: nat, experts: seq<nat>, w: Work, weights: seq<Data>)
    requires Shape(c) && layer < c.layers && NonePinned(c) && WorkShape(w)
    requires var p := PinAll(c, layer, experts); SameFrame(p.c, w.c) && Serving(w, p.ids, weights, |p.ids|)
    ensures Sound(Unpin(w.c, PinAll(c, layer, experts).ids), w.mem, weights)
  {
    PinsAreTheBatch(c, layer, experts);
    PinsDoNotMatter(w.c, Unpin(w.c, PinAll(c, layer, experts).ids), w.mem, weights);
  }

  lemma EveryExpertIsShown(c: Tables, layer: nat, experts: seq<nat>, w: Work, weights: seq<Data>)
    requires Shape(c) && layer < c.layers && NonePinned(c) && PinAll(c, layer, experts).ok && WorkShape(w)
    requires var p := PinAll(c, layer, experts); SameFrame(p.c, w.c) && Serving(w, p.ids, weights, |p.ids|)
    ensures forall k :: 0 <= k < |experts| ==> ExpertIsShown(c, layer, experts[k], w, weights)
  {
    PinsAreTheBatch(c, layer, experts);
    forall k | 0 <= k < |experts| ensures ExpertIsShown(c, layer, experts[k], w, weights) {
      assert ExpertId(c, layer, experts[k]) in w.views;
      ViewShows(w, weights, ExpertId(c, layer, experts[k]));
    }
  }

  predicate ExpertIsShown(c: Tables, layer: nat, expert: nat, w: Work, weights: seq<Data>)
    requires layer < c.layers
  {
    && expert < c.perLayer && ExpertId(c, layer, expert) in w.views
    && Addresses(w.mem, w.views[ExpertId(c, layer, expert)], ExpertId(c, layer, expert), weights)
  }

  lemma CleanRequestKeepsSound(c: Tables, mem: Mem, layer: nat, experts: seq<nat>, world: World, weights: seq<Data>)
    requires Sound(c, mem, weights) && HonestRequest(c, mem, layer, experts, world, weights) && layer < c.layers
    requires CleanRequest(c, layer, experts)
    ensures var o := Acquire(c, mem, layer, experts, world);
      && o.answer != Crashed
      && (o.answer.Views? ==>
          Sound(o.c, o.mem, weights) && ViewsAddress(c, o.mem, layer, experts, o.answer.views, weights))
  {
    var p := PinAll(c, layer, experts);
    if p.ok && |p.ids| < StagingSlots {
      PinnedIsReady(c, mem, weights, layer, experts);
      CleanBatchKeepsInv(p.c, mem, p.ids, world, weights);
      var w := AcquirePinned(p.c, mem, p.ids, world);
      if w.status == Going { ServingEnds(c, layer, experts, w, weights); }
    }
  }

  // A successful request went through its batch.
  lemma SuccessIsTheBatch(c: Tables, mem: Mem, layer: nat, experts: seq<nat>, world: World)
    requires Shape(c) && MemShape(c, mem) && MemShape(c, world.after)
    requires Acquire(c, mem, layer, experts, world).answer.Views?
    ensures layer < c.layers && PinAll(c, layer, experts).ok && |PinAll(c, layer, experts).ids| < StagingSlots
    ensures var p := PinAll(c, layer, experts);
      var w := AcquirePinned(p.c, mem, p.ids, world);
      GetsThrough(p.c, p.ids, world) && Acquire(c, mem, layer, experts, world).c == Unpin(w.c, p.ids)
  {}

  lemma UncleanRequestBreaksTables(
    c: Tables, mem: Mem, layer: nat, experts: seq<nat>, world: World, weights: seq<Data>)
    requires Sound(c, mem, weights) && MemShape(c, world.after) && layer < c.layers
    requires !CleanRequest(c, layer, experts)
    ensures var o := Acquire(c, mem, layer, experts, world);
      o.answer.Views? ==> Shape(o.c) && !Inverse(o.c)
  {
    if Acquire(c, mem, layer, experts, world).answer.Views? {
      SuccessIsTheBatch(c, mem, layer, experts, world);
      var p := PinAll(c, layer, experts);
      var w := AcquirePinned(p.c, mem, p.ids, world);
      PinnedIsReady(c, mem, weights, layer, experts);
      UncleanBatchBreaksTables(p.c, mem, p.ids, world);
      PinsDoNotMatter(w.c, Unpin(w.c, p.ids), w.mem, weights);
    }
  }

  // ----- An empty cache -----

  // Slots are handed out from 0 up.
  function NewTier(slots: nat): Tier {
    Tier(seq(slots, _ => None), seq(slots, _ => false), seq(slots, i requires 0 <= i < slots => slots - 1 - i), 0)
  }

  function NewTables(layers: nat, perLayer: nat, vramSlots: nat, ramSlots: nat): (c: Tables)
    ensures Shape(c)
  {
    var n := layers * perLayer;
    Tables(layers, perLayer, seq(n, _ => Cold), seq(n, _ => 0), seq(n, _ => false), NewTier(vramSlots),
      NewTier(ramSlots), seq(ramSlots, _ => 0))
  }

  lemma NewIsSound(layers: nat, perLayer: nat, vramSlots: nat, ramSlots: nat, mem: Mem, weights: seq<Data>)
    requires MemShape(NewTables(layers, perLayer, vramSlots, ramSlots), mem) && |weights| == layers * perLayer
    ensures Sound(NewTables(layers, perLayer, vramSlots, ramSlots), mem, weights)
  {
    var c := NewTables(layers, perLayer, vramSlots, ramSlots);
    forall p ensures Accounted(c, [], p) {
      if HasSlot(c, p) {
        if p.Vram? {
          assert c.vram.free[vramSlots - 1 - p.slot] == p.slot;
        } else {
          assert c.ram.free[ramSlots - 1 - p.slot] == p.slot;
        }
      }
    }
  }

  // ----- When the guard holds, and when it does not -----

  // With every owner-less slot free, the first miss meets no hole.
  lemma FirstMissIsClean(c: Tables)
    requires Shape(c) && Covered(c, [])
    ensures !SweepMeetsHole(c)
  {
    if UsesVram(c) && c.vram.free == [] {
      var w := Sweep(c.vram, c.directory, c.pinned, 2 * |c.vram.owners| + 1);
      if w.slot.Some? { assert Accounted(c, [], Vram(w.slot.value)); }
    } else if UsesRam(c) && c.ram.free == [] {
      var w := Sweep(c.ram, c.directory, c.pinned, 2 * |c.ram.owners| + 1);
      if w.slot.Some? { assert Accounted(c, [], Ram(w.slot.value)); }
    }
  }

  // The miss is the only one, so the guard is met.
  lemma {:induction false} OneMissIsClean(c: Tables, ids: seq<nat>, k: nat)
    requires Shape(c) && InRange(c, ids) && Covered(c, [])
    requires forall i :: 0 <= i < |ids| && i != k ==> c.directory[ids[i]] != Cold
    requires forall i :: 0 <= i < |ids| ==> c.pinned[ids[i]]
    requires Inverse(c) && FreeListsOk(c) && NoRepeats(ids)
    ensures Clean(c, ids)
  {
    if ids != [] {
      var n := |ids| - 1;
      OneMissIsClean(c, ids[..n], k);
      var r := ReserveAll(c, ids[..n]);
      if n <= k {
        HitsReserveNothing(c, ids[..n]);
        FirstMissIsClean(c);
      } else if r.ok {
        assert AllPinned(c, ids[..n]);
        ReserveKeepsInv(c, ids[..n]);
        assert r.c.directory[ids[n]] == c.directory[ids[n]];
      }
    }
  }

  lemma {:induction false} HitsReserveNothing(c: Tables, ids: seq<nat>)
    requires Shape(c) && InRange(c, ids) && forall i :: 0 <= i < |ids| ==> c.directory[ids[i]] != Cold
    ensures ReserveAll(c, ids) == Reserved(c, [], 1, true)
  {
    if ids != [] { HitsReserveNothing(c, ids[..|ids| - 1]); }
  }
}
