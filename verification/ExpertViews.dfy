/** Whether the views of a successful request show their experts: exactly if no sweep of the request met a hole. */
module ExpertViews {
  import opened ExpertTables
  import opened ExpertBatches
  import opened ExpertRequests
  import opened ExpertPanics

  // ----- What becomes of a view once it is given -----

  // Binding other misses leaves a view and its staging slot alone.
  lemma {:induction false} BoundElsewhere(w: Work, rest: seq<Miss>, id: nat, stage: nat)
    requires WorkShape(w) && AllFit(w, rest) && id in w.views && stage < StagingSlots
    requires forall i :: 0 <= i < |rest| ==> rest[i].id != id && (rest[i].place.Ram? ==> rest[i].stage != stage)
    ensures var b := BindAll(w, rest);
      b.mem.host[stage] == w.mem.host[stage] && id in b.views && b.views[id] == w.views[id]
    decreases |rest|
  {
    if rest != [] { BoundElsewhere(BindOne(w, rest[0]), rest[1..], id, stage); }
  }

  predicate ShownAt(w: Work, m: Miss, bytes: Data)
    requires WorkShape(w)
  {
    && m.id in w.views && m.stage < StagingSlots
    && match m.place
       case Vram(s) => w.views[m.id].at == InVram(s)
       case Ram(_) => w.views[m.id].at == InHost(m.stage) && w.mem.host[m.stage] == bytes
       case Cold => true
  }

  function BytesFor(w: Work, m: Miss): Data
    requires WorkShape(w)
  { if m.place.Ram? && m.place.slot < |w.mem.ram| then w.mem.ram[m.place.slot] else [] }

  // A miss is shown in its VRAM slot, or in its staging slot with the bytes its RAM slot had.
  lemma {:induction false} BoundShows(w: Work, rest: seq<Miss>, next: nat, i: nat)
    requires WorkShape(w) && AllFit(w, rest) && DistinctIds(rest) && StagesRise(rest, next) && i < |rest|
    ensures ShownAt(BindAll(w, rest), rest[i], BytesFor(w, rest[i]))
    decreases |rest|
  {
    assert MissFits(w, rest[0]);
    var q := BindOne(w, rest[0]);
    if i > 0 {
      assert rest[1..][i - 1] == rest[i];
      BoundShows(q, rest[1..], next, i - 1);
    } else {
      forall k | 0 <= k < |rest[1..]|
        ensures rest[1..][k].id != rest[0].id && 1 <= rest[1..][k].stage && Past(rest[0]) <= rest[1..][k].stage
      {
        assert rest[1..][k] == rest[k + 1];
      }
      BoundElsewhere(q, rest[1..], rest[0].id, if rest[0].place.Ram? then rest[0].stage else 0);
    }
  }

  // Serving gives views to others and writes to staging slots not yet given out.
  lemma ServeKeepsView(w: Work, served: nat, dma: bool, id: nat, stage: nat)
    requires WorkShape(w) && served < |w.c.directory| && id in w.views && stage < StagingSlots
    ensures var q := ServeOne(w, served, dma);
      && id in q.views && q.views[id] == w.views[id] && q.stage >= w.stage
      && (1 <= stage < w.stage ==> q.mem.host[stage] == w.mem.host[stage])
  {}

  lemma {:induction false} ServingKeepsView(w: Work, ids: seq<nat>, dma: nat -> bool, id: nat, stage: nat)
    requires WorkShape(w) && InRange(w.c, ids) && id in w.views && stage < StagingSlots
    ensures var q := ServeAll(w, ids, dma);
      && id in q.views && q.views[id] == w.views[id] && q.stage >= w.stage
      && (1 <= stage < w.stage ==> q.mem.host[stage] == w.mem.host[stage])
  {
    if ids != [] {
      var n := |ids| - 1;
      ServingKeepsView(w, ids[..n], dma, id, stage);
      ServeKeepsView(ServeAll(w, ids[..n], dma), ids[n], dma(ids[n]), id, stage);
    }
  }

  // ----- Two misses in one slot -----

  predicate ShowSame(mem: Mem, a: View, b: View) {
    HasLoc(mem, a.at) && HasLoc(mem, b.at) && Get(mem, a.at) == Get(mem, b.at)
  }

  lemma StillShown(w: Work, misses: seq<Miss>, ids: seq<nat>, dma: nat -> bool, i: nat)
    requires WorkShape(w) && AllFit(w, misses) && InRange(w.c, ids) && i < |misses|
    requires DistinctIds(misses) && StagesRise(misses, w.stage)
    ensures ShownAt(ServeAll(BindAll(w, misses), ids, dma), misses[i], BytesFor(w, misses[i]))
  {
    BoundShows(w, misses, w.stage, i);
    ServingKeepsView(BindAll(w, misses), ids, dma, misses[i].id, misses[i].stage);
  }

  /** Two misses that hold one slot are both answered with that slot, or with two copies of it. */
  lemma SharedSlotShowsTwice(w: Work, misses: seq<Miss>, ids: seq<nat>, dma: nat -> bool, i: nat, j: nat)
    requires WorkShape(w) && AllFit(w, misses) && InRange(w.c, ids) && DistinctIds(misses)
    requires StagesRise(misses, w.stage) && i < j < |misses| && misses[i].place == misses[j].place != Cold
    ensures var q := ServeAll(BindAll(w, misses), ids, dma);
      && misses[i].id in q.views && misses[j].id in q.views
      && ShowSame(q.mem, q.views[misses[i].id], q.views[misses[j].id])
  {
    assert MissFits(w, misses[i]);
    StillShown(w, misses, ids, dma, i);
    StillShown(w, misses, ids, dma, j);
  }

  lemma UncleanBatchShowsTwice(c: Tables, mem: Mem, ids: seq<nat>, world: World) returns (x: nat, y: nat)
    requires Shape(c) && MemShape(c, mem) && MemShape(c, world.after) && InRange(c, ids) && |ids| < StagingSlots
    requires Ready(c, ids) && !Clean(c, ids) && GetsThrough(c, ids, world)
    ensures x in ids && y in ids && x != y
    ensures var w := AcquirePinned(c, mem, ids, world);
      x in w.views && y in w.views && ShowSame(w.mem, w.views[x], w.views[y])
  {
    var r := ReserveAll(c, ids);
    ReserveKeepsInv(c, ids);
    CleanMeansDistinct(c, ids);
    ReservationsFit(c, ids);
    var i, j :| 0 <= i < j < |r.misses| && r.misses[i].place != Cold && r.misses[i].place == r.misses[j].place;
    var w := Work(r.c, if r.misses == [] then mem else world.after, map[], r.stage, Going);
    forall k | 0 <= k < |r.misses| ensures MissFits(w, r.misses[k]) { assert MissFitsTables(r.c, r.misses[k]); }
    SharedSlotShowsTwice(w, r.misses, ids, world.dma, i, j);
    x, y := r.misses[i].id, r.misses[j].id;
  }

  // ----- One request -----

  // Two different experts are answered with the same bytes.
  ghost predicate TwoShowTheSame(mem: Mem, experts: seq<nat>, views: seq<View>) {
    |views| == |experts| &&
      exists a, b :: 0 <= a < |experts| && 0 <= b < |experts| && experts[a] != experts[b] &&
        ShowSame(mem, views[a], views[b])
  }

  lemma BatchIsAsked(c: Tables, layer: nat, experts: seq<nat>, id: nat) returns (k: nat)
    requires Shape(c) && layer < c.layers && PinAll(c, layer, experts).ok && id in PinAll(c, layer, experts).ids
    ensures k < |experts| && experts[k] < c.perLayer && ExpertId(c, layer, experts[k]) == id
  {
    PinsUpToTheFirstBadIndex(c, layer, experts, id);
    k :| 0 <= k < |experts| && ExpertId(c, layer, experts[k]) == id;
  }

  /** An unclean request that succeeds answers two different experts with the same bytes. */
  lemma UncleanRequestShowsTwice(
    c: Tables, mem: Mem, layer: nat, experts: seq<nat>, world: World, weights: seq<Data>)
    requires Sound(c, mem, weights) && MemShape(c, world.after) && !CleanRequest(c, layer, experts)
    requires Acquire(c, mem, layer, experts, world).answer.Views?
    ensures var o := Acquire(c, mem, layer, experts, world); TwoShowTheSame(o.mem, experts, o.answer.views)
  {
    SuccessIsTheBatch(c, mem, layer, experts, world);
    var p := PinAll(c, layer, experts);
    PinnedIsReady(c, mem, weights, layer, experts);
    var x, y := UncleanBatchShowsTwice(p.c, mem, p.ids, world);
    var a := BatchIsAsked(c, layer, experts, x);
    var b := BatchIsAsked(c, layer, experts, y);
    var o := Acquire(c, mem, layer, experts, world);
    assert ShowSame(o.mem, o.answer.views[a], o.answer.views[b]);
  }

  predicate AllDifferent(weights: seq<Data>) { forall i, j :: 0 <= i < j < |weights| ==> weights[i] != weights[j] }

  lemma TwoTheSameAreWrong(
    c: Tables, mem: Mem, layer: nat, experts: seq<nat>, views: seq<View>, weights: seq<Data>)
    requires layer < c.layers && AllDifferent(weights) && TwoShowTheSame(mem, experts, views)
    ensures !ViewsAddress(c, mem, layer, experts, views, weights)
  {
    var a, b :| 0 <= a < |experts| && 0 <= b < |experts| && experts[a] != experts[b] &&
      ShowSame(mem, views[a], views[b]);
  }

  /** After a successful request the tables are mutually inverse if and only if no sweep of the request stopped at an
      owner-less slot. If none did, every slot holds its owner's bytes and every view addresses its expert; if one did,
      two experts are answered with the same bytes. So for experts that differ, all views are right if and only if the
      request was clean. */
  lemma RequestKeepsAgreement(c: Tables, mem: Mem, layer: nat, experts: seq<nat>, world: World, weights: seq<Data>)
    requires Sound(c, mem, weights) && HonestRequest(c, mem, layer, experts, world, weights)
    ensures var o := Acquire(c, mem, layer, experts, world);
      o.answer.Views? ==> layer < c.layers && Shape(o.c) && (Inverse(o.c) <==> CleanRequest(c, layer, experts))
    ensures var o := Acquire(c, mem, layer, experts, world);
      o.answer.Views? ==>
        if CleanRequest(c, layer, experts)
        then Sound(o.c, o.mem, weights) && ViewsAddress(c, o.mem, layer, experts, o.answer.views, weights)
        else TwoShowTheSame(o.mem, experts, o.answer.views)
    ensures var o := Acquire(c, mem, layer, experts, world);
      o.answer.Views? && AllDifferent(weights) ==>
        (ViewsAddress(c, o.mem, layer, experts, o.answer.views, weights) <==> CleanRequest(c, layer, experts))
    ensures Acquire(c, mem, layer, experts, world).answer != Crashed
  {
    SoundCannotPanic(c, mem, layer, experts, world, weights);
    var o := Acquire(c, mem, layer, experts, world);
    if o.answer.Views? {
      SuccessIsTheBatch(c, mem, layer, experts, world);
      if CleanRequest(c, layer, experts) {
        CleanRequestKeepsSound(c, mem, layer, experts, world, weights);
      } else {
        UncleanRequestBreaksTables(c, mem, layer, experts, world, weights);
        UncleanRequestShowsTwice(c, mem, layer, experts, world, weights);
        if AllDifferent(weights) { TwoTheSameAreWrong(c, o.mem, layer, experts, o.answer.views, weights); }
      }
    }
  }
}
