/** A view's source tells where its expert was when the request came. */
module ExpertSources {
  import opened ExpertTables
  import opened ExpertBatches
  import opened ExpertContents
  import opened ExpertRequests

  datatype Origin = FromDrive | FromRam | FromVram

  function Told(s: Source): Origin {
    match s
    case ColdToVram => FromDrive
    case ColdToRamAndHost => FromDrive
    case ColdStagedToHost => FromDrive
    case VramHit => FromVram
    case RamPromotedToVram => FromRam
    case RamSwappedToVram => FromRam
    case RamStagedToHost => FromRam
  }

  function OriginOf(p: Place): Origin {
    match p
    case Cold => FromDrive
    case Ram(_) => FromRam
    case Vram(_) => FromVram
  }

  lemma {:induction false} BoundViewsAreFromTheDrive(w: Work, rest: seq<Miss>, id: nat)
    requires WorkShape(w) && AllFit(w, rest) && id in BindAll(w, rest).views
    requires id in w.views ==> Told(w.views[id].source) == FromDrive
    ensures Told(BindAll(w, rest).views[id].source) == FromDrive
    decreases |rest|
  {
    if rest != [] { BoundViewsAreFromTheDrive(BindOne(w, rest[0]), rest[1..], id); }
  }

  lemma ServedViewTells(w: Work, id: nat, dma: bool)
    requires WorkShape(w) && id < |w.c.directory| && id !in w.views && id in ServeOne(w, id, dma).views
    ensures Told(ServeOne(w, id, dma).views[id].source) == OriginOf(w.c.directory[id])
  {}

  lemma OtherViewsStay(w: Work, id: nat, dma: bool, other: nat)
    requires WorkShape(w) && id < |w.c.directory| && other != id
    ensures var q := ServeOne(w, id, dma);
      (other in q.views <==> other in w.views) && (other in w.views ==> q.views[other] == w.views[other])
  {}

  // A pinned expert keeps its place until it is served, and its view once it has one.
  ghost predicate Tells(w: Work, q: Work, id: nat) {
    && id < |w.c.directory| == |q.c.directory| && q.c.pinned == w.c.pinned
    && (id !in q.views ==> id !in w.views && q.c.directory[id] == w.c.directory[id])
    && (id in q.views ==>
        if id in w.views then q.views[id] == w.views[id] else Told(q.views[id].source) == OriginOf(w.c.directory[id]))
  }

  lemma OneMoreTells(w: Work, q: Work, next: nat, dma: bool, id: nat)
    requires WorkShape(q) && next < |q.c.directory| && Tells(w, q, id) && id < |q.c.pinned| && q.c.pinned[id]
    requires q.status == Going
    requires next == id && id !in q.views ==> ServeOne(q, next, dma).status == Going
    ensures Tells(w, ServeOne(q, next, dma), id)
  {
    OthersStayPut(q, next, dma);
    if next != id {
      OtherViewsStay(q, next, dma, id);
    } else if id !in q.views && id in ServeOne(q, next, dma).views {
      ServedViewTells(q, id, dma);
    }
    ServedHasView(q, next, dma);
  }

  lemma ServedHasView(w: Work, id: nat, dma: bool)
    requires WorkShape(w) && id < |w.c.directory| && w.status == Going
    ensures ServeOne(w, id, dma).status == Going ==> id in ServeOne(w, id, dma).views
  {}

  lemma {:induction false} ServedViewsTell(w: Work, ids: seq<nat>, dma: nat -> bool, id: nat)
    requires WorkShape(w) && InRange(w.c, ids) && id < |w.c.directory| && w.c.pinned[id] && w.status == Going
    ensures ServeAll(w, ids, dma).status == Going ==> Tells(w, ServeAll(w, ids, dma), id)
  {
    if ids != [] && ServeAll(w, ids, dma).status == Going {
      var n := |ids| - 1;
      ServedViewsTell(w, ids[..n], dma, id);
      var q := ServeAll(w, ids[..n], dma);
      OneMoreTells(w, q, ids[n], dma(ids[n]), id);
    }
  }

  lemma BatchTells(c: Tables, mem: Mem, ids: seq<nat>, world: World, id: nat)
    requires Shape(c) && MemShape(c, mem) && MemShape(c, world.after) && InRange(c, ids) && |ids| < StagingSlots
    requires Ready(c, ids) && id in ids
    ensures var w := AcquirePinned(c, mem, ids, world);
      w.status == Going && id in w.views ==> Told(w.views[id].source) == OriginOf(c.directory[id])
  {
    var w := AcquirePinned(c, mem, ids, world);
    if w.status == Going && id in w.views {
      var r := ReserveAll(c, ids);
      ReserveKeepsInv(c, ids);
      ReservationsFit(c, ids);
      var start := Work(r.c, if r.misses == [] then mem else world.after, map[], r.stage, Going);
      forall k | 0 <= k < |r.misses| ensures MissFits(start, r.misses[k]) { assert MissFitsTables(r.c, r.misses[k]); }
      var b := BindAll(start, r.misses);
      BindAllBindsOnly(start, r.misses);
      var k :| 0 <= k < |ids| && ids[k] == id;
      assert HasMiss(r.misses, ids[k]) <==> c.directory[id] == Cold;
      if id in b.views { BoundViewsAreFromTheDrive(start, r.misses, id); }
      ServedViewsTell(b, ids, world.dma, id);
    }
  }

  lemma ExpertIsInTheBatch(c: Tables, layer: nat, experts: seq<nat>, k: nat)
    requires Shape(c) && layer < c.layers && NonePinned(c) && PinAll(c, layer, experts).ok && k < |experts|
    ensures ExpertId(c, layer, experts[k]) in PinAll(c, layer, experts).ids
  {
    PinsAreTheBatch(c, layer, experts);
  }

  // Where the views of a successful request come from.
  lemma AnswerIsFromTheBatch(c: Tables, mem: Mem, layer: nat, experts: seq<nat>, world: World, k: nat)
    requires Shape(c) && MemShape(c, mem) && MemShape(c, world.after) && k < |experts|
    requires Acquire(c, mem, layer, experts, world).answer.Views?
    ensures layer < c.layers && PinAll(c, layer, experts).ok && experts[k] < c.perLayer
    ensures |PinAll(c, layer, experts).ids| < StagingSlots
    ensures var p := PinAll(c, layer, experts);
      var w := AcquirePinned(p.c, mem, p.ids, world);
      var views := Acquire(c, mem, layer, experts, world).answer.views;
      var id := ExpertId(c, layer, experts[k]);
      w.status == Going && id in w.views && |views| == |experts| && views[k] == w.views[id]
  {}

  /** Every view of a successful request says truly whether its expert came from the drive, from RAM or from VRAM. */
  lemma SourcesAreTrue(c: Tables, mem: Mem, layer: nat, experts: seq<nat>, world: World, weights: seq<Data>, k: nat)
    requires Sound(c, mem, weights) && MemShape(c, world.after) && Acquire(c, mem, layer, experts, world).answer.Views?
    requires k < |experts|
    ensures layer < c.layers && experts[k] < c.perLayer
    ensures var views := Acquire(c, mem, layer, experts, world).answer.views;
      |views| == |experts| && Told(views[k].source) == OriginOf(c.directory[ExpertId(c, layer, experts[k])])
  {
    AnswerIsFromTheBatch(c, mem, layer, experts, world, k);
    var p := PinAll(c, layer, experts);
    PinnedIsReady(c, mem, weights, layer, experts);
    ExpertIsInTheBatch(c, layer, experts, k);
    BatchTells(p.c, mem, p.ids, world, ExpertId(c, layer, experts[k]));
  }
}
