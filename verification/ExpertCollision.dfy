/** A request that meets a slot it has already reserved: n RAM slots, no VRAM, and n + 1 cold experts, for every n
    that a request has staging slots for. One slot and two experts are the least, since one miss never meets a hole. */
module ExpertCollision {
  import opened Options
  import opened ExpertTables
  import opened ExpertBatches
  import opened ExpertRequests
  import opened ExpertViews

  // ----- Enough free slots -----

  function ColdCount(c: Tables, ids: seq<nat>): nat
    requires InRange(c, ids)
  {
    if ids == [] then 0
    else ColdCount(c, ids[..|ids| - 1]) + if c.directory[ids[|ids| - 1]] == Cold then 1 else 0
  }

  function FreeCount(c: Tables): nat { |c.vram.free| + |c.ram.free| }

  lemma RamFreeNeedsSlots(c: Tables)
    requires Shape(c)
    ensures |c.ram.owners| == 0 ==> c.ram.free == []
    ensures |c.vram.owners| == 0 ==> c.vram.free == []
  {
    assert c.ram.free == [] || c.ram.free[0] < |c.ram.owners|;
    assert c.vram.free == [] || c.vram.free[0] < |c.vram.owners|;
  }

  // While a slot is free, a miss takes a free one.
  lemma FreeSlotIsTaken(r: Reserved, id: nat)
    requires Shape(r.c) && id < |r.c.directory| && r.ok && r.c.directory[id] == Cold && FreeCount(r.c) > 0
    ensures !SweepMeetsHole(r.c) && ReserveOne(r, id).ok && FreeCount(ReserveOne(r, id).c) == FreeCount(r.c) - 1
    ensures ReserveOne(r, id).c.directory == r.c.directory
  {
    RamFreeNeedsSlots(r.c);
  }

  /** A batch with no more misses than free slots meets no hole. */
  lemma {:induction false} FreeSlotsSuffice(c: Tables, ids: seq<nat>)
    requires Shape(c) && InRange(c, ids) && ColdCount(c, ids) <= FreeCount(c)
    ensures Clean(c, ids)
    ensures var r := ReserveAll(c, ids);
      r.ok && r.c.directory == c.directory && FreeCount(r.c) == FreeCount(c) - ColdCount(c, ids)
  {
    if ids != [] {
      var n := |ids| - 1;
      FreeSlotsSuffice(c, ids[..n]);
      var r := ReserveAll(c, ids[..n]);
      if c.directory[ids[n]] == Cold { FreeSlotIsTaken(r, ids[n]); }
    }
  }

  // ----- One miss too many -----

  function Upto(n: nat): (s: seq<nat>)
    ensures |s| == n && forall i :: 0 <= i < n ==> s[i] == i
  { seq(n, i requires 0 <= i < n => i) }

  lemma UptoPrefix(n: nat, k: nat)
    requires k <= n
    ensures Upto(n)[..k] == Upto(k)
  {}

  // `n` free RAM slots, no VRAM, and `n + 1` cold experts of one layer.
  predicate Tight(c: Tables, n: nat) {
    && Shape(c) && n > 0 && c.layers == 1 && c.perLayer == n + 1 && c.directory == seq(n + 1, _ => Cold)
    && |c.vram.owners| == 0 && c.ram.owners == seq(n, _ => None) && c.ram.hand == 0
    && c.ram.free == seq(n, i requires 0 <= i < n => n - 1 - i)
  }

  lemma {:induction false} PinUpto(c: Tables, n: nat, k: nat)
    requires Tight(c, n) && NonePinned(c) && k <= n + 1
    ensures var p := PinAll(c, 0, Upto(k));
      && p.ok && p.ids == Upto(k) && Tight(p.c, n)
      && forall i :: 0 <= i < |p.c.pinned| ==> (p.c.pinned[i] <==> i < k)
  {
    if k > 0 {
      PinUpto(c, n, k - 1);
      UptoPrefix(k, k - 1);
      assert ExpertId(c, 0, Upto(k)[k - 1]) == k - 1;
      assert Upto(k) == Upto(k - 1) + [k - 1];
    } else {
      assert Upto(0) == [];
    }
  }

  // Without VRAM a miss pops the RAM free list.
  lemma Pops(r: Reserved, id: nat, rest: seq<nat>, s: nat)
    requires Shape(r.c) && id < |r.c.directory| && r.ok && r.c.directory[id] == Cold && |r.c.vram.owners| == 0
    requires r.c.ram.free == rest + [s] && s < |r.c.ram.owners| && r.c.ram.owners[s].None?
    ensures ReserveOne(r, id) ==
      Reserved(r.c.(ram := r.c.ram.(free := rest)), r.misses + [Miss(id, Ram(s), r.stage)], r.stage + 1, true)
  {
    RamFreeNeedsSlots(r.c);
  }

  // With the list empty the clock takes the slot under its hand if nobody owns it.
  lemma StopsAtTheHole(r: Reserved, id: nat)
    requires Shape(r.c) && id < |r.c.directory| && r.ok && r.c.directory[id] == Cold && |r.c.vram.owners| == 0
    requires r.c.ram.free == [] && |r.c.ram.owners| > 0 && r.c.ram.owners[r.c.ram.hand].None?
    ensures SweepMeetsHole(r.c)
    ensures var q := ReserveOne(r, id);
      q.ok && q.misses == r.misses + [Miss(id, Ram(r.c.ram.hand), r.stage)] && q.stage == r.stage + 1
  {
    RamFreeNeedsSlots(r.c);
  }

  function FirstMisses(k: nat): seq<Miss> { seq(k, i requires 0 <= i < k => Miss(i, Ram(i), i + 1)) }

  lemma NextSlotIsTaken(c: Tables, n: nat, k: nat, r: Reserved)
    requires Tight(c, n) && 0 < k <= n && Shape(r.c)
    requires r == Reserved(c.(ram := c.ram.(free := c.ram.free[..n - (k - 1)])), FirstMisses(k - 1), k, true)
    ensures ReserveOne(r, k - 1) ==
      Reserved(c.(ram := c.ram.(free := c.ram.free[..n - k])), FirstMisses(k), k + 1, true)
  {
    assert c.ram.free[..n - (k - 1)] == c.ram.free[..n - k] + [k - 1];
    Pops(r, k - 1, c.ram.free[..n - k], k - 1);
    assert FirstMisses(k) == FirstMisses(k - 1) + [Miss(k - 1, Ram(k - 1), k)];
  }

  // The first `k` misses take slots 0 to k - 1.
  lemma {:induction false} ReserveUpto(c: Tables, n: nat, k: nat)
    requires Tight(c, n) && k <= n && InRange(c, Upto(k))
    ensures ReserveAll(c, Upto(k)) ==
      Reserved(c.(ram := c.ram.(free := c.ram.free[..n - k])), FirstMisses(k), k + 1, true)
  {
    if k > 0 {
      ReserveUpto(c, n, k - 1);
      UptoPrefix(k, k - 1);
      NextSlotIsTaken(c, n, k, ReserveAll(c, Upto(k - 1)));
      assert ReserveAll(c, Upto(k)) == ReserveOne(ReserveAll(c, Upto(k - 1)), Upto(k)[k - 1]);
    } else {
      assert Upto(0) == [] && c.ram.free[..n] == c.ram.free && FirstMisses(0) == [];
    }
  }

  // The last miss is given slot 0 again.
  lemma ReserveTooMany(c: Tables, n: nat)
    requires Tight(c, n) && InRange(c, Upto(n + 1))
    ensures var r := ReserveAll(c, Upto(n + 1));
      && !Clean(c, Upto(n + 1)) && r.ok && r.misses == FirstMisses(n) + [Miss(n, Ram(0), n + 1)] && r.stage == n + 2
  {
    UptoPrefix(n + 1, n);
    ReserveUpto(c, n, n);
    StopsAtTheHole(ReserveAll(c, Upto(n)), n);
  }

  // ----- The request -----

  // Experts with a view are not served again.
  lemma {:induction false} ServeNobody(w: Work, ids: seq<nat>, dma: nat -> bool)
    requires WorkShape(w) && InRange(w.c, ids) && forall i :: 0 <= i < |ids| ==> ids[i] in w.views
    ensures ServeAll(w, ids, dma) == w
  {
    if ids != [] { ServeNobody(w, ids[..|ids| - 1], dma); }
  }

  lemma BatchShowsTheSameBytes(c: Tables, n: nat, mem: Mem, world: World)
    requires Tight(c, n) && n + 1 < StagingSlots && InRange(c, Upto(n + 1))
    requires MemShape(c, mem) && MemShape(c, world.after) && world.readOk
    ensures var w := AcquirePinned(c, mem, Upto(n + 1), world);
      w.status == Going && (forall i :: 0 <= i <= n ==> i in w.views) && ShowSame(w.mem, w.views[0], w.views[n])
  {
    var ids := Upto(n + 1);
    ReserveTooMany(c, n);
    ReservationsFit(c, ids);
    var r := ReserveAll(c, ids);
    var w := Work(r.c, world.after, map[], r.stage, Going);
    forall k | 0 <= k < |r.misses| ensures MissFits(w, r.misses[k]) { assert MissFitsTables(r.c, r.misses[k]); }
    ServeTooMany(w, n, r.misses, world.dma);
  }

  lemma ServeTooMany(w: Work, n: nat, misses: seq<Miss>, dma: nat -> bool)
    requires WorkShape(w) && AllFit(w, misses) && n > 0 && misses == FirstMisses(n) + [Miss(n, Ram(0), n + 1)]
    requires w.stage == n + 2 && w.status == Going && InRange(w.c, Upto(n + 1))
    ensures var q := ServeAll(BindAll(w, misses), Upto(n + 1), dma);
      q.status == Going && (forall i :: 0 <= i <= n ==> i in q.views) && ShowSame(q.mem, q.views[0], q.views[n])
  {
    BindTooMany(w, n, misses);
    SharedSlotShowsTwice(w, misses, Upto(n + 1), dma, 0, n);
    ServeNobody(BindAll(w, misses), Upto(n + 1), dma);
  }

  lemma BindTooMany(w: Work, n: nat, misses: seq<Miss>)
    requires WorkShape(w) && AllFit(w, misses) && n > 0 && misses == FirstMisses(n) + [Miss(n, Ram(0), n + 1)]
    requires w.stage == n + 2
    ensures DistinctIds(misses) && StagesRise(misses, w.stage) && misses[0].id == 0 && misses[n].id == n
    ensures misses[0].place == misses[n].place == Ram(0) && forall i :: 0 <= i <= n ==> i in BindAll(w, misses).views
  {
    BindAllBindsOnly(w, misses);
    forall i | 0 <= i <= n ensures i in BindAll(w, misses).views {
      assert misses[i].id == i;
    }
  }

  // In layer 0 the answer lists the views of the pinned batch.
  lemma AnswersFromViews(c: Tables, mem: Mem, experts: seq<nat>, world: World)
    requires Shape(c) && MemShape(c, mem) && MemShape(c, world.after) && c.layers > 0
    requires var p := PinAll(c, 0, experts);
      && p.ok && |p.ids| < StagingSlots
      && var w := AcquirePinned(p.c, mem, p.ids, world);
      && w.status == Going && forall i :: 0 <= i < |experts| ==> experts[i] in w.views
    ensures var o := Acquire(c, mem, 0, experts, world);
      var p := PinAll(c, 0, experts);
      var w := AcquirePinned(p.c, mem, p.ids, world);
      && o.mem == w.mem && o.answer.Views? && |o.answer.views| == |experts|
      && forall i :: 0 <= i < |experts| ==> o.answer.views[i] == w.views[experts[i]]
  {
    assert forall i :: 0 <= i < |experts| ==> experts[i] < c.perLayer && ExpertId(c, 0, experts[i]) == experts[i];
  }

  /** With n RAM slots, no VRAM and n + 1 cold experts the last miss is given the first one's slot: the request
      succeeds, its tables disagree, and the views of the first and the last expert show the same bytes. */
  lemma OneMissTooMany(n: nat, c: Tables, mem: Mem, world: World, weights: seq<Data>)
    requires 1 <= n && n + 1 < StagingSlots && c == NewTables(1, n + 1, 0, n) && |weights| == n + 1
    requires MemShape(c, mem) && HonestRequest(c, mem, 0, Upto(n + 1), world, weights) && world.readOk
    ensures !CleanRequest(c, 0, Upto(n + 1))
    ensures var o := Acquire(c, mem, 0, Upto(n + 1), world);
      && o.answer.Views? && Shape(o.c) && !Inverse(o.c) && |o.answer.views| == n + 1
      && ShowSame(o.mem, o.answer.views[0], o.answer.views[n])
  {
    NewIsTight(n);
    NewIsSound(1, n + 1, 0, n, mem, weights);
    TightCollides(n, c, mem, world, weights);
  }

  lemma TightCollides(n: nat, c: Tables, mem: Mem, world: World, weights: seq<Data>)
    requires Tight(c, n) && n + 1 < StagingSlots && Sound(c, mem, weights)
    requires MemShape(c, world.after) && world.readOk
    ensures !CleanRequest(c, 0, Upto(n + 1))
    ensures var o := Acquire(c, mem, 0, Upto(n + 1), world);
      && o.answer.Views? && Shape(o.c) && !Inverse(o.c) && |o.answer.views| == n + 1
      && ShowSame(o.mem, o.answer.views[0], o.answer.views[n])
  {
    CollisionIsUnclean(c, n);
    CollisionShows(c, n, mem, world);
    UncleanRequestBreaksTables(c, mem, 0, Upto(n + 1), world, weights);
  }

  lemma NewIsTight(n: nat)
    requires n > 0
    ensures Tight(NewTables(1, n + 1, 0, n), n) && NonePinned(NewTables(1, n + 1, 0, n))
  {}

  lemma CollisionIsUnclean(c: Tables, n: nat)
    requires Tight(c, n) && NonePinned(c)
    ensures !CleanRequest(c, 0, Upto(n + 1))
  {
    PinUpto(c, n, n + 1);
    ReserveTooMany(PinAll(c, 0, Upto(n + 1)).c, n);
  }

  lemma CollisionShows(c: Tables, n: nat, mem: Mem, world: World)
    requires Tight(c, n) && NonePinned(c) && n + 1 < StagingSlots
    requires MemShape(c, mem) && MemShape(c, world.after) && world.readOk
    ensures var o := Acquire(c, mem, 0, Upto(n + 1), world);
      o.answer.Views? && |o.answer.views| == n + 1 && ShowSame(o.mem, o.answer.views[0], o.answer.views[n])
  {
    PinUpto(c, n, n + 1);
    BatchShowsTheSameBytes(PinAll(c, 0, Upto(n + 1)).c, n, mem, world);
    AnswersFromViews(c, mem, Upto(n + 1), world);
  }
}
