/** A run in which a failed read makes a later request panic: one expert, one VRAM slot and one RAM slot. */
module ExpertHoleRun {
  import opened Options
  import opened ExpertTables
  import opened ExpertRequests
  import opened ExpertPanics
  import opened ExpertRuns

  // ----- The panic itself -----

  /** With an owner-less slot under the VRAM hand and no free VRAM slot, the second hit of an expert in RAM panics. */
  lemma HoleUnderTheHandPanics(w: Work, id: nat, r: nat, dma: bool)
    requires WorkShape(w) && w.status == Going && id < |w.c.directory| && id !in w.views && w.c.directory[id] == Ram(r)
    requires w.c.hits[r] + 1 >= PromoteMinHits && w.c.vram.free == [] && |w.c.vram.owners| > 0
    requires w.c.vram.owners[w.c.vram.hand].None?
    ensures HuntMeetsHole(w, id) && ServeOne(w, id, dma).status == Panicked
  {
    var t := Touch(w, r);
    assert t.c.hits[r] >= PromoteMinHits;
    assert HuntMeetsHole(w, id);
  }

  // ----- The smallest cache -----

  // One expert, one slot in each tier, nothing pinned; the VRAM slot is neither owned nor free.
  predicate Tiny(c: Tables) {
    && Shape(c) && c.layers == 1 && c.perLayer == 1 && |c.ram.owners| == 1 && |c.vram.owners| == 1
    && c.pinned == [false]
  }

  predicate Hollow(c: Tables) { Tiny(c) && c.vram.free == [] && c.vram.owners == [None] }

  predicate ColdHollow(c: Tables) { Hollow(c) && c.directory == [Cold] && c.ram.free == [0] && c.ram.owners == [None] }

  predicate WarmHollow(c: Tables, hits: nat) { Hollow(c) && c.directory == [Ram(0)] && c.hits == [hits] }

  lemma PinTheOne(c: Tables, experts: seq<nat>)
    requires Tiny(c) && experts == [0]
    ensures var p := PinAll(c, 0, experts);
      p.ok && p.ids == [0] && p.c == c.(counts := p.c.counts, pinned := [true]) && Unpin(p.c, p.ids).pinned == [false]
  {
    assert experts[..0] == [];
    assert PinAll(c, 0, experts[..0]) == Pins(c, [], true);
    assert ExpertId(c, 0, experts[0]) == 0;
  }

  lemma ReserveTheOne(c: Tables, ids: seq<nat>)
    requires Shape(c) && ids == [0] && |c.directory| == 1
    ensures ReserveAll(c, ids) == ReserveOne(Reserved(c, [], 1, true), 0)
  {
    assert ids[..0] == [];
    assert ReserveAll(c, ids[..0]) == Reserved(c, [], 1, true);
  }

  lemma ServeTheOne(w: Work, ids: seq<nat>, dma: nat -> bool)
    requires WorkShape(w) && ids == [0] && |w.c.directory| == 1
    ensures ServeAll(w, ids, dma) == ServeOne(w, 0, dma(0))
  {
    assert ids[..0] == [];
    assert ServeAll(w, ids[..0], dma) == w;
  }

  // The read of the first request fails: its VRAM slot is lost.
  lemma FailedReadHollows(c: Tables, mem: Mem, experts: seq<nat>, world: World)
    requires c == NewTables(1, 1, 1, 1) && MemShape(c, mem) && MemShape(c, world.after) && experts == [0]
    requires !world.readOk
    ensures var o := Acquire(c, mem, 0, experts, world);
      o.answer == Refused && ColdHollow(o.c)
  {
    PinTheOne(c, experts);
    var p := PinAll(c, 0, experts);
    ReserveTheOne(p.c, p.ids);
    assert p.c.vram.free == [0] && p.c.directory == [Cold];
  }

  // The second request reads the expert into RAM.
  lemma ColdRequestWarms(c: Tables, mem: Mem, experts: seq<nat>, world: World)
    requires ColdHollow(c) && MemShape(c, mem) && MemShape(c, world.after) && experts == [0] && world.readOk
    ensures var o := Acquire(c, mem, 0, experts, world);
      o.answer.Views? && WarmHollow(o.c, 0)
  {
    PinTheOne(c, experts);
    var p := PinAll(c, 0, experts);
    ReserveTheOne(p.c, p.ids);
    var r := ReserveAll(p.c, p.ids);
    assert r == Reserved(p.c.(ram := p.c.ram.(free := [])), [Miss(0, Ram(0), 1)], 2, true);
    var w := Work(r.c, world.after, map[], 2, Going);
    var b := BindOne(w, r.misses[0]);
    assert r.misses[1..] == [];
    assert BindAll(w, r.misses) == b;
    ServeTheOne(b, p.ids, world.dma);
    assert AcquirePinned(p.c, mem, p.ids, world) == b;
    assert ExpertId(c, 0, experts[0]) == 0;
  }

  lemma WarmBatch(c: Tables, mem: Mem, experts: seq<nat>, world: World, hits: nat)
    requires WarmHollow(c, hits) && MemShape(c, mem) && MemShape(c, world.after) && experts == [0]
    ensures var p := PinAll(c, 0, experts);
      p.ids == [0] && AcquirePinned(p.c, mem, p.ids, world) ==
        ServeOne(Work(p.c, mem, map[], 1, Going), 0, world.dma(0))
  {
    PinTheOne(c, experts);
    var p := PinAll(c, 0, experts);
    ReserveTheOne(p.c, p.ids);
    ServeTheOne(Work(p.c, mem, map[], 1, Going), p.ids, world.dma);
  }

  // The third request hits it once.
  lemma FirstHitStages(c: Tables, mem: Mem, experts: seq<nat>, world: World)
    requires WarmHollow(c, 0) && MemShape(c, mem) && MemShape(c, world.after) && experts == [0]
    ensures var o := Acquire(c, mem, 0, experts, world);
      o.answer.Views? && WarmHollow(o.c, 1)
  {
    PinTheOne(c, experts);
    WarmBatch(c, mem, experts, world, 0);
    var p := PinAll(c, 0, experts);
    var w := Work(p.c, mem, map[], 1, Going);
    assert Touch(w, 0).c.hits == [1];
    assert ExpertId(c, 0, experts[0]) == 0;
  }

  // The fourth request hits it again, and the victim search stops at the lost slot.
  lemma SecondHitPanics(c: Tables, mem: Mem, experts: seq<nat>, world: World)
    requires WarmHollow(c, 1) && MemShape(c, mem) && MemShape(c, world.after) && experts == [0]
    ensures Acquire(c, mem, 0, experts, world).answer == Crashed
  {
    PinTheOne(c, experts);
    WarmBatch(c, mem, experts, world, 1);
    var p := PinAll(c, 0, experts);
    HoleUnderTheHandPanics(Work(p.c, mem, map[], 1, Going), 0, 0, world.dma(0));
  }

  // Requests for the one expert.
  predicate ForTheOne(c: Tables, requests: seq<Request>) {
    AllSized(c, requests) && forall i :: 0 <= i < |requests| ==> requests[i].layer == 0 && requests[i].experts == [0]
  }

  lemma TwoHits(c: Tables, mem: Mem, requests: seq<Request>)
    requires WarmHollow(c, 0) && MemShape(c, mem) && |requests| == 2 && ForTheOne(c, requests)
    ensures Play(c, mem, requests[..1]).answer.Views? && Play(c, mem, requests[..2]).answer == Crashed
  {
    var o := Acquire(c, mem, 0, requests[0].experts, requests[0].world);
    FirstHitStages(c, mem, requests[0].experts, requests[0].world);
    PlayFirst(c, mem, requests);
    PlayOn(c, mem, requests, 2);
    PlayFirst(o.c, o.mem, requests[1..]);
    SecondHitPanics(o.c, o.mem, requests[1].experts, requests[1].world);
  }

  lemma ThreeMore(c: Tables, mem: Mem, requests: seq<Request>)
    requires ColdHollow(c) && MemShape(c, mem) && |requests| == 3 && ForTheOne(c, requests) && requests[0].world.readOk
    ensures Play(c, mem, requests[..1]).answer.Views? && Play(c, mem, requests[..2]).answer.Views?
    ensures Play(c, mem, requests[..3]).answer == Crashed
  {
    var o := Acquire(c, mem, 0, requests[0].experts, requests[0].world);
    ColdRequestWarms(c, mem, requests[0].experts, requests[0].world);
    PlayFirst(c, mem, requests);
    PlayOn(c, mem, requests, 2);
    PlayOn(c, mem, requests, 3);
    TwoHits(o.c, o.mem, requests[1..]);
  }

  /** From an empty cache: a request whose read fails, then three requests for the same expert in which nothing fails.
      The first two succeed and the third panics. */
  lemma FailedReadLeadsToPanic(c: Tables, mem: Mem, requests: seq<Request>)
    requires c == NewTables(1, 1, 1, 1) && MemShape(c, mem) && |requests| == 4 && ForTheOne(c, requests)
    requires !requests[0].world.readOk && requests[1].world.readOk
    ensures Play(c, mem, requests[..1]).answer == Refused && Play(c, mem, requests[..2]).answer.Views?
    ensures Play(c, mem, requests[..3]).answer.Views? && Play(c, mem, requests[..4]).answer == Crashed
  {
    var o := Acquire(c, mem, 0, requests[0].experts, requests[0].world);
    FailedReadHollows(c, mem, requests[0].experts, requests[0].world);
    PlayFirst(c, mem, requests);
    PlayOn(c, mem, requests, 2);
    PlayOn(c, mem, requests, 3);
    PlayOn(c, mem, requests, 4);
    ThreeMore(o.c, o.mem, requests[1..]);
  }
}
