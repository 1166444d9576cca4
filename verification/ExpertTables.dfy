/** The tables of the two-tier routed-expert cache, and what one batch of requests does to them and to the slots. */
module ExpertTables {
  import opened Options

  const StagingSlots: nat := 17
  const PromoteMinHits: nat := 2

  datatype Place = Cold | Ram(slot: nat) | Vram(slot: nat)

  // One tier: who owns each slot, the clock's reference bits and hand, and the stack of free slots.
  datatype Tier = Tier(owners: seq<Option<nat>>, ref: seq<bool>, free: seq<nat>, hand: nat)

  datatype Tables = Tables(
    layers: nat, perLayer: nat,
    directory: seq<Place>, counts: seq<nat>, pinned: seq<bool>,
    vram: Tier, ram: Tier, hits: seq<nat>)

  predicate TierShape(t: Tier, experts: nat) {
    && |t.ref| == |t.owners| && (t.hand < |t.owners| || |t.owners| == 0)
    && (forall s :: 0 <= s < |t.owners| && t.owners[s].Some? ==> t.owners[s].value < experts)
    && (forall i :: 0 <= i < |t.free| ==> t.free[i] < |t.owners|)
  }

  predicate HasSlot(c: Tables, p: Place) {
    match p
    case Cold => false
    case Ram(s) => s < |c.ram.owners|
    case Vram(s) => s < |c.vram.owners|
  }

  // Indices are in range.
  predicate Shape(c: Tables) {
    && |c.directory| == |c.counts| == |c.pinned| == c.layers * c.perLayer
    && TierShape(c.vram, |c.directory|) && TierShape(c.ram, |c.directory|) && |c.hits| == |c.ram.owners|
    && forall id :: 0 <= id < |c.directory| && c.directory[id] != Cold ==> HasSlot(c, c.directory[id])
  }

  // Serving a batch changes neither sizes nor pins.
  predicate SameFrame(c: Tables, d: Tables) {
    && d.pinned == c.pinned && d.layers == c.layers && d.perLayer == c.perLayer && |d.directory| == |c.directory|
    && |d.vram.owners| == |c.vram.owners| && |d.ram.owners| == |c.ram.owners|
  }

  function Owner(c: Tables, p: Place): Option<nat>
    requires HasSlot(c, p)
  { if p.Ram? then c.ram.owners[p.slot] else c.vram.owners[p.slot] }

  // ----- The clock -----

  datatype Swept = Swept(tier: Tier, directory: seq<Place>, slot: Option<nat>)

  function Advance(t: Tier): Tier
    requires |t.owners| > 0
  { t.(hand := (t.hand + 1) % |t.owners|) }

  // Up to `steps` probes. An owner-less slot is taken as it is; an unpinned owner met with its bit clear is evicted.
  function Sweep(t: Tier, directory: seq<Place>, pinned: seq<bool>, steps: nat): (r: Swept)
    requires TierShape(t, |directory|) && |t.owners| > 0 && |pinned| == |directory|
    ensures TierShape(r.tier, |directory|) && r.tier.free == t.free && |r.directory| == |directory|
    ensures r.slot.None? ==> r.tier.owners == t.owners && r.directory == directory
    ensures r.slot.Some? ==> r.slot.value < |t.owners| && r.tier.owners == t.owners[r.slot.value := None]
    ensures r.slot.Some? && t.owners[r.slot.value].None? ==> r.directory == directory
    ensures r.slot.Some? && t.owners[r.slot.value].Some? ==>
      !pinned[t.owners[r.slot.value].value] && r.directory == directory[t.owners[r.slot.value].value := Cold]
    decreases steps
  {
    if steps == 0 then Swept(t, directory, None)
    else
      var s, next := t.hand, Advance(t);
      if t.owners[s].None? then Swept(next, directory, Some(s))
      else
        var owner := t.owners[s].value;
        if pinned[owner] then Sweep(next, directory, pinned, steps - 1)
        else if t.ref[s] then Sweep(next.(ref := t.ref[s := false]), directory, pinned, steps - 1)
        else Swept(next.(owners := t.owners[s := None]), directory[owner := Cold], Some(s))
  }

  // A free slot, or else a swept one.
  function Take(t: Tier, directory: seq<Place>, pinned: seq<bool>): (r: Swept)
    requires TierShape(t, |directory|) && |t.owners| > 0 && |pinned| == |directory|
    ensures TierShape(r.tier, |directory|) && |r.tier.owners| == |t.owners| && |r.directory| == |directory|
    ensures r.slot.Some? ==> r.slot.value < |t.owners|
    ensures forall i :: 0 <= i < |directory| ==> r.directory[i] == directory[i] || r.directory[i] == Cold
    ensures t.free != [] ==>
      r.slot.Some? && t.free == r.tier.free + [r.slot.value] && r.tier.owners == t.owners && r.directory == directory
    ensures t.free == [] ==> r == Sweep(t, directory, pinned, 2 * |t.owners| + 1)
  {
    if t.free != [] then
      var n := |t.free| - 1;
      Swept(t.(free := t.free[..n]), directory, Some(t.free[n]))
    else Sweep(t, directory, pinned, 2 * |t.owners| + 1)
  }

  // A VRAM victim that the hot expert outscores, within `steps` probes.
  function Seek(t: Tier, pinned: seq<bool>, counts: seq<nat>, score: nat, steps: nat): (r: (Tier, Option<nat>))
    requires TierShape(t, |pinned|) && |t.owners| > 0 && |pinned| == |counts|
    ensures TierShape(r.0, |pinned|) && r.0.owners == t.owners && r.0.free == t.free
    ensures r.1.Some? ==> r.1.value < |t.owners|
    ensures r.1.Some? && t.owners[r.1.value].Some? ==>
      !pinned[t.owners[r.1.value].value] && counts[t.owners[r.1.value].value] < score
    decreases steps
  {
    if steps == 0 then (t, None)
    else
      var s, next := t.hand, Advance(t);
      if t.owners[s].None? then (next, Some(s))
      else
        var owner := t.owners[s].value;
        if pinned[owner] then Seek(next, pinned, counts, score, steps - 1)
        else if t.ref[s] then Seek(next.(ref := t.ref[s := false]), pinned, counts, score, steps - 1)
        else if score > counts[owner] then (next, Some(s))
        else Seek(next, pinned, counts, score, steps - 1)
  }

  // ----- Phase 1: slots for the cold misses -----

  // A miss and where its bytes go: a slot or none (`Cold`), and a staging slot that is used unless the expert lands in
  // VRAM.
  datatype Miss = Miss(id: nat, place: Place, stage: nat)

  datatype Reserved = Reserved(c: Tables, misses: seq<Miss>, stage: nat, ok: bool)

  predicate UsesVram(c: Tables) { c.vram.free != [] || (|c.ram.owners| == 0 && |c.vram.owners| > 0) }
  predicate UsesRam(c: Tables) { !UsesVram(c) && |c.ram.owners| > 0 }

  function ReserveOne(r: Reserved, id: nat): (q: Reserved)
    requires Shape(r.c) && id < |r.c.directory|
  {
    if !r.ok || r.c.directory[id] != Cold then r
    else if UsesVram(r.c) then
      assert |r.c.vram.owners| > 0 by { if r.c.vram.free != [] { assert r.c.vram.free[0] < |r.c.vram.owners|; } }
      var w := Take(r.c.vram, r.c.directory, r.c.pinned);
      var c := r.c.(vram := w.tier, directory := w.directory);
      if w.slot.None? then Reserved(c, r.misses, r.stage, false)
      else Reserved(c, r.misses + [Miss(id, Vram(w.slot.value), r.stage)], r.stage, true)
    else if UsesRam(r.c) then
      var w := Take(r.c.ram, r.c.directory, r.c.pinned);
      var c := r.c.(ram := w.tier, directory := w.directory);
      if w.slot.None? then Reserved(c, r.misses, r.stage, false)
      else
        var hits := if r.c.ram.free == [] && r.c.ram.owners[w.slot.value].Some? then c.hits[w.slot.value := 0]
          else c.hits;
        Reserved(c.(hits := hits), r.misses + [Miss(id, Ram(w.slot.value), r.stage)], r.stage + 1, true)
    else Reserved(r.c, r.misses + [Miss(id, Cold, r.stage)], r.stage + 1, true)
  }

  // The sweep for the next miss would stop at a slot that nobody owns.
  predicate SweepMeetsHole(c: Tables)
    requires Shape(c)
  {
    if UsesVram(c) then c.vram.free == [] && MeetsHole(c.vram, c.directory, c.pinned)
    else UsesRam(c) && c.ram.free == [] && MeetsHole(c.ram, c.directory, c.pinned)
  }

  predicate MeetsHole(t: Tier, directory: seq<Place>, pinned: seq<bool>)
    requires TierShape(t, |directory|) && |t.owners| > 0 && |pinned| == |directory|
  {
    var w := Sweep(t, directory, pinned, 2 * |t.owners| + 1);
    w.slot.Some? && t.owners[w.slot.value].None?
  }

  function ReserveAll(c: Tables, ids: seq<nat>): (r: Reserved)
    requires Shape(c) && forall i :: 0 <= i < |ids| ==> ids[i] < |c.directory|
    ensures Shape(r.c) && SameFrame(c, r.c)
  {
    if ids == [] then Reserved(c, [], 1, true)
    else
      var n := |ids| - 1;
      var r := ReserveAll(c, ids[..n]);
      ReserveKeepsShape(r, ids[n]);
      ReserveOne(r, ids[n])
  }

  // No sweep of the batch stops at a slot that nobody owns.
  predicate Clean(c: Tables, ids: seq<nat>)
    requires Shape(c) && forall i :: 0 <= i < |ids| ==> ids[i] < |c.directory|
  {
    ids == [] ||
    var n := |ids| - 1;
    var r := ReserveAll(c, ids[..n]);
    Clean(c, ids[..n]) && !(r.ok && r.c.directory[ids[n]] == Cold && SweepMeetsHole(r.c))
  }

  lemma ReserveKeepsShape(r: Reserved, id: nat)
    requires Shape(r.c) && id < |r.c.directory|
    ensures Shape(ReserveOne(r, id).c) && SameFrame(r.c, ReserveOne(r, id).c)
  {
    var q := ReserveOne(r, id);
    assert forall i :: 0 <= i < |r.c.directory| ==> q.c.directory[i] == r.c.directory[i] || q.c.directory[i] == Cold;
  }

  // ----- Slots -----

  type Data = seq<nat>
  datatype Loc = InVram(slot: nat) | InRam(slot: nat) | InHost(slot: nat)
  datatype Mem = Mem(vram: seq<Data>, ram: seq<Data>, host: seq<Data>)

  predicate HasLoc(mem: Mem, loc: Loc) {
    match loc
    case InVram(s) => s < |mem.vram|
    case InRam(s) => s < |mem.ram|
    case InHost(s) => s < |mem.host|
  }

  function Get(mem: Mem, loc: Loc): Data
    requires HasLoc(mem, loc)
  {
    match loc
    case InVram(s) => mem.vram[s]
    case InRam(s) => mem.ram[s]
    case InHost(s) => mem.host[s]
  }

  predicate MemShape(c: Tables, mem: Mem) {
    |mem.vram| == |c.vram.owners| && |mem.ram| == |c.ram.owners| && |mem.host| == StagingSlots
  }

  function LocOf(p: Place): Loc
    requires p != Cold
  { if p.Ram? then InRam(p.slot) else InVram(p.slot) }

  function Dest(m: Miss): Loc { if m.place == Cold then InHost(m.stage) else LocOf(m.place) }

  // What a successful read of the misses does: a slot that one miss alone goes to holds that expert, and no other slot
  // changes.
  ghost predicate ReadsInto(before: Mem, after: Mem, misses: seq<Miss>, weights: seq<Data>) {
    && |after.vram| == |before.vram| && |after.ram| == |before.ram| && |after.host| == |before.host|
    && (forall loc :: HasLoc(before, loc) && !Targeted(misses, loc) ==> Get(after, loc) == Get(before, loc))
    && (forall i :: 0 <= i < |misses| && Alone(misses, i) ==> Arrives(after, misses[i], weights))
  }

  predicate Arrives(after: Mem, m: Miss, weights: seq<Data>) {
    HasLoc(after, Dest(m)) && m.id < |weights| ==> Get(after, Dest(m)) == weights[m.id]
  }

  predicate Targeted(misses: seq<Miss>, loc: Loc) { exists i :: 0 <= i < |misses| && Dest(misses[i]) == loc }

  predicate Alone(misses: seq<Miss>, i: nat)
    requires i < |misses|
  { forall j :: 0 <= j < |misses| && j != i ==> Dest(misses[j]) != Dest(misses[i]) }

  // ----- Binding and phase 2 -----

  datatype Source =
    | ColdToVram
    | ColdToRamAndHost
    | ColdStagedToHost
    | VramHit
    | RamPromotedToVram
    | RamSwappedToVram
    | RamStagedToHost
  datatype View = View(at: Loc, source: Source)
  datatype Status = Going | Failed | Panicked
  datatype Work = Work(c: Tables, mem: Mem, views: map<nat, View>, stage: nat, status: Status)

  function Bind(c: Tables, p: Place, id: nat): (r: Tables)
    requires Shape(c) && HasSlot(c, p) && id < |c.directory|
    ensures Shape(r) && SameFrame(c, r)
  {
    var d := c.(directory := c.directory[id := p]);
    if p.Vram? then d.(vram := c.vram.(owners := c.vram.owners[p.slot := Some(id)], ref := c.vram.ref[p.slot := true]))
    else d.(ram := c.ram.(owners := c.ram.owners[p.slot := Some(id)], ref := c.ram.ref[p.slot := true]),
      hits := c.hits[p.slot := 0])
  }

  predicate WorkShape(w: Work) { Shape(w.c) && MemShape(w.c, w.mem) }

  predicate MissFits(w: Work, m: Miss) {
    m.id < |w.c.directory| && (m.place == Cold || HasSlot(w.c, m.place)) && m.stage < StagingSlots
  }

  // A filled slot gets its owner; an expert in RAM is also copied to its staging slot.
  function BindOne(w: Work, m: Miss): (r: Work)
    requires WorkShape(w) && MissFits(w, m)
    ensures WorkShape(r) && SameFrame(w.c, r.c)
  {
    match m.place
    case Vram(s) => w.(c := Bind(w.c, m.place, m.id), views := w.views[m.id := View(InVram(s), ColdToVram)])
    case Ram(s) => w.(c := Bind(w.c, m.place, m.id), mem := w.mem.(host := w.mem.host[m.stage := w.mem.ram[s]]),
                      views := w.views[m.id := View(InHost(m.stage), ColdToRamAndHost)])
    case Cold => w.(views := w.views[m.id := View(InHost(m.stage), ColdStagedToHost)])
  }

  predicate AllFit(w: Work, misses: seq<Miss>) { forall i :: 0 <= i < |misses| ==> MissFits(w, misses[i]) }

  function BindAll(w: Work, misses: seq<Miss>): (r: Work)
    requires WorkShape(w) && AllFit(w, misses)
    decreases |misses|
    ensures WorkShape(r) && SameFrame(w.c, r.c) && r.stage == w.stage && r.status == w.status
  {
    if misses == [] then w else BindAll(BindOne(w, misses[0]), misses[1..])
  }

  function Bump(hits: nat): nat { if hits < 0xFFFF_FFFF then hits + 1 else hits }

  function Touch(w: Work, r: nat): (q: Work)
    requires WorkShape(w) && r < |w.c.ram.owners|
    ensures WorkShape(q) && SameFrame(w.c, q.c)
  { w.(c := w.c.(ram := w.c.ram.(ref := w.c.ram.ref[r := true]), hits := w.c.hits[r := Bump(w.c.hits[r])])) }

  // The search for a VRAM victim moves the hand and clears bits.
  function Hunt(w: Work, id: nat, hits: nat): (q: (Work, Option<nat>))
    requires WorkShape(w) && id < |w.c.directory|
    ensures WorkShape(q.0) && q.0 == w.(c := w.c.(vram := q.0.c.vram)) && q.0.c.vram.owners == w.c.vram.owners
    ensures q.0.c.vram.free == w.c.vram.free
    ensures q.1.Some? ==> q.1.value < |w.c.vram.owners|
    ensures q.1.Some? && w.c.vram.owners[q.1.value].Some? ==> !w.c.pinned[w.c.vram.owners[q.1.value].value]
  {
    if |w.c.vram.owners| == 0 || hits < PromoteMinHits then (w, None)
    else
      var probes := if 2 * |w.c.vram.owners| < 32 then 2 * |w.c.vram.owners| else 32;
      var (tier, found) := Seek(w.c.vram, w.c.pinned, w.c.counts, w.c.counts[id], probes);
      (w.(c := w.c.(vram := tier)), found)
  }

  // A RAM hit moves into a free VRAM slot.
  function Promote(w: Work, id: nat, r: nat): (q: Work)
    requires WorkShape(w) && id < |w.c.directory| && r < |w.c.ram.owners| && w.c.vram.free != []
    ensures WorkShape(q) && SameFrame(w.c, q.c)
  {
    var n := |w.c.vram.free| - 1;
    var v := w.c.vram.free[n];
    var c := w.c.(
      vram := w.c.vram.(free := w.c.vram.free[..n]),
      ram := w.c.ram.(owners := w.c.ram.owners[r := None], ref := w.c.ram.ref[r := false], free := w.c.ram.free + [r]),
      hits := w.c.hits[r := 0]);
    w.(c := Bind(c, Vram(v), id), mem := w.mem.(vram := w.mem.vram[v := w.mem.ram[r]]),
       views := w.views[id := View(InVram(v), RamPromotedToVram)])
  }

  // A RAM hit trades places with a VRAM expert, which passes through staging slot 0.
  function Exchange(w: Work, id: nat, r: nat, v: nat, victim: nat): (q: Work)
    requires WorkShape(w) && id < |w.c.directory| && victim < |w.c.directory| && r < |w.c.ram.owners|
    requires v < |w.c.vram.owners|
    ensures WorkShape(q) && SameFrame(w.c, q.c)
  {
    var host := w.mem.host[0 := w.mem.vram[v]];
    var mem := Mem(w.mem.vram[v := w.mem.ram[r]], w.mem.ram[r := host[0]], host);
    var c := Bind(Bind(w.c, Vram(v), id), Ram(r), victim);
    w.(c := c.(ram := c.ram.(ref := c.ram.ref[r := false])), mem := mem,
      views := w.views[id := View(InVram(v), RamSwappedToVram)])
  }

  // A RAM hit that stays is copied to the next staging slot.
  function StageHit(w: Work, id: nat, r: nat): (q: Work)
    requires WorkShape(w) && id < |w.c.directory| && r < |w.c.ram.owners| && w.stage < StagingSlots
    ensures WorkShape(q)
  {
    w.(mem := w.mem.(host := w.mem.host[w.stage := w.mem.ram[r]]),
      views := w.views[id := View(InHost(w.stage), RamStagedToHost)],
       stage := w.stage + 1)
  }

  function ServeRam(w: Work, id: nat, r: nat, dma: bool): (q: Work)
    requires WorkShape(w) && id < |w.c.directory| && r < |w.c.ram.owners|
    ensures WorkShape(q) && SameFrame(w.c, q.c)
  {
    var touched := Touch(w, r);
    if w.c.vram.free != [] then Promote(touched, id, r)
    else
      var (sought, found) := Hunt(touched, id, touched.c.hits[r]);
      if found.None? then (if w.stage < StagingSlots then StageHit(sought, id, r) else sought.(status := Panicked))
      else if w.c.vram.owners[found.value].None? then sought.(status := Panicked)
      else if !dma then sought.(status := Failed)
      else Exchange(sought, id, r, found.value, w.c.vram.owners[found.value].value)
  }

  // One hit of phase 2. `dma` says whether the GPU copy for this expert, if any, succeeds.
  function ServeOne(w: Work, id: nat, dma: bool): (q: Work)
    requires WorkShape(w) && id < |w.c.directory|
    ensures WorkShape(q) && SameFrame(w.c, q.c)
  {
    if w.status != Going || id in w.views then w
    else match w.c.directory[id]
      case Cold => w.(status := Panicked)
      case Vram(v) =>
        w.(c := w.c.(vram := w.c.vram.(ref := w.c.vram.ref[v := true])),
          views := w.views[id := View(InVram(v), VramHit)])
      case Ram(r) => ServeRam(w, id, r, dma)
  }

  // Phase 2, in the order of the batch.
  function ServeAll(w: Work, ids: seq<nat>, dma: nat -> bool): (q: Work)
    requires WorkShape(w) && forall i :: 0 <= i < |ids| ==> ids[i] < |w.c.directory|
    ensures WorkShape(q) && SameFrame(w.c, q.c)
  {
    if ids == [] then w
    else
      var n := |ids| - 1;
      ServeOne(ServeAll(w, ids[..n], dma), ids[n], dma(ids[n]))
  }

  // ----- A whole batch -----

  function ExpertId(c: Tables, layer: nat, expert: nat): (id: nat)
    requires layer < c.layers && expert < c.perLayer
    ensures id < c.layers * c.perLayer
  {
    assert layer * c.perLayer + c.perLayer == (layer + 1) * c.perLayer <= c.layers * c.perLayer;
    layer * c.perLayer + expert
  }

  datatype Pins = Pins(c: Tables, ids: seq<nat>, ok: bool)

  predicate InRange(c: Tables, ids: seq<nat>) { forall i :: 0 <= i < |ids| ==> ids[i] < |c.directory| }

  // Counts and pins the requested experts, each once. An expert out of range ends the batch with its pins left set.
  function PinAll(c: Tables, layer: nat, experts: seq<nat>): (p: Pins)
    requires Shape(c) && layer < c.layers
    ensures Shape(p.c) && InRange(p.c, p.ids) && p.c == c.(counts := p.c.counts, pinned := p.c.pinned)
    ensures p.ok <==> forall i :: 0 <= i < |experts| ==> experts[i] < c.perLayer
  {
    if experts == [] then Pins(c, [], true)
    else
      var n := |experts| - 1;
      var p := PinAll(c, layer, experts[..n]);
      if !p.ok || experts[n] >= c.perLayer then p.(ok := false)
      else
        var id := ExpertId(c, layer, experts[n]);
        var counted := p.c.(counts := p.c.counts[id := p.c.counts[id] + 1]);
        if p.c.pinned[id] then p.(c := counted)
        else Pins(counted.(pinned := p.c.pinned[id := true]), p.ids + [id], true)
  }

  function Unpin(c: Tables, ids: seq<nat>): (d: Tables)
    requires Shape(c) && InRange(c, ids)
    ensures Shape(d) && d == c.(pinned := d.pinned)
    ensures forall i :: 0 <= i < |c.pinned| ==> d.pinned[i] == (c.pinned[i] && i !in ids)
  {
    if ids == [] then c
    else
      var n := |ids| - 1;
      var d := Unpin(c, ids[..n]);
      assert forall i :: i in ids <==> i in ids[..n] || i == ids[n];
      d.(pinned := d.pinned[ids[n] := false])
  }

  // The misses so far name experts and slots that exist, and staging slots from 1 on, no more than there are misses.
  predicate Fits(r: Reserved) {
    && 1 <= r.stage <= |r.misses| + 1
    && (forall i :: 0 <= i < |r.misses| ==> MissFitsTables(r.c, r.misses[i]) && 1 <= r.misses[i].stage <= i + 1)
  }

  predicate MissFitsTables(c: Tables, m: Miss) { m.id < |c.directory| && (m.place == Cold || HasSlot(c, m.place)) }

  lemma ReserveFits(r: Reserved, id: nat)
    requires Shape(r.c) && id < |r.c.directory| && Fits(r)
    ensures Fits(ReserveOne(r, id)) && |ReserveOne(r, id).misses| <= |r.misses| + 1
  {
    ReserveKeepsShape(r, id);
    var q := ReserveOne(r, id);
    forall m | MissFitsTables(r.c, m) ensures MissFitsTables(q.c, m) {}
  }

  lemma {:induction false} ReservationsFit(c: Tables, ids: seq<nat>)
    requires Shape(c) && InRange(c, ids)
    ensures Fits(ReserveAll(c, ids)) && |ReserveAll(c, ids).misses| <= |ids|
  {
    if ids != [] {
      var n := |ids| - 1;
      ReservationsFit(c, ids[..n]);
      ReserveFits(ReserveAll(c, ids[..n]), ids[n]);
    }
  }

  // What a batch returns: the views, an error, or a panic.
  datatype Answer = Views(views: seq<View>) | Refused | Crashed
  datatype Outcome = Outcome(c: Tables, mem: Mem, answer: Answer)

  // How the outside world answers: the memory after the read, whether it succeeded, and the GPU copies.
  datatype World = World(after: Mem, readOk: bool, dma: nat -> bool)

  // `acquire_pinned`.
  function AcquirePinned(c: Tables, mem: Mem, ids: seq<nat>, world: World): (w: Work)
    requires Shape(c) && MemShape(c, mem) && MemShape(c, world.after) && InRange(c, ids) && |ids| < StagingSlots
    ensures WorkShape(w) && SameFrame(c, w.c)
  {
    var r := ReserveAll(c, ids);
    var read := if r.misses == [] then mem else world.after;
    if !r.ok then Work(r.c, mem, map[], r.stage, Failed)
    else if r.misses != [] && !world.readOk then Work(r.c, read, map[], r.stage, Failed)
    else
      ReservationsFit(c, ids);
      ServeAll(BindAll(Work(r.c, read, map[], r.stage, Going), r.misses), ids, world.dma)
  }

  // The view of every requested expert, in the caller's order.
  function Answered(c: Tables, layer: nat, experts: seq<nat>, views: map<nat, View>): Answer
    requires layer < c.layers && forall i :: 0 <= i < |experts| ==> experts[i] < c.perLayer
  {
    if forall i :: 0 <= i < |experts| ==> ExpertId(c, layer, experts[i]) in views
    then Views(seq(|experts|, i requires 0 <= i < |experts| => views[ExpertId(c, layer, experts[i])]))
    else Crashed
  }

  // `acquire_layer`.
  function Acquire(c: Tables, mem: Mem, layer: nat, experts: seq<nat>, world: World): (o: Outcome)
    requires Shape(c) && MemShape(c, mem) && MemShape(c, world.after)
  {
    if layer >= c.layers then Outcome(c, mem, Refused)
    else
      var p := PinAll(c, layer, experts);
      if !p.ok then Outcome(p.c, mem, Refused)
      else if |p.ids| > StagingSlots - 1 then Outcome(Unpin(p.c, p.ids), mem, Refused)
      else
        Complete(c, layer, experts, p.ids, AcquirePinned(p.c, mem, p.ids, world))
  }

  // The end of a request: the pins are taken off, except after a panic.
  function Complete(c: Tables, layer: nat, experts: seq<nat>, ids: seq<nat>, w: Work): (o: Outcome)
    requires layer < c.layers && (forall i :: 0 <= i < |experts| ==> experts[i] < c.perLayer) && WorkShape(w)
    requires InRange(w.c, ids)
    ensures Shape(o.c) && MemShape(o.c, o.mem) && SameShape(w.c, o.c)
  {
    if w.status == Failed then Outcome(Unpin(w.c, ids), w.mem, Refused)
    else
      var a := if w.status == Going then Answered(c, layer, experts, w.views) else Crashed;
      Outcome(if a == Crashed then w.c else Unpin(w.c, ids), w.mem, a)
  }

  predicate SameShape(c: Tables, d: Tables) {
    && d.layers == c.layers && d.perLayer == c.perLayer
    && |d.vram.owners| == |c.vram.owners| && |d.ram.owners| == |c.ram.owners|
  }

  lemma AcquireKeepsShape(c: Tables, mem: Mem, layer: nat, experts: seq<nat>, world: World)
    requires Shape(c) && MemShape(c, mem) && MemShape(c, world.after)
    ensures var o := Acquire(c, mem, layer, experts, world);
      Shape(o.c) && MemShape(o.c, o.mem) && SameShape(c, o.c)
  {}
}
