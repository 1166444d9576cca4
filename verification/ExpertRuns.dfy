/** Runs of the expert cache: any requests, one after the other, whatever they answer. */
module ExpertRuns {
  import opened ExpertTables
  import opened ExpertRequests
  import opened ExpertRefusals
  import opened ExpertViews

  datatype Request = Request(layer: nat, experts: seq<nat>, world: World)

  predicate AllSized(c: Tables, requests: seq<Request>) {
    forall i :: 0 <= i < |requests| ==> MemShape(c, requests[i].world.after)
  }

  // Requests one after the other, whatever they answer, up to a panic.
  function Play(c: Tables, mem: Mem, requests: seq<Request>): (o: Outcome)
    requires Shape(c) && MemShape(c, mem) && AllSized(c, requests)
    decreases |requests|
  {
    if requests == [] then Outcome(c, mem, Views([]))
    else
      var q := requests[0];
      var o := Acquire(c, mem, q.layer, q.experts, q.world);
      AcquireKeepsShape(c, mem, q.layer, q.experts, q.world);
      if o.answer == Crashed || |requests| == 1 then o else Play(o.c, o.mem, requests[1..])
  }

  lemma PlayFirst(c: Tables, mem: Mem, requests: seq<Request>)
    requires Shape(c) && MemShape(c, mem) && AllSized(c, requests) && requests != []
    ensures Play(c, mem, requests[..1]) == Acquire(c, mem, requests[0].layer, requests[0].experts, requests[0].world)
  {}

  lemma PlayOn(c: Tables, mem: Mem, requests: seq<Request>, n: nat)
    requires Shape(c) && MemShape(c, mem) && AllSized(c, requests) && 2 <= n <= |requests|
    requires Acquire(c, mem, requests[0].layer, requests[0].experts, requests[0].world).answer != Crashed
    ensures var o := Acquire(c, mem, requests[0].layer, requests[0].experts, requests[0].world);
      && Shape(o.c) && MemShape(o.c, o.mem) && AllSized(o.c, requests[1..])
      && Play(c, mem, requests[..n]) == Play(o.c, o.mem, requests[1..][..n - 1])
  {
    AcquireKeepsShape(c, mem, requests[0].layer, requests[0].experts, requests[0].world);
    assert requests[..n][1..] == requests[1..][..n - 1] && requests[..n][0] == requests[0];
  }

  // ----- Runs that stay sound -----

  // What the outside world promises, request by request.
  ghost predicate HonestRun(c: Tables, mem: Mem, requests: seq<Request>, weights: seq<Data>)
    requires Shape(c) && MemShape(c, mem) && AllSized(c, requests)
    decreases |requests|
  {
    requests == [] ||
    var q := requests[0];
    var o := Acquire(c, mem, q.layer, q.experts, q.world);
    AcquireKeepsShape(c, mem, q.layer, q.experts, q.world);
    HonestRequest(c, mem, q.layer, q.experts, q.world, weights) && HonestRun(o.c, o.mem, requests[1..], weights)
  }

  // The request succeeds and no sweep of it meets a hole, or it is refused for a harmless cause.
  predicate Fine(c: Tables, mem: Mem, q: Request)
    requires Shape(c) && MemShape(c, mem) && MemShape(c, q.world.after)
  {
    match Acquire(c, mem, q.layer, q.experts, q.world).answer
    case Views(_) => CleanRequest(c, q.layer, q.experts)
    case Refused => Harmless(c, q.layer, q.experts, q.world)
    case Crashed => false
  }

  predicate FineRun(c: Tables, mem: Mem, requests: seq<Request>)
    requires Shape(c) && MemShape(c, mem) && AllSized(c, requests)
    decreases |requests|
  {
    requests == [] ||
    var q := requests[0];
    var o := Acquire(c, mem, q.layer, q.experts, q.world);
    AcquireKeepsShape(c, mem, q.layer, q.experts, q.world);
    Fine(c, mem, q) && FineRun(o.c, o.mem, requests[1..])
  }

  ghost predicate SoundAfter(c: Tables, mem: Mem, requests: seq<Request>, n: nat, weights: seq<Data>)
    requires Shape(c) && MemShape(c, mem) && AllSized(c, requests) && n <= |requests|
  {
    var o := Play(c, mem, requests[..n]);
    o.answer != Crashed && Sound(o.c, o.mem, weights)
  }

  // After every number of requests the cache is sound and has not panicked.
  ghost predicate StaysSound(c: Tables, mem: Mem, requests: seq<Request>, weights: seq<Data>)
    requires Shape(c) && MemShape(c, mem) && AllSized(c, requests)
  { forall n :: 0 <= n <= |requests| ==> SoundAfter(c, mem, requests, n, weights) }

  lemma FineIffSound(c: Tables, mem: Mem, q: Request, weights: seq<Data>)
    requires Sound(c, mem, weights) && HonestRequest(c, mem, q.layer, q.experts, q.world, weights)
    ensures var o := Acquire(c, mem, q.layer, q.experts, q.world);
      o.answer != Crashed && (Sound(o.c, o.mem, weights) <==> Fine(c, mem, q))
  {
    RequestKeepsAgreement(c, mem, q.layer, q.experts, q.world, weights);
    if Acquire(c, mem, q.layer, q.experts, q.world).answer == Refused {
      RefusalIsHarmlessIff(c, mem, q.layer, q.experts, q.world, weights);
    }
  }

  lemma SoundAtFirst(c: Tables, mem: Mem, requests: seq<Request>, o: Outcome, weights: seq<Data>)
    requires Sound(c, mem, weights) && AllSized(c, requests) && requests != []
    requires o == Acquire(c, mem, requests[0].layer, requests[0].experts, requests[0].world) && o.answer != Crashed
    requires Shape(o.c) && MemShape(o.c, o.mem) && AllSized(o.c, requests[1..])
    ensures SoundAfter(c, mem, requests, 0, weights)
    ensures SoundAfter(c, mem, requests, 1, weights) <==> Sound(o.c, o.mem, weights)
    ensures SoundAfter(o.c, o.mem, requests[1..], 0, weights) <==> Sound(o.c, o.mem, weights)
  {
    PlayFirst(c, mem, requests);
  }

  // A run is its first request and then the rest.
  lemma SoundFirst(c: Tables, mem: Mem, requests: seq<Request>, weights: seq<Data>)
    requires Sound(c, mem, weights) && AllSized(c, requests) && requests != []
    requires Acquire(c, mem, requests[0].layer, requests[0].experts, requests[0].world).answer != Crashed
    ensures var o := Acquire(c, mem, requests[0].layer, requests[0].experts, requests[0].world);
      && Shape(o.c) && MemShape(o.c, o.mem) && AllSized(o.c, requests[1..])
      && (StaysSound(c, mem, requests, weights) <==>
          Sound(o.c, o.mem, weights) && StaysSound(o.c, o.mem, requests[1..], weights))
  {
    var q := requests[0];
    var o := Acquire(c, mem, q.layer, q.experts, q.world);
    AcquireKeepsShape(c, mem, q.layer, q.experts, q.world);
    SoundAtFirst(c, mem, requests, o, weights);
    forall n | 2 <= n <= |requests|
      ensures SoundAfter(c, mem, requests, n, weights) <==> SoundAfter(o.c, o.mem, requests[1..], n - 1, weights)
    {
      PlayOn(c, mem, requests, n);
    }
    SoundShift(c, mem, requests, o, weights);
  }

  lemma SoundShift(c: Tables, mem: Mem, requests: seq<Request>, o: Outcome, weights: seq<Data>)
    requires Shape(c) && MemShape(c, mem) && AllSized(c, requests) && requests != []
    requires Shape(o.c) && MemShape(o.c, o.mem) && AllSized(o.c, requests[1..])
    requires SoundAfter(c, mem, requests, 0, weights)
    requires SoundAfter(c, mem, requests, 1, weights) <==> Sound(o.c, o.mem, weights)
    requires SoundAfter(o.c, o.mem, requests[1..], 0, weights) <==> Sound(o.c, o.mem, weights)
    requires forall n :: 2 <= n <= |requests| ==>
      (SoundAfter(c, mem, requests, n, weights) <==> SoundAfter(o.c, o.mem, requests[1..], n - 1, weights))
    ensures StaysSound(c, mem, requests, weights) <==>
      Sound(o.c, o.mem, weights) && StaysSound(o.c, o.mem, requests[1..], weights)
  {
    if StaysSound(c, mem, requests, weights) {
      forall n | 0 <= n <= |requests[1..]| ensures SoundAfter(o.c, o.mem, requests[1..], n, weights) {
        assert SoundAfter(c, mem, requests, n + 1, weights);
      }
    } else {
      var n :| 0 <= n <= |requests| && !SoundAfter(c, mem, requests, n, weights);
      assert n > 1 ==> !SoundAfter(o.c, o.mem, requests[1..], n - 1, weights);
    }
  }

  /** From a sound cache, a run stays sound and never panics if and only if every request is fine. */
  lemma {:induction false} RunIsSoundIff(c: Tables, mem: Mem, requests: seq<Request>, weights: seq<Data>)
    requires Sound(c, mem, weights) && AllSized(c, requests) && HonestRun(c, mem, requests, weights)
    ensures StaysSound(c, mem, requests, weights) <==> FineRun(c, mem, requests)
    decreases |requests|
  {
    if requests == [] {
      assert forall n :: 0 <= n <= |requests| ==> SoundAfter(c, mem, requests, n, weights);
    } else {
      var q := requests[0];
      var o := Acquire(c, mem, q.layer, q.experts, q.world);
      FineIffSound(c, mem, q, weights);
      SoundFirst(c, mem, requests, weights);
      if Sound(o.c, o.mem, weights) { RunIsSoundIff(o.c, o.mem, requests[1..], weights); }
    }
  }

  /** Over every run from an empty cache, refusals included: the tables are mutually inverse, no expert is in both
      tiers, every slot holds its owner's bytes and nothing panics, throughout, if and only if every request that
      succeeds is clean and every refusal harmless. */
  lemma EveryFineRunIsSound(
    layers: nat, perLayer: nat, vramSlots: nat, ramSlots: nat, mem: Mem, requests: seq<Request>, weights: seq<Data>)
    requires var c := NewTables(layers, perLayer, vramSlots, ramSlots);
      && MemShape(c, mem) && |weights| == layers * perLayer && AllSized(c, requests)
      && HonestRun(c, mem, requests, weights)
    ensures var c := NewTables(layers, perLayer, vramSlots, ramSlots);
      StaysSound(c, mem, requests, weights) <==> FineRun(c, mem, requests)
  {
    NewIsSound(layers, perLayer, vramSlots, ramSlots, mem, weights);
    RunIsSoundIff(NewTables(layers, perLayer, vramSlots, ramSlots), mem, requests, weights);
  }
}
