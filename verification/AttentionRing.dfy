/** Where attention finds its rows: window rings, pair rings and compressed stores, on the GPU and in the reference. */
module AttentionRing {
  import opened Options
  import opened Arithmetic
  import opened GpuLimits

  const Window: nat := 128
  const ReferenceChunk: nat := 256
  const PairRing: nat := MaxChunk + 2

  // A key-value row; its numbers do not matter here.
  type Row = int

  // ----- What a query should see -----

  // The rows of compressed group `i`.
  function Group(h: seq<Row>, ratio: nat, i: nat): seq<Row>
    requires ratio > 0 && i < |h| / ratio
  {
    GroupFits(|h|, ratio, i);
    h[i * ratio..i * ratio + ratio]
  }

  lemma GroupFits(n: nat, ratio: nat, i: nat)
    requires ratio > 0 && i < n / ratio
    ensures i * ratio + ratio <= n
  {
    assert (i + 1) * ratio <= n / ratio * ratio <= n;
  }

  function First(p: nat): nat { if p < Window then 0 else p - (Window - 1) }

  datatype Query = Query(window: seq<Row>, compressed: seq<seq<Row>>)

  function Groups(h: seq<Row>, ratio: nat, n: nat): (g: seq<seq<Row>>)
    requires ratio > 0 && n <= |h| / ratio
    ensures |g| == n && forall i :: 0 <= i < n ==> g[i] == Group(h, ratio, i)
  { seq(n, i requires 0 <= i < n => Group(h, ratio, i)) }

  // Position `p` sees its last 128 positions and every group complete by then.
  function Sees(h: seq<Row>, ratio: nat, p: nat): Query
    requires p < |h|
  {
    if ratio == 0 then Query(h[First(p)..p + 1], [])
    else
      DivMonotone(p + 1, |h|, ratio);
      Query(h[First(p)..p + 1], Groups(h, ratio, (p + 1) / ratio))
  }

  lemma GroupsExtend(h: seq<Row>, more: seq<Row>, ratio: nat, n: nat)
    requires ratio > 0 && n <= |h| / ratio
    ensures n <= |h + more| / ratio && Groups(h + more, ratio, n) == Groups(h, ratio, n)
  {
    DivMonotone(|h|, |h + more|, ratio);
    forall i | 0 <= i < n ensures Group(h + more, ratio, i) == Group(h, ratio, i) {
      GroupFits(|h|, ratio, i);
      var from, to := i * ratio, i * ratio + ratio;
      assert (h + more)[from..to] == h[from..to];
    }
  }

  function SeenFrom(h: seq<Row>, ratio: nat, start: nat, m: nat): (q: seq<Query>)
    requires start + m <= |h|
    ensures |q| == m && forall t :: 0 <= t < m ==> q[t] == Sees(h, ratio, start + t)
  { seq(m, t requires 0 <= t < m => Sees(h, ratio, start + t)) }

  /** What a position sees does not change as more positions follow. */
  lemma SeesOnlyThePast(h: seq<Row>, more: seq<Row>, ratio: nat, p: nat)
    requires p < |h|
    ensures Sees(h + more, ratio, p) == Sees(h, ratio, p)
  {
    assert (h + more)[First(p)..p + 1] == h[First(p)..p + 1];
    if ratio > 0 {
      DivMonotone(p + 1, |h|, ratio);
      GroupsExtend(h, more, ratio, (p + 1) / ratio);
    }
  }

  // ----- Rings -----

  // The ring holds the newest rows, each at its position modulo the size.
  ghost predicate RingHolds(r: seq<Row>, h: seq<Row>) {
    |r| > 0 && forall p :: 0 <= p < |h| && |h| - |r| <= p ==> r[p % |r|] == h[p]
  }

  // Positions that share a slot are a whole number of rings apart.
  lemma SharedSlot(a: nat, b: nat, n: nat)
    requires a <= b && n > 0 && a % n == b % n
    ensures a == b || b - a >= n
  {
    var k := b / n - a / n;
    MultipleBounds(k, n);
    assert a == n * (a / n) + a % n && b == n * (b / n) + b % n;
    assert b - a == k * n;
    assert k == 0 ==> k * n == 0;
  }

  lemma SlotsDiffer(a: nat, b: nat, n: nat)
    requires a < b < a + n
    ensures a % n != b % n
  {
    if a % n == b % n { SharedSlot(a, b, n); }
  }

  lemma PutKeepsRing(r: seq<Row>, h: seq<Row>, x: Row)
    requires RingHolds(r, h)
    ensures RingHolds(r[|h| % |r| := x], h + [x])
  {
    var after, all := r[|h| % |r| := x], h + [x];
    forall p | 0 <= p < |all| && |all| - |after| <= p ensures after[p % |r|] == all[p] {
      if p < |h| { SlotsDiffer(p, |h|, |r|); }
    }
  }

  // `put_rows`, with slots taken modulo the ring's size.
  method PutRows(ring: array<Row>, xs: seq<Row>, start: nat, ghost h: seq<Row>)
    requires start == |h| && RingHolds(ring[..], h)
    modifies ring
    ensures RingHolds(ring[..], h + xs)
  {
    assert h + xs[..0] == h;
    for t := 0 to |xs|
      invariant RingHolds(ring[..], h + xs[..t])
    {
      PutKeepsRing(ring[..], h + xs[..t], xs[t]);
      assert (h + xs[..t]) + [xs[t]] == h + xs[..t + 1];
      ghost var before := ring[..];
      ring[(start + t) % ring.Length] := xs[t];
      assert ring[..] == before[(start + t) % |before| := xs[t]];
    }
    assert xs[..|xs|] == xs;
  }

  // The rows at the slots of positions `from` to `to`.
  method ReadRows(ring: array<Row>, from: nat, to: nat, ghost h: seq<Row>) returns (rows: seq<Row>)
    requires RingHolds(ring[..], h) && |h| - ring.Length <= from <= to <= |h|
    ensures rows == h[from..to]
  {
    rows := [];
    for p := from to to
      invariant rows == h[from..p]
    {
      rows := rows + [ring[p % ring.Length]];
    }
  }

  // ----- What the GPU pools -----

  // A row of the history at or after position `q` that has its slot in the pair ring.
  ghost predicate FromSlot(h: seq<Row>, q: nat, x: Row) {
    exists p :: q <= p < |h| && p % PairRing == q % PairRing && h[p] == x
  }

  // The pooling kernel reads two rows: the group's first slot and the one after it. Up to a ratio of 3 they are still
  // the group's own.
  ghost predicate PairFrom(h: seq<Row>, ratio: nat, at: nat, rows: seq<Row>) {
    && |rows| == 2 && FromSlot(h, at, rows[0]) && FromSlot(h, at + 1, rows[1])
    && (ratio <= 3 ==> at + 2 <= |h| && rows == h[at..at + 2])
  }

  // A row of the GPU's compressed store.
  ghost predicate GpuRow(h: seq<Row>, ratio: nat, i: nat, rows: seq<Row>)
    requires ratio > 0 && i < |h| / ratio
  { if ratio == 1 then rows == Group(h, 1, i) else PairFrom(h, ratio, i * ratio, rows) }

  /** The GPU's row is the group exactly up to a ratio of 2. */
  lemma GpuRowIsTheGroup(h: seq<Row>, ratio: nat, i: nat, rows: seq<Row>)
    requires ratio > 0 && i < |h| / ratio && GpuRow(h, ratio, i, rows)
    ensures rows == Group(h, ratio, i) <==> ratio <= 2
  {
    GroupFits(|h|, ratio, i);
    assert |Group(h, ratio, i)| == ratio;
  }

  lemma FromSlotStays(h: seq<Row>, more: seq<Row>, q: nat, x: Row)
    requires FromSlot(h, q, x)
    ensures FromSlot(h + more, q, x)
  {
    var p :| q <= p < |h| && p % PairRing == q % PairRing && h[p] == x;
    assert (h + more)[p] == x;
  }

  lemma GpuRowStays(h: seq<Row>, more: seq<Row>, ratio: nat, i: nat, rows: seq<Row>)
    requires ratio > 0 && i < |h| / ratio && GpuRow(h, ratio, i, rows)
    ensures i < |h + more| / ratio && GpuRow(h + more, ratio, i, rows)
  {
    DivMonotone(|h|, |h + more|, ratio);
    if ratio == 1 {
      GroupsExtend(h, more, 1, i + 1);
      assert Groups(h, 1, i + 1)[i] == Groups(h + more, 1, i + 1)[i];
    } else {
      FromSlotStays(h, more, i * ratio, rows[0]);
      FromSlotStays(h, more, i * ratio + 1, rows[1]);
      SliceStays(h, more, i * ratio);
    }
  }

  lemma SliceStays(h: seq<Row>, more: seq<Row>, at: nat)
    ensures at + 2 <= |h| ==> (h + more)[at..at + 2] == h[at..at + 2]
  {}

  ghost predicate GpuRows(h: seq<Row>, ratio: nat, rows: seq<seq<Row>>)
    requires ratio > 0
  { |rows| <= |h| / ratio && forall i :: 0 <= i < |rows| ==> GpuRow(h, ratio, i, rows[i]) }

  // What a query of the GPU reads.
  ghost predicate GpuSees(h: seq<Row>, ratio: nat, p: nat, q: Query)
    requires p < |h|
  {
    && q.window == h[First(p)..p + 1]
    && if ratio == 0 then q.compressed == [] else |q.compressed| == (p + 1) / ratio && GpuRows(h, ratio, q.compressed)
  }

  /** A query of the GPU sees what it should exactly up to a ratio of 2, or before the first group is complete. */
  lemma GpuSeesRightly(h: seq<Row>, ratio: nat, p: nat, q: Query)
    requires p < |h| && GpuSees(h, ratio, p, q)
    ensures q.window == Sees(h, ratio, p).window
    ensures q == Sees(h, ratio, p) <==> ratio <= 2 || p + 1 < ratio
  {
    if ratio > 0 {
      DivMonotone(p + 1, |h|, ratio);
      DivBelow(p + 1, ratio, 1);
      forall i | 0 <= i < |q.compressed| ensures q.compressed[i] == Group(h, ratio, i) <==> ratio <= 2 {
        GpuRowIsTheGroup(h, ratio, i, q.compressed[i]);
      }
      if ratio > 2 && p + 1 >= ratio { assert q.compressed[0] != Sees(h, ratio, p).compressed[0]; }
    }
  }

  lemma GpuSeesOnlyThePast(h: seq<Row>, more: seq<Row>, ratio: nat, p: nat, q: Query)
    requires p < |h| && GpuSees(h, ratio, p, q)
    ensures GpuSees(h + more, ratio, p, q)
  {
    assert (h + more)[First(p)..p + 1] == h[First(p)..p + 1];
    if ratio > 0 {
      DivMonotone(|h|, |h + more|, ratio);
      forall i | 0 <= i < |q.compressed| ensures GpuRow(h + more, ratio, i, q.compressed[i]) {
        GpuRowStays(h, more, ratio, i, q.compressed[i]);
      }
    }
  }

  // ----- The GPU's bookkeeping -----

  // The newest position with the slot of `q`.
  lemma NewestInSlot(q: nat, len: nat) returns (p: nat)
    requires q < len
    ensures q <= p < len && len - PairRing <= p && p % PairRing == q % PairRing && (len - PairRing <= q ==> p == q)
  {
    p := q + (len - 1 - q) / PairRing * PairRing;
  }

  lemma SlotHasARow(r: seq<Row>, h: seq<Row>, q: nat)
    requires |r| == PairRing && RingHolds(r, h) && q < |h|
    ensures FromSlot(h, q, r[q % PairRing]) && (|h| - PairRing <= q ==> r[q % PairRing] == h[q])
  {
    var p := NewestInSlot(q, |h|);
    assert r[p % |r|] == h[p];
  }

  class GpuLayer {
    const ratio: nat
    const ring: array<Row>
    const pairs: array<Row>
    const store: array<seq<Row>>
    var count: nat
    var position: nat
    ghost var history: seq<Row>

    // Every row since the last reset is where a query will look for it.
    ghost predicate Valid()
      reads this, ring, pairs, store
    { ring.Length == Window + MaxChunk && RingHolds(ring[..], history) && StoreValid() }

    ghost predicate StoreValid()
      reads this, pairs, store
    {
      && ring != pairs && position == |history| <= Context && pairs.Length == PairRing
      && (ratio > 1 ==> RingHolds(pairs[..], history))
      && (ratio > 0 ==> store.Length == Context / ratio) && StoreHolds(history)
    }

    ghost predicate StoreHolds(h: seq<Row>)
      reads this, store
    { ratio > 0 ==> count == |h| / ratio <= store.Length && GpuRows(h, ratio, store[..count]) }

    constructor (ratio: nat)
      ensures Valid() && history == [] && this.ratio == ratio && fresh(ring) && fresh(pairs) && fresh(store)
    {
      this.ratio := ratio;
      ring := new Row[Window + MaxChunk](_ => 0);
      pairs := new Row[PairRing](_ => 0);
      store := new seq<Row>[if ratio == 0 then 0 else Context / ratio](_ => []);
      count, position, history := 0, 0, [];
    }

    // A new conversation: the old rows stay in the buffers.
    method Reset()
      requires Valid()
      modifies this`count, this`position, this`history
      ensures Valid() && history == []
    {
      count, position, history := 0, 0, [];
    }

    // The rows the kernel pools for a group that starts at position `at`.
    method PoolPair(at: nat, ghost h: seq<Row>) returns (latent: seq<Row>)
      requires pairs.Length == PairRing && RingHolds(pairs[..], h) && at + 2 <= |h|
      requires ratio <= 3 ==> |h| - PairRing <= at
      ensures PairFrom(h, ratio, at, latent)
    {
      var first := at % PairRing;
      var second := (first + 1) % PairRing;
      NextSlot(at);
      SlotHasARow(pairs[..], h, at);
      SlotHasARow(pairs[..], h, at + 1);
      latent := [pairs[first], pairs[second]];
      assert h[at..at + 2] == [h[at], h[at + 1]];
    }

    // The groups that end in this chunk, pooled from the pair ring.
    method PoolPairs(start: nat, m: nat, ghost h: seq<Row>) returns (latents: seq<seq<Row>>)
      requires ratio > 1 && pairs.Length == PairRing && RingHolds(pairs[..], h) && |h| == start + m
      requires 1 <= m <= MaxChunk
      ensures |latents| == |h| / ratio - start / ratio && LatentsOk(h, start / ratio, latents)
    {
      latents := [];
      ghost var from := start / ratio;
      DivMonotone(start, |h|, ratio);
      for row := 0 to m
        invariant from + |latents| == (start + row) / ratio && LatentsOk(h, from, latents)
      {
        GroupArithmetic(start + row, ratio);
        DivMonotone(start + row + 1, |h|, ratio);
        if (start + row + 1) % ratio == 0 {
          var latent := PoolGroup(start + row, h);
          LatentsGrow(h, from, latents, latent);
          latents := latents + [latent];
        }
      }
    }

    lemma LatentsGrow(h: seq<Row>, from: nat, latents: seq<seq<Row>>, latent: seq<Row>)
      requires ratio > 0 && LatentsOk(h, from, latents) && from + |latents| < |h| / ratio
      requires GpuRow(h, ratio, from + |latents|, latent)
      ensures LatentsOk(h, from, latents + [latent])
    {
      var more := latents + [latent];
      forall i | 0 <= i < |more| ensures GpuRow(h, ratio, from + i, more[i]) {
        if i < |latents| { assert GpuRow(h, ratio, from + i, latents[i]); }
      }
    }

    // The group that ends at `position`.
    method PoolGroup(position: nat, ghost h: seq<Row>) returns (latent: seq<Row>)
      requires ratio > 1 && pairs.Length == PairRing && RingHolds(pairs[..], h)
      requires position < |h| <= position + MaxChunk && (position + 1) % ratio == 0 && position / ratio < |h| / ratio
      ensures GpuRow(h, ratio, position / ratio, latent)
    {
      GroupStart(position, ratio);
      latent := PoolPair(position + 1 - ratio, h);
    }

    ghost predicate LatentsOk(h: seq<Row>, from: nat, latents: seq<seq<Row>>)
      requires ratio > 0
    { from + |latents| <= |h| / ratio && forall i :: 0 <= i < |latents| ==> GpuRow(h, ratio, from + i, latents[i]) }

    method Latents(xs: seq<Row>, start: nat) returns (latents: seq<seq<Row>>)
      requires StoreValid() && ratio > 0 && start == position && 1 <= |xs| <= MaxChunk
      modifies pairs
      ensures ratio > 1 ==> RingHolds(pairs[..], history + xs)
      ensures |latents| == |history + xs| / ratio - start / ratio && LatentsOk(history + xs, start / ratio, latents)
    {
      ghost var h := history + xs;
      if ratio > 1 {
        PutRows(pairs, xs, start, history);
        latents := PoolPairs(start, |xs|, h);
      } else {
        latents := seq(|xs|, t requires 0 <= t < |xs| => [xs[t]]);
        assert forall t :: 0 <= t < |xs| ==> Group(h, 1, start + t) == [xs[t]];
      }
    }

    // Appends rows at `count`. It fails if the store has no room for them.
    method Append(latents: seq<seq<Row>>) returns (ok: bool)
      requires count <= store.Length
      modifies this`count, store
      ensures ok <==> old(count) + |latents| <= store.Length
      ensures ok ==> count == old(count) + |latents| && store[..count] == old(store[..count]) + latents
    {
      if count + |latents| > store.Length {
        return false;
      }
      for i := 0 to |latents|
        invariant count == old(count) && store[..count + i] == old(store[..count]) + latents[..i]
      {
        store[count + i] := latents[i];
      }
      count := count + |latents|;
      return true;
    }

    // Old rows stay right and new ones are right.
    lemma RowsJoin(h: seq<Row>, more: seq<Row>, before: seq<seq<Row>>, latents: seq<seq<Row>>)
      requires ratio > 0 && GpuRows(h, ratio, before) && LatentsOk(h + more, |before|, latents)
      ensures GpuRows(h + more, ratio, before + latents)
    {
      forall i | 0 <= i < |before + latents| ensures GpuRow(h + more, ratio, i, (before + latents)[i]) {
        if i < |before| {
          GpuRowStays(h, more, ratio, i, before[i]);
        } else {
          assert GpuRow(h + more, ratio, |before| + (i - |before|), latents[i - |before|]);
        }
      }
    }

    // Appends the groups this chunk completes; the store always has room.
    method Compress(xs: seq<Row>, start: nat) returns (ok: bool)
      requires StoreValid() && ratio > 0 && start == position && 1 <= |xs| <= MaxChunk && start + |xs| <= Context
      modifies this`count, pairs, store
      ensures ok && StoreHolds(history + xs)
      ensures ratio > 1 ==> RingHolds(pairs[..], history + xs)
    {
      var latents := Latents(xs, start);
      DivMonotone(|history + xs|, Context, ratio);
      RowsJoin(history, xs, store[..count], latents);
      ok := Append(latents);
    }

    method OneQuery(p: nat, ghost h: seq<Row>) returns (query: Query)
      requires RingHolds(ring[..], h) && StoreHolds(h) && p < |h| && |h| - ring.Length <= First(p)
      ensures GpuSees(h, ratio, p, query)
    {
      var window := ReadRows(ring, First(p), p + 1, h);
      var visible: nat := 0;
      if ratio > 0 {
        visible := (p + 1) / ratio;
        DivMonotone(p + 1, |h|, ratio);
        assert forall i :: 0 <= i < visible ==> store[..visible][i] == store[..count][i];
      }
      query := Query(window, store[..visible]);
    }

    ghost predicate AllSeen(h: seq<Row>, start: nat, queries: seq<Query>) {
      start + |queries| <= |h| && forall t :: 0 <= t < |queries| ==> GpuSees(h, ratio, start + t, queries[t])
    }

    // Every query of the chunk reads the ring after all rows of the chunk are in it.
    method Queries(start: nat, m: nat, ghost h: seq<Row>) returns (queries: seq<Query>)
      requires ring.Length == Window + MaxChunk && RingHolds(ring[..], h) && StoreHolds(h)
      requires |h| == start + m && 1 <= m <= MaxChunk
      ensures |queries| == m && AllSeen(h, start, queries)
    {
      queries := [];
      for row := 0 to m
        invariant |queries| == row && AllSeen(h, start, queries)
      {
        var query := OneQuery(start + row, h);
        queries := queries + [query];
      }
    }

    /** A chunk of 1 to 64 rows within the context: every query reads exactly its last min(p + 1, 128) rows and the
        rows of every group complete by then. */
    method Forward(xs: seq<Row>) returns (r: Option<seq<Query>>)
      requires Valid()
      modifies this`count, this`position, this`history, ring, pairs, store
      ensures Valid()
      ensures r.Some? <==> 1 <= |xs| <= MaxChunk && |old(history)| + |xs| <= Context
      ensures history == if r.Some? then old(history) + xs else old(history)
      ensures r.Some? ==> |r.value| == |xs| && AllSeen(history, |old(history)|, r.value)
    {
      var m := |xs|;
      if m == 0 || m > MaxChunk {
        return None;
      }
      if position + m > Context {
        return None;
      }
      var start := position;
      PutRows(ring, xs, start, history);
      if ratio > 0 {
        var ok := Compress(xs, start);
        if !ok {
          return None;
        }
      }
      history := history + xs;
      var queries := Queries(start, m, history);
      position := position + m;
      return Some(queries);
    }
  }

  lemma NextSlot(at: nat)
    ensures (at % PairRing + 1) % PairRing == (at + 1) % PairRing
  {}

  lemma GroupStart(p: nat, ratio: nat)
    requires ratio > 0 && (p + 1) % ratio == 0
    ensures p + 1 - ratio == p / ratio * ratio >= 0
  {
    GroupArithmetic(p, ratio);
  }

  // ----- The reference's bookkeeping -----

  lemma GroupArithmetic(p: nat, r: nat)
    requires r > 0
    ensures p % r == p - p / r * r
    ensures (p + 1) % r == 0 ==> p % r == r - 1 && (p + 1) / r == p / r + 1
    ensures (p + 1) % r != 0 ==> (p + 1) / r == p / r
  {
    var q, s := p / r, p % r;
    assert p == q * r + s;
    if s + 1 < r {
      QuotientIs(p + 1, r, q, s + 1);
    } else {
      assert p + 1 == (q + 1) * r;
      QuotientIs(p + 1, r, q + 1, 0);
    }
  }

  class ReferenceLayer {
    const ratio: nat
    const ring: array<Row>
    const state: array<Row>
    var store: seq<seq<Row>>
    var position: nat
    ghost var history: seq<Row>

    ghost predicate Valid()
      reads this, ring, state
    {
      && ring.Length == Window + ReferenceChunk && RingHolds(ring[..], history) && StateValid(history) && ring != state
      && position == |history|
    }

    // The rows of the open group are in their slots; the complete groups are in the store.
    ghost predicate StateValid(h: seq<Row>)
      reads this, state
    {
      ratio > 0 ==>
        && state.Length == ratio && store == Groups(h, ratio, |h| / ratio)
        && (ratio > 1 ==> forall p :: |h| / ratio * ratio <= p < |h| ==> state[p - |h| / ratio * ratio] == h[p])
    }

    constructor (ratio: nat)
      ensures Valid() && history == [] && this.ratio == ratio && fresh(ring) && fresh(state)
    {
      this.ratio := ratio;
      ring := new Row[Window + ReferenceChunk](_ => 0);
      state := new Row[ratio](_ => 0);
      store, position, history := [], 0, [];
    }

    // One gated row; the last of a group pools it.
    method CompressRow(x: Row, p: nat, ghost h: seq<Row>)
      requires ratio > 1 && StateValid(h) && p == |h|
      modifies this`store, state
      ensures StateValid(h + [x])
    {
      ghost var all := h + [x];
      GroupArithmetic(p, ratio);
      ghost var base := p / ratio * ratio;
      state[p % ratio] := x;
      assert forall q :: base <= q < |all| ==> state[q - base] == all[q];
      GroupsExtend(h, [x], ratio, |h| / ratio);
      if (p + 1) % ratio == 0 {
        assert |all| / ratio == p / ratio + 1;
        assert state[..] == all[base..base + ratio];
        assert Group(all, ratio, p / ratio) == all[base..base + ratio];
        store := store + [state[..]];
        assert |all| / ratio * ratio == |all|;
      }
    }

    method Compress(xs: seq<Row>, start: nat)
      requires ratio > 0 && StateValid(history) && start == |history|
      modifies this`store, state
      ensures StateValid(history + xs)
    {
      ghost var h := history;
      if ratio > 1 {
        assert h + xs[..0] == h;
        for t := 0 to |xs|
          invariant history == h && StateValid(h + xs[..t])
        {
          CompressRow(xs[t], start + t, h + xs[..t]);
          assert (h + xs[..t]) + [xs[t]] == h + xs[..t + 1];
        }
        assert xs[..|xs|] == xs;
      } else {
        ghost var all := h + xs;
        GroupsExtend(h, xs, 1, |h|);
        assert forall t :: 0 <= t < |xs| ==> Group(all, 1, start + t) == [xs[t]];
        store := store + seq(|xs|, t requires 0 <= t < |xs| => [xs[t]]);
        assert store == Groups(all, 1, |all|);
      }
    }

    method OneQuery(p: nat, ghost h: seq<Row>) returns (query: Query)
      requires RingHolds(ring[..], h) && StateValid(h) && p < |h| && |h| - ring.Length <= First(p)
      ensures query == Sees(h, ratio, p)
    {
      var window := ReadRows(ring, First(p), p + 1, h);
      if ratio == 0 {
        query := Query(window, []);
      } else {
        var visible := (p + 1) / ratio;
        DivMonotone(p + 1, |h|, ratio);
        assert store[..visible] == Groups(h, ratio, visible);
        query := Query(window, store[..visible]);
      }
    }

    method Queries(start: nat, m: nat, ghost h: seq<Row>) returns (queries: seq<Query>)
      requires ring.Length == Window + ReferenceChunk && RingHolds(ring[..], h) && StateValid(h) && |h| == start + m
      requires 1 <= m <= ReferenceChunk
      ensures queries == SeenFrom(h, ratio, start, m)
    {
      queries := [];
      for t := 0 to m
        invariant |queries| == t && forall k :: 0 <= k < t ==> queries[k] == Sees(h, ratio, start + k)
      {
        var query := OneQuery(start + t, h);
        queries := queries + [query];
      }
    }

    method Reset()
      requires Valid()
      modifies this`store, this`position, this`history
      ensures Valid() && history == []
    {
      store, position, history := [], 0, [];
    }

    method Forward(xs: seq<Row>) returns (r: Option<seq<Query>>)
      requires Valid()
      modifies this`store, this`position, this`history, ring, state
      ensures Valid()
      ensures r.Some? <==> 1 <= |xs| <= ReferenceChunk
      ensures history == if r.Some? then old(history) + xs else old(history)
      ensures r.Some? ==> r.value == SeenFrom(history, ratio, |old(history)|, |xs|)
    {
      var m := |xs|;
      if m == 0 || m > ReferenceChunk {
        return None;
      }
      var start := position;
      PutRows(ring, xs, start, history);
      if ratio > 0 {
        Compress(xs, start);
      }
      history := history + xs;
      var queries := Queries(start, m, history);
      position := position + m;
      return Some(queries);
    }
  }

  // ----- Any way of cutting a sequence into chunks -----

  function Flat(chunks: seq<seq<Row>>): seq<Row> {
    if chunks == [] then [] else Flat(chunks[..|chunks| - 1]) + chunks[|chunks| - 1]
  }

  lemma SeenExtends(h: seq<Row>, xs: seq<Row>, ratio: nat)
    ensures SeenFrom(h + xs, ratio, 0, |h + xs|) == SeenFrom(h, ratio, 0, |h|) + SeenFrom(h + xs, ratio, |h|, |xs|)
  {
    forall p | 0 <= p < |h| ensures Sees(h + xs, ratio, p) == Sees(h, ratio, p) { SeesOnlyThePast(h, xs, ratio, p); }
  }

  lemma {:induction false} FlatFits(chunks: seq<seq<Row>>, k: nat)
    requires k <= |chunks|
    ensures |Flat(chunks[..k])| <= |Flat(chunks)|
    decreases |chunks| - k
  {
    if k < |chunks| {
      FlatFits(chunks, k + 1);
      assert chunks[..k + 1][..k] == chunks[..k];
    } else {
      assert chunks[..k] == chunks;
    }
  }

  // The queries of a whole history.
  ghost predicate GpuSeen(h: seq<Row>, ratio: nat, seen: seq<Query>) {
    |seen| == |h| && forall p :: 0 <= p < |seen| ==> GpuSees(h, ratio, p, seen[p])
  }

  lemma GpuSeenExtends(h: seq<Row>, xs: seq<Row>, ratio: nat, seen: seq<Query>, more: seq<Query>)
    requires GpuSeen(h, ratio, seen) && |more| == |xs|
    requires forall t :: 0 <= t < |more| ==> GpuSees(h + xs, ratio, |h| + t, more[t])
    ensures GpuSeen(h + xs, ratio, seen + more)
  {
    forall p | 0 <= p < |seen + more| ensures GpuSees(h + xs, ratio, p, (seen + more)[p]) {
      if p < |seen| {
        GpuSeesOnlyThePast(h, xs, ratio, p, seen[p]);
      } else {
        assert GpuSees(h + xs, ratio, |h| + (p - |h|), more[p - |h|]);
      }
    }
  }

  method RunGpu(ratio: nat, chunks: seq<seq<Row>>) returns (seen: seq<Query>)
    requires |Flat(chunks)| <= Context && forall i :: 0 <= i < |chunks| ==> 1 <= |chunks[i]| <= MaxChunk
    ensures GpuSeen(Flat(chunks), ratio, seen)
  {
    var layer := new GpuLayer(ratio);
    seen := [];
    for k := 0 to |chunks|
      invariant layer.Valid() && layer.ratio == ratio && layer.history == Flat(chunks[..k])
      invariant fresh(layer) && fresh(layer.ring) && fresh(layer.pairs) && fresh(layer.store)
      invariant GpuSeen(Flat(chunks[..k]), ratio, seen)
    {
      assert chunks[..k + 1][..k] == chunks[..k];
      FlatFits(chunks, k + 1);
      var r := layer.Forward(chunks[k]);
      GpuSeenExtends(Flat(chunks[..k]), chunks[k], ratio, seen, r.value);
      seen := seen + r.value;
    }
    assert chunks[..|chunks|] == chunks;
  }

  method RunReference(ratio: nat, chunks: seq<seq<Row>>) returns (seen: seq<Query>)
    requires forall i :: 0 <= i < |chunks| ==> 1 <= |chunks[i]| <= ReferenceChunk
    ensures seen == SeenFrom(Flat(chunks), ratio, 0, |Flat(chunks)|)
  {
    var layer := new ReferenceLayer(ratio);
    seen := [];
    for k := 0 to |chunks|
      invariant layer.Valid() && layer.ratio == ratio && layer.history == Flat(chunks[..k])
      invariant fresh(layer) && fresh(layer.ring) && fresh(layer.state)
      invariant seen == SeenFrom(Flat(chunks[..k]), ratio, 0, |Flat(chunks[..k])|)
    {
      assert chunks[..k + 1][..k] == chunks[..k];
      SeenExtends(Flat(chunks[..k]), chunks[k], ratio);
      var r := layer.Forward(chunks[k]);
      seen := seen + r.value;
    }
    assert chunks[..|chunks|] == chunks;
  }

  lemma AgreementIsExact(h: seq<Row>, ratio: nat, gpu: seq<Query>, reference: seq<Query>)
    requires GpuSeen(h, ratio, gpu)
    requires reference == SeenFrom(h, ratio, 0, |h|)
    ensures forall p :: 0 <= p < |h| ==> gpu[p].window == reference[p].window
    ensures gpu == reference <==> ratio <= 2 || |h| < ratio
  {
    forall p | 0 <= p < |h|
      ensures gpu[p].window == reference[p].window && (gpu[p] == reference[p] <==> ratio <= 2 || p + 1 < ratio)
    {
      GpuSeesRightly(h, ratio, p, gpu[p]);
    }
    if ratio > 2 && |h| >= ratio { assert gpu[|h| - 1] != reference[|h| - 1]; }
  }

  /** However a sequence is cut, the GPU and the reference read the same windows at every ratio, and the same compressed
      groups if and only if the ratio is at most 2 or no group is complete. */
  method GpuAgreesWithReference(ratio: nat, gpuChunks: seq<seq<Row>>, referenceChunks: seq<seq<Row>>)
      returns (gpu: seq<Query>, reference: seq<Query>)
    requires Flat(gpuChunks) == Flat(referenceChunks) && |Flat(gpuChunks)| <= Context
    requires forall i :: 0 <= i < |gpuChunks| ==> 1 <= |gpuChunks[i]| <= MaxChunk
    requires forall i :: 0 <= i < |referenceChunks| ==> 1 <= |referenceChunks[i]| <= ReferenceChunk
    ensures |gpu| == |reference| == |Flat(gpuChunks)|
    ensures forall p :: 0 <= p < |gpu| ==>
      reference[p] == Sees(Flat(gpuChunks), ratio, p) && gpu[p].window == reference[p].window
    ensures gpu == reference <==> ratio <= 2 || |Flat(gpuChunks)| < ratio
  {
    gpu := RunGpu(ratio, gpuChunks);
    reference := RunReference(ratio, referenceChunks);
    AgreementIsExact(Flat(gpuChunks), ratio, gpu, reference);
  }

  /** At ratio 3 the GPU pools two of the three rows. */
  method RatioThreeDisagrees(a: Row, b: Row, c: Row) returns (gpu: seq<Query>, reference: seq<Query>)
    ensures |gpu| == |reference| == 3 && gpu[2].compressed == [[a, b]] && reference[2].compressed == [[a, b, c]]
  {
    var chunk := [a, b, c];
    var chunks := [chunk];
    assert chunks[..0] == [];
    assert Flat(chunks) == Flat(chunks[..0]) + chunk == chunk;
    gpu := RunGpu(3, chunks);
    reference := RunReference(3, chunks);
    assert GpuSees(chunk, 3, 2, gpu[2]);
    assert GpuRow(chunk, 3, 0, gpu[2].compressed[0]);
    assert chunk[0..2] == [a, b] && Group(chunk, 3, 0) == chunk[0..3] == [a, b, c];
    assert reference[2] == Sees(chunk, 3, 2);
  }
}
