/** Replaying a routing trace through two exclusive LRU tiers. The tiers together behave as one LRU, so
    the hit counts are those of two plain LRU caches. */
module RouteReplay {
  import opened Options
  import opened Arithmetic

  // A (layer, expert) pair.
  type Key = (nat, nat)

  // ----- Recency lists, most recent first -----

  predicate NoDup(l: seq<Key>) { forall i, j :: 0 <= i < j < |l| ==> l[i] != l[j] }

  // `i` is where `k` is in the list, or the list's length if it is not there.
  ghost predicate FoundAt(l: seq<Key>, k: Key, i: nat) {
    i <= |l| && (i < |l| ==> l[i] == k) && forall j :: 0 <= j < i ==> l[j] != k
  }

  function Find(l: seq<Key>, k: Key): (i: nat)
    ensures FoundAt(l, k, i) && (i < |l| <==> k in l)
  {
    if l == [] || l[0] == k then 0 else Find(l[1..], k) + 1
  }

  lemma FindIs(l: seq<Key>, k: Key, i: nat)
    requires FoundAt(l, k, i)
    ensures Find(l, k) == i
  {}

  ghost predicate IsWithout(l: seq<Key>, r: seq<Key>, i: nat) {
    && |r| == (if i < |l| then |l| - 1 else |l|)
    && forall j {:trigger r[j]} :: 0 <= j < |r| ==> r[j] == if j < i then l[j] else l[j + 1]
  }

  ghost predicate IsPush(l: seq<Key>, r: seq<Key>, capacity: nat, k: Key) {
    && |r| == Min(|l| + 1, capacity)
    && forall j :: 0 <= j < |r| ==> r[j] == if j == 0 then k else l[j - 1]
  }

  ghost predicate IsToFront(l: seq<Key>, r: seq<Key>, k: Key, i: nat)
    requires i <= |l|
  {
    && |r| == (if i < |l| then |l| else |l| + 1)
    && forall j {:trigger r[j]} :: 0 <= j < |r| ==> r[j] == if j == 0 then k else if j <= i then l[j - 1] else l[j]
  }

  function Without(l: seq<Key>, k: Key): (r: seq<Key>)
    ensures IsWithout(l, r, Find(l, k))
  {
    var i := Find(l, k);
    var n := if i < |l| then |l| - 1 else |l|;
    seq(n, j requires 0 <= j < n => if j < i then l[j] else l[j + 1])
  }

  function Push(l: seq<Key>, capacity: nat, k: Key): (r: seq<Key>)
    ensures if capacity == 0 then r == l else IsPush(l, r, capacity, k)
  {
    if capacity == 0 then l
    else seq(Min(|l| + 1, capacity), j requires 0 <= j <= |l| => if j == 0 then k else l[j - 1])
  }

  function ToFront(l: seq<Key>, k: Key): (r: seq<Key>)
    ensures IsToFront(l, r, k, Find(l, k))
  {
    var i := Find(l, k);
    var n := if i < |l| then |l| else |l| + 1;
    seq(n, j requires 0 <= j < n => if j == 0 then k else if j <= i then l[j - 1] else l[j])
  }

  function Clip(l: seq<Key>, n: nat): (r: seq<Key>)
    ensures |r| == Min(n, |l|) && forall j :: 0 <= j < |r| ==> r[j] == l[j]
  {
    l[..Min(n, |l|)]
  }

  lemma FrontHasNoDup(l: seq<Key>, r: seq<Key>, k: Key, i: nat)
    requires NoDup(l) && FoundAt(l, k, i) && IsToFront(l, r, k, i)
    ensures NoDup(r)
  {
    assert i < |l| ==> forall j :: i < j < |l| ==> l[j] != k;
  }

  // All keys of the trace by recency: the unbounded LRU.
  ghost function Stack(trace: seq<Key>): (s: seq<Key>)
    ensures NoDup(s)
  {
    if trace == [] then [] else
      var n := |trace| - 1;
      var before := Stack(trace[..n]);
      FrontHasNoDup(before, ToFront(before, trace[n]), trace[n], Find(before, trace[n]));
      ToFront(before, trace[n])
  }

  // ----- A plain LRU cache of one size: the reference -----

  ghost function LruList(trace: seq<Key>, size: nat): seq<Key> {
    if trace == [] then [] else
      var n := |trace| - 1;
      Clip(ToFront(LruList(trace[..n], size), trace[n]), size)
  }

  ghost function LruHits(trace: seq<Key>, size: nat): nat {
    if trace == [] then 0 else
      var n := |trace| - 1;
      LruHits(trace[..n], size) + if trace[n] in LruList(trace[..n], size) then 1 else 0
  }

  lemma ClipOfFront(l: seq<Key>, l': seq<Key>, c: seq<Key>, c': seq<Key>, k: Key, i: nat, n: nat)
    requires |c| == Min(n, |l|) && forall j :: 0 <= j < |c| ==> c[j] == l[j]
    requires i <= |l| && IsToFront(l, l', k, i) && IsToFront(c, c', k, Min(i, |c|))
    ensures Clip(c', n) == Clip(l', n)
  {}

  lemma ClipToFront(l: seq<Key>, k: Key, n: nat)
    requires NoDup(l)
    ensures Clip(ToFront(Clip(l, n), k), n) == Clip(ToFront(l, k), n)
  {
    var i, c := Find(l, k), Clip(l, n);
    FindIs(c, k, Min(i, |c|));
    ClipOfFront(l, ToFront(l, k), c, ToFront(c, k), k, i, n);
  }

  /** An LRU of size n holds the n most recent keys. */
  lemma {:induction false} LruHoldsTheMostRecent(trace: seq<Key>, size: nat)
    ensures LruList(trace, size) == Clip(Stack(trace), size)
  {
    if trace != [] {
      var n := |trace| - 1;
      LruHoldsTheMostRecent(trace[..n], size);
      ClipToFront(Stack(trace[..n]), trace[n], size);
    }
  }

  /** Hits never fall as the capacity grows. */
  lemma {:induction false} MoreSlotsNeverHitLess(trace: seq<Key>, size: nat, larger: nat)
    requires size <= larger
    ensures LruHits(trace, size) <= LruHits(trace, larger) <= |trace|
  {
    if trace != [] {
      var n := |trace| - 1;
      MoreSlotsNeverHitLess(trace[..n], size, larger);
      LruHoldsTheMostRecent(trace[..n], size);
      LruHoldsTheMostRecent(trace[..n], larger);
    }
  }

  // ----- The two tiers on recency lists -----

  // What a full tier drops when `k` is inserted.
  function Evicted(l: seq<Key>, capacity: nat, k: Key): Option<Key> {
    if capacity == 0 then Some(k) else if |l| >= capacity then Some(l[|l| - 1]) else None
  }

  // One use: the lists after it. A key in neither tier comes from the drive.
  function TierStep(vram: seq<Key>, ram: seq<Key>, v: nat, r: nat, k: Key): (seq<Key>, seq<Key>) {
    if k in vram then (ToFront(vram, k), ram)
    else
      var rest := Without(ram, k);
      match Evicted(vram, v, k)
      case Some(e) => (Push(vram, v, k), Push(rest, r, e))
      case None => (Push(vram, v, k), rest)
  }

  // The tiers split the most recent V + R keys between them, in order.
  ghost predicate Split(vram: seq<Key>, ram: seq<Key>, stack: seq<Key>, v: nat, r: nat) {
    && |vram| == Min(v, |stack|) && |ram| == Min(v + r, |stack|) - |vram|
    && (forall j :: 0 <= j < |vram| ==> vram[j] == stack[j])
    && (forall j :: 0 <= j < |ram| ==> ram[j] == stack[|vram| + j])
  }

  // Where the tiers find a key follows from where the stack has it.
  lemma TiersFind(vram: seq<Key>, ram: seq<Key>, stack: seq<Key>, v: nat, r: nat, k: Key, i: nat)
    requires Split(vram, ram, stack, v, r) && FoundAt(stack, k, i)
    ensures FoundAt(vram, k, Min(i, |vram|))
    ensures i >= |vram| ==> FoundAt(ram, k, Min(i - |vram|, |ram|))
    ensures FoundAt(Clip(stack, v + r), k, Min(i, |vram| + |ram|))
  {}

  lemma VramHitKeepsSplit(
    vram: seq<Key>, vram': seq<Key>, ram: seq<Key>, stack: seq<Key>, stack': seq<Key>, v: nat, r: nat, k: Key, i: nat)
    requires Split(vram, ram, stack, v, r) && i < |vram|
    requires IsToFront(vram, vram', k, i) && IsToFront(stack, stack', k, i)
    ensures Split(vram', ram, stack', v, r)
  {}

  // A full tier passes its last key down; a tier with no slots passes `k` itself down.
  lemma FullTierKeepsSplit(
    vram: seq<Key>, vram': seq<Key>, ram: seq<Key>, rest: seq<Key>, ram': seq<Key>,
    stack: seq<Key>, stack': seq<Key>, v: nat, r: nat, k: Key, i: nat)
    requires Split(vram, ram, stack, v, r) && |vram| == v && v <= i <= |stack|
    requires IsToFront(stack, stack', k, i) && IsWithout(ram, rest, Min(i - v, |ram|))
    requires IsPush(vram, vram', v, k)
    requires if r == 0 then ram' == rest else IsPush(rest, ram', r, if v == 0 then k else vram[v - 1])
    ensures Split(vram', ram', stack', v, r)
  {}

  lemma FillingTierKeepsSplit(
    vram: seq<Key>, vram': seq<Key>, stack: seq<Key>, stack': seq<Key>, v: nat, r: nat, k: Key)
    requires Split(vram, [], stack, v, r) && |vram| < v
    requires IsToFront(stack, stack', k, |stack|) && IsPush(vram, vram', v, k)
    ensures Split(vram', [], stack', v, r)
  {}

  lemma MissInFillingTier(vram: seq<Key>, ram: seq<Key>, stack: seq<Key>, v: nat, r: nat, k: Key)
    requires Split(vram, ram, stack, v, r) && |vram| < v && k !in stack
    ensures Split(Push(vram, v, k), Without(ram, k), ToFront(stack, k), v, r)
  {
    assert ram == [];
    assert Without(ram, k) == [];
    FillingTierKeepsSplit(vram, Push(vram, v, k), stack, ToFront(stack, k), v, r, k);
  }

  lemma MissInFullTier(vram: seq<Key>, ram: seq<Key>, stack: seq<Key>, v: nat, r: nat, k: Key, down: Key)
    requires Split(vram, ram, stack, v, r) && |vram| == v <= Find(stack, k)
    requires Find(ram, k) == Min(Find(stack, k) - v, |ram|) && down == if v == 0 then k else vram[v - 1]
    ensures Split(Push(vram, v, k), Push(Without(ram, k), r, down), ToFront(stack, k), v, r)
  {
    var rest := Without(ram, k);
    FullTierMoves(vram, Push(vram, v, k), ram, rest, Push(rest, r, down), stack, ToFront(stack, k), v, r, k, down) by {
      PushIntoFull(vram, v, k);
      WithoutIs(ram, k);
      PushIs(rest, r, down);
      ToFrontIs(stack, k);
    }
  }

  lemma FullTierMoves(
    vram: seq<Key>, vram': seq<Key>, ram: seq<Key>, rest: seq<Key>, ram': seq<Key>,
    stack: seq<Key>, stack': seq<Key>, v: nat, r: nat, k: Key, down: Key)
    requires Split(vram, ram, stack, v, r) && |vram| == v <= Find(stack, k)
    requires Find(ram, k) == Min(Find(stack, k) - v, |ram|) && down == if v == 0 then k else vram[v - 1]
    requires IsPush(vram, vram', v, k) && IsWithout(ram, rest, Find(ram, k))
    requires IsToFront(stack, stack', k, Find(stack, k))
    requires if r == 0 then ram' == rest else IsPush(rest, ram', r, down)
    ensures Split(vram', ram', stack', v, r)
  {
    FullTierKeepsSplit(vram, vram', ram, rest, ram', stack, stack', v, r, k, Find(stack, k));
  }

  lemma WithoutIs(l: seq<Key>, k: Key)
    ensures IsWithout(l, Without(l, k), Find(l, k))
  {}

  lemma PushIs(l: seq<Key>, capacity: nat, k: Key)
    ensures if capacity == 0 then Push(l, capacity, k) == l else IsPush(l, Push(l, capacity, k), capacity, k)
  {}

  lemma ToFrontIs(l: seq<Key>, k: Key)
    ensures FoundAt(l, k, Find(l, k)) && IsToFront(l, ToFront(l, k), k, Find(l, k))
  {}

  lemma PushIntoFull(l: seq<Key>, capacity: nat, k: Key)
    requires |l| == capacity
    ensures IsPush(l, Push(l, capacity, k), capacity, k)
  {}

  lemma StepKeepsSplit(vram: seq<Key>, ram: seq<Key>, stack: seq<Key>, v: nat, r: nat, k: Key)
    requires Split(vram, ram, stack, v, r)
    ensures var (vram', ram') := TierStep(vram, ram, v, r, k); Split(vram', ram', ToFront(stack, k), v, r)
    ensures k in vram <==> k in Clip(stack, v)
    ensures k in vram || k in ram <==> k in Clip(stack, v + r)
  {
    var i := Find(stack, k);
    TiersFind(vram, ram, stack, v, r, k, i);
    FindIs(vram, k, Min(i, |vram|));
    FindIs(Clip(stack, v + r), k, Min(i, |vram| + |ram|));
    assert vram == Clip(stack, v);
    if k in vram {
      VramHitKeepsSplit(vram, ToFront(vram, k), ram, stack, ToFront(stack, k), v, r, k, i);
    } else {
      FindIs(ram, k, Min(i - |vram|, |ram|));
      if |vram| < v {
        MissInFillingTier(vram, ram, stack, v, r, k);
      } else {
        MissInFullTier(vram, ram, stack, v, r, k, if v == 0 then k else vram[v - 1]);
      }
    }
  }

  /** The exclusive tiers hold no key twice. */
  lemma TiersAreDisjoint(vram: seq<Key>, ram: seq<Key>, stack: seq<Key>, v: nat, r: nat)
    requires Split(vram, ram, stack, v, r) && NoDup(stack)
    ensures NoDup(vram) && NoDup(ram) && forall k :: k in vram ==> k !in ram
  {
    forall k | k in vram ensures k !in ram {
      var i :| 0 <= i < |vram| && vram[i] == k;
      assert forall j :: 0 <= j < |ram| ==> ram[j] != stack[i];
    }
    assert forall i, j :: 0 <= i < j < |ram| ==> ram[i] == stack[|vram| + i] && ram[j] == stack[|vram| + j];
  }

  // ----- The tick-stamped cache of the code -----

  ghost predicate SameKeys(entries: map<Key, nat>, order: seq<Key>) {
    NoDup(order) && |entries| == |order| && forall i :: 0 <= i < |order| ==> order[i] in entries
  }

  ghost function Elements(l: seq<Key>): set<Key> { if l == [] then {} else Elements(l[1..]) + {l[0]} }

  lemma {:induction false} ElementsAre(l: seq<Key>, k: Key)
    requires NoDup(l)
    ensures (k in Elements(l) <==> k in l) && |Elements(l)| == |l|
  {
    if l != [] {
      ElementsAre(l[1..], k);
      ElementsAre(l[1..], l[0]);
      assert l[0] !in l[1..];
    }
  }

  lemma Membership(entries: map<Key, nat>, order: seq<Key>, k: Key)
    requires SameKeys(entries, order)
    ensures k in entries <==> k in order
  {
    forall x | x in Elements(order) ensures x in entries.Keys { ElementsAre(order, x); }
    ElementsAre(order, k);
    assert |entries.Keys| == |Elements(order)|;
    SameSizeSubset(Elements(order), entries.Keys);
  }

  lemma {:induction false} SameSizeSubset(a: set<Key>, b: set<Key>)
    requires a <= b && |a| == |b|
    ensures a == b
  {
    if x :| x in a { SameSizeSubset(a - {x}, b - {x}); }
  }

  ghost predicate Falling(entries: map<Key, nat>, tick: nat, order: seq<Key>)
    requires forall i :: 0 <= i < |order| ==> order[i] in entries
  {
    && (forall i :: 0 <= i < |order| ==> entries[order[i]] <= tick)
    && (forall i, j :: 0 <= i < j < |order| ==> entries[order[j]] < entries[order[i]])
  }

  // The map's stamps put its keys in this order, most recent first.
  ghost predicate Stamped(entries: map<Key, nat>, tick: nat, order: seq<Key>) {
    SameKeys(entries, order) && Falling(entries, tick, order)
  }

  lemma TouchKeepsKeys(entries: map<Key, nat>, order: seq<Key>, order': seq<Key>, k: Key, i: nat, stamp: nat)
    requires SameKeys(entries, order) && FoundAt(order, k, i) && i < |order| && IsToFront(order, order', k, i)
    ensures SameKeys(entries[k := stamp], order')
  {
    FrontHasNoDup(order, order', k, i);
    assert entries[k := stamp].Keys == entries.Keys;
    assert |entries[k := stamp]| == |entries[k := stamp].Keys| && |entries| == |entries.Keys|;
  }

  lemma TouchKeepsFalling(entries: map<Key, nat>, tick: nat, order: seq<Key>, order': seq<Key>, k: Key, i: nat)
    requires Stamped(entries, tick, order) && FoundAt(order, k, i) && i < |order| && IsToFront(order, order', k, i)
    requires SameKeys(entries[k := tick + 1], order')
    ensures Falling(entries[k := tick + 1], tick + 1, order')
  {
    var entries' := entries[k := tick + 1];
    forall a, b | 0 <= a < b < |order'| ensures entries'[order'[b]] < entries'[order'[a]] {
      var y := if b <= i then b - 1 else b;
      assert order'[0] == k && order'[b] == order[y] != k;
      if a > 0 {
        var x := if a <= i then a - 1 else a;
        assert order'[a] == order[x] != k && x < y;
      }
    }
  }

  lemma RemoveKeepsKeys(entries: map<Key, nat>, order: seq<Key>, order': seq<Key>, k: Key, i: nat)
    requires SameKeys(entries, order) && FoundAt(order, k, i) && IsWithout(order, order', i)
    ensures SameKeys(entries - {k}, order')
  {
    Membership(entries, order, k);
    assert (entries - {k}).Keys == entries.Keys - {k};
    assert |entries - {k}| == |(entries - {k}).Keys| && |entries| == |entries.Keys|;
    assert forall j :: 0 <= j < |order| && j != i ==> order[j] != k;
  }

  lemma RemoveKeepsFalling(entries: map<Key, nat>, tick: nat, order: seq<Key>, order': seq<Key>, k: Key, i: nat)
    requires Stamped(entries, tick, order) && FoundAt(order, k, i) && IsWithout(order, order', i)
    requires SameKeys(entries - {k}, order')
    ensures Falling(entries - {k}, tick, order')
  {
    var entries' := entries - {k};
    forall a, b | 0 <= a < b < |order'| ensures entries'[order'[b]] < entries'[order'[a]] {
      var x, y := if a < i then a else a + 1, if b < i then b else b + 1;
      assert order'[a] == order[x] && order'[b] == order[y] && x < y;
    }
  }

  lemma InsertKeepsKeys(entries: map<Key, nat>, order: seq<Key>, order': seq<Key>, k: Key, stamp: nat)
    requires SameKeys(entries, order) && k !in order && IsPush(order, order', |order| + 1, k)
    ensures SameKeys(entries[k := stamp], order')
  {
    Membership(entries, order, k);
    assert entries[k := stamp].Keys == entries.Keys + {k};
    assert |entries[k := stamp]| == |entries[k := stamp].Keys| && |entries| == |entries.Keys|;
  }

  lemma InsertKeepsFalling(entries: map<Key, nat>, tick: nat, order: seq<Key>, order': seq<Key>, k: Key)
    requires Stamped(entries, tick, order) && k !in order && IsPush(order, order', |order| + 1, k)
    requires SameKeys(entries[k := tick + 1], order')
    ensures Falling(entries[k := tick + 1], tick + 1, order')
  {
    var entries' := entries[k := tick + 1];
    forall a, b | 0 <= a < b < |order'| ensures entries'[order'[b]] < entries'[order'[a]] {
      assert order'[b] == order[b - 1] && (a > 0 ==> order'[a] == order[a - 1]);
    }
  }

  lemma TouchKeepsStamps(entries: map<Key, nat>, tick: nat, order: seq<Key>, order': seq<Key>, k: Key, i: nat)
    requires Stamped(entries, tick, order) && FoundAt(order, k, i) && i < |order| && IsToFront(order, order', k, i)
    ensures Stamped(entries[k := tick + 1], tick + 1, order')
  {
    TouchKeepsKeys(entries, order, order', k, i, tick + 1);
    TouchKeepsFalling(entries, tick, order, order', k, i);
  }

  lemma RemoveKeepsStamps(entries: map<Key, nat>, tick: nat, order: seq<Key>, order': seq<Key>, k: Key, i: nat)
    requires Stamped(entries, tick, order) && FoundAt(order, k, i) && IsWithout(order, order', i)
    ensures Stamped(entries - {k}, tick, order')
  {
    RemoveKeepsKeys(entries, order, order', k, i);
    RemoveKeepsFalling(entries, tick, order, order', k, i);
  }

  lemma InsertKeepsStamps(entries: map<Key, nat>, tick: nat, order: seq<Key>, order': seq<Key>, k: Key)
    requires Stamped(entries, tick, order) && k !in order && IsPush(order, order', |order| + 1, k)
    ensures Stamped(entries[k := tick + 1], tick + 1, order')
  {
    InsertKeepsKeys(entries, order, order', k, tick + 1);
    InsertKeepsFalling(entries, tick, order, order', k);
  }

  lemma PushAfterDrop(order: seq<Key>, capacity: nat, k: Key)
    requires 0 < capacity == |order|
    ensures Push(order[..capacity - 1], capacity, k) == Push(order, capacity, k)
  {}

  lemma LaterTick(entries: map<Key, nat>, tick: nat, order: seq<Key>)
    requires Stamped(entries, tick, order)
    ensures Stamped(entries, tick + 1, order)
  {}

  // What each operation does to the recency order, with the stamps that keep it.
  lemma Touched(entries: map<Key, nat>, tick: nat, order: seq<Key>, k: Key) returns (after: seq<Key>)
    requires Stamped(entries, tick, order) && k in order
    ensures after == ToFront(order, k) && |after| == |order| && Stamped(entries[k := tick + 1], tick + 1, after)
  {
    after := ToFront(order, k);
    TouchKeepsStamps(entries, tick, order, after, k, Find(order, k));
  }

  lemma Removed(entries: map<Key, nat>, tick: nat, order: seq<Key>, k: Key) returns (after: seq<Key>)
    requires Stamped(entries, tick, order)
    ensures after == Without(order, k) && |after| <= |order| && Stamped(entries - {k}, tick, after)
    ensures (k in entries <==> k in order)
  {
    after := Without(order, k);
    Membership(entries, order, k);
    RemoveKeepsStamps(entries, tick, order, after, k, Find(order, k));
  }

  lemma LastRemoved(entries: map<Key, nat>, tick: nat, order: seq<Key>, k: Key) returns (after: seq<Key>)
    requires Stamped(entries, tick, order) && order != [] && k == order[|order| - 1]
    ensures after == order[..|order| - 1] && Stamped(entries - {k}, tick, after)
  {
    after := order[..|order| - 1];
    LastIsFound(order, k);
    RemoveKeepsStamps(entries, tick, order, after, k, |order| - 1);
  }

  lemma LastIsFound(order: seq<Key>, k: Key)
    requires NoDup(order) && order != [] && k == order[|order| - 1]
    ensures FoundAt(order, k, |order| - 1) && IsWithout(order, order[..|order| - 1], |order| - 1)
  {}

  lemma Inserted(entries: map<Key, nat>, tick: nat, order: seq<Key>, capacity: nat, k: Key) returns (after: seq<Key>)
    requires Stamped(entries, tick, order) && k !in order && |order| < capacity
    ensures after == Push(order, capacity, k) && |after| <= capacity && Stamped(entries[k := tick + 1], tick + 1, after)
  {
    after := Push(order, capacity, k);
    InsertKeepsStamps(entries, tick, order, after, k);
  }

  class Lru {
    const capacity: nat
    var tick: nat
    var entries: map<Key, nat>
    ghost var order: seq<Key>

    ghost predicate Valid()
      reads this
    {
      Stamped(entries, tick, order) && |order| <= capacity
    }

    constructor (capacity: nat)
      ensures Valid() && order == [] && this.capacity == capacity
    {
      this.capacity := capacity;
      tick, entries, order := 0, map[], [];
    }

    method Touch(key: Key) returns (hit: bool)
      requires Valid()
      modifies this
      ensures Valid() && hit == (key in old(order))
      ensures order == if hit then ToFront(old(order), key) else old(order)
    {
      hit := key in entries;
      Membership(entries, order, key);
      if hit {
        Restamp(key);
      } else {
        LaterTick(entries, tick, order);
        tick := tick + 1;
      }
    }

    method Restamp(key: Key)
      requires Valid() && key in order
      modifies this
      ensures Valid() && order == ToFront(old(order), key)
    {
      ghost var front := Touched(entries, tick, order, key);
      tick := tick + 1;
      entries := entries[key := tick];
      order := front;
    }

    method Remove(key: Key) returns (found: bool)
      requires Valid()
      modifies this
      ensures Valid() && found == (key in old(order)) && order == Without(old(order), key)
    {
      found := key in entries;
      ghost var rest := Removed(entries, tick, order, key);
      entries := entries - {key};
      order := rest;
    }

    // The entry with the least stamp, whatever order the map yields its entries in.
    method Oldest() returns (oldest: Key)
      requires Valid() && order != []
      ensures oldest == order[|order| - 1]
    {
      var rest := entries.Keys;
      assert order[0] in rest;
      oldest :| oldest in rest;
      rest := rest - {oldest};
      while rest != {}
        invariant oldest in entries && rest <= entries.Keys
        invariant forall k :: k in entries && k !in rest ==> entries[oldest] <= entries[k]
        decreases rest
      {
        var k :| k in rest;
        if entries[k] < entries[oldest] {
          oldest := k;
        }
        rest := rest - {k};
      }
      Membership(entries, order, oldest);
      var i := Find(order, oldest);
      assert entries[oldest] <= entries[order[|order| - 1]];
    }

    method DropOldest() returns (oldest: Key)
      requires Valid() && order != []
      modifies this
      ensures Valid() && oldest == old(order)[|old(order)| - 1] && order == old(order)[..|old(order)| - 1]
    {
      oldest := Oldest();
      ghost var rest := LastRemoved(entries, tick, order, oldest);
      entries := entries - {oldest};
      order := rest;
    }

    method Add(key: Key)
      requires Valid() && key !in order && |order| < capacity
      modifies this
      ensures Valid() && order == Push(old(order), capacity, key)
    {
      ghost var after := Inserted(entries, tick, order, capacity, key);
      tick := tick + 1;
      entries := entries[key := tick];
      order := after;
    }

    // A full cache gives up its oldest key.
    method MakeRoom(key: Key) returns (evicted: Option<Key>)
      requires Valid() && key !in order && capacity > 0
      modifies this
      ensures Valid() && key !in order && |order| < capacity && evicted == Evicted(old(order), capacity, key)
      ensures Push(order, capacity, key) == Push(old(order), capacity, key)
    {
      evicted := None;
      if |entries| >= capacity {
        PushAfterDrop(order, capacity, key);
        var oldest := DropOldest();
        evicted := Some(oldest);
      }
    }

    // Insert a key that is not here and return what fell out.
    method Insert(key: Key) returns (evicted: Option<Key>)
      requires Valid() && key !in order
      modifies this
      ensures Valid() && evicted == Evicted(old(order), capacity, key)
      ensures order == Push(old(order), capacity, key)
    {
      if capacity == 0 {
        return Some(key);
      }
      evicted := MakeRoom(key);
      Add(key);
    }
  }

  datatype TierHits = TierHits(vram: nat, ram: nat, drive: nat)

  lemma NotBack(l: seq<Key>, k: Key, x: Key)
    requires NoDup(l) && (x !in l || x == k)
    ensures x !in Without(l, k)
  {
    var r := Without(l, k);
    forall j | 0 <= j < |r| ensures r[j] != x { assert r[j] in l && r[j] != k; }
  }

  // One routed use: which tier served it, and both tiers after it.
  method Serve(vram: Lru, ram: Lru, key: Key) returns (inVram: bool, inRam: bool)
    requires vram != ram && vram.Valid() && ram.Valid() && forall k :: k in vram.order ==> k !in ram.order
    modifies vram, ram
    ensures vram.Valid() && ram.Valid()
    ensures inVram == (key in old(vram.order)) && inRam == (key in old(ram.order) && !inVram)
    ensures (vram.order, ram.order) == TierStep(old(vram.order), old(ram.order), vram.capacity, ram.capacity, key)
  {
    inRam := false;
    inVram := vram.Touch(key);
    if !inVram {
      inRam := ram.Remove(key);
      var evicted := vram.Insert(key);
      if evicted.Some? {
        NotBack(old(ram.order), key, evicted.value);
        var dropped := ram.Insert(evicted.value);
      }
    }
  }

  // What one more use does to the tiers and to the two reference counts.
  lemma ReplayStep(trace: seq<Key>, n: nat, vram: seq<Key>, ram: seq<Key>, v: nat, r: nat)
    requires n < |trace| && Split(vram, ram, Stack(trace[..n]), v, r)
    ensures var (vram', ram') := TierStep(vram, ram, v, r, trace[n]); Split(vram', ram', Stack(trace[..n + 1]), v, r)
    ensures LruHits(trace[..n + 1], v) == LruHits(trace[..n], v) + if trace[n] in vram then 1 else 0
    ensures LruHits(trace[..n + 1], v + r) == LruHits(trace[..n], v + r) + if trace[n] in vram || trace[n] in ram then 1
      else 0
    ensures forall k :: k in vram ==> k !in ram
  {
    assert trace[..n + 1][..n] == trace[..n] && trace[..n + 1][n] == trace[n];
    LruHoldsTheMostRecent(trace[..n], v);
    LruHoldsTheMostRecent(trace[..n], v + r);
    StepKeepsSplit(vram, ram, Stack(trace[..n]), v, r, trace[n]);
    TiersAreDisjoint(vram, ram, Stack(trace[..n]), v, r);
  }

  /** The replay: its counts are those of a plain LRU of V slots and a plain LRU of V + R slots. */
  method Replay(trace: seq<Key>, vramSlots: nat, ramSlots: nat) returns (hits: TierHits)
    ensures hits.vram == LruHits(trace, vramSlots)
    ensures hits.vram + hits.ram == LruHits(trace, vramSlots + ramSlots)
    ensures hits.vram + hits.ram + hits.drive == |trace|
  {
    var vram := new Lru(vramSlots);
    var ram := new Lru(ramSlots);
    hits := TierHits(0, 0, 0);
    for n := 0 to |trace|
      invariant vram != ram && fresh(vram) && fresh(ram) && vram.Valid() && ram.Valid()
      invariant vram.capacity == vramSlots && ram.capacity == ramSlots
      invariant Split(vram.order, ram.order, Stack(trace[..n]), vramSlots, ramSlots)
      invariant hits.vram == LruHits(trace[..n], vramSlots)
      invariant hits.vram + hits.ram == LruHits(trace[..n], vramSlots + ramSlots)
      invariant hits.vram + hits.ram + hits.drive == n
    {
      ReplayStep(trace, n, vram.order, ram.order, vramSlots, ramSlots);
      var inVram, inRam := Serve(vram, ram, trace[n]);
      if inVram {
        hits := hits.(vram := hits.vram + 1);
      } else if inRam {
        hits := hits.(ram := hits.ram + 1);
      } else {
        hits := hits.(drive := hits.drive + 1);
      }
    }
    assert trace[..|trace|] == trace;
  }
}
