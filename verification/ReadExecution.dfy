/** Running a read plan. Coalesced reading, in any order of its tasks, leaves the memory exactly as
    reading the extents one by one would. */
module ReadExecution {
  import opened Arithmetic
  import opened ReadPlanner

  type Memory = seq<Byte>
  type Shards = seq<seq<Byte>>

  predicate Readable(shards: Shards, r: Read) { r.shard < |shards| && r.End() <= |shards[r.shard]| }

  predicate InMemory(r: Read, m: Memory) { r.dst + r.len <= |m| }

  // An empty read asks for nothing, whatever shard or address it names.
  predicate CanRead(shards: Shards, r: Read, m: Memory) { r.len > 0 ==> Readable(shards, r) && InMemory(r, m) }

  function Wanted(shards: Shards, r: Read): seq<Byte>
    requires Readable(shards, r)
  {
    shards[r.shard][r.offset..r.End()]
  }

  function CopyTo(m: Memory, at: nat, bytes: seq<Byte>): (after: Memory)
    requires at + |bytes| <= |m|
    ensures |after| == |m|
    ensures forall a :: 0 <= a < |m| ==> after[a] == if at <= a < at + |bytes| then bytes[a - at] else m[a]
  {
    m[..at] + bytes + m[at + |bytes|..]
  }

  ghost predicate AllReadable(shards: Shards, list: seq<Read>, m: Memory) {
    forall i :: 0 <= i < |list| ==> CanRead(shards, list[i], m)
  }

  // Simple reading: each read copied straight to its destination, in order.
  ghost function ReadEach(shards: Shards, list: seq<Read>, m: Memory): (after: Memory)
    requires AllReadable(shards, list, m)
    ensures |after| == |m|
  {
    if list == [] then m
    else
      var n := |list| - 1;
      var before := ReadEach(shards, list[..n], m);
      assert CanRead(shards, list[n], m);
      if list[n].len == 0 then before else CopyTo(before, list[n].dst, Wanted(shards, list[n]))
  }

  // ----- One task -----

  method CopyIn(bytes: seq<Byte>, mem: array<Byte>, dst: nat)
    requires dst + |bytes| <= mem.Length
    modifies mem
    ensures mem[..] == CopyTo(old(mem[..]), dst, bytes)
  {
    for i := 0 to |bytes|
      invariant forall a :: 0 <= a < mem.Length ==>
                  mem[a] == if dst <= a < dst + i then bytes[a - dst] else old(mem[a])
    {
      mem[dst + i] := bytes[i];
    }
  }

  // A buffer filled from file offset `at` holds the bytes of a sub-read.
  predicate Bounced(shards: Shards, op: Read, at: nat, bounce: seq<Byte>) {
    && Readable(shards, op) && at <= op.offset && op.End() - at <= |bounce|
    && bounce[op.offset - at..op.End() - at] == Wanted(shards, op)
  }

  // The bounce buffer holds the bytes of every sub-read of the task.
  lemma BounceHolds(shards: Shards, ops: seq<Read>, task: Task, k: nat, bounce: seq<Byte>)
    requires TaskOk(ops, task) && task.shard < |shards| && task.first <= k < task.last
    requires task.RequiredEnd() <= |shards[task.shard]|
    requires var file := shards[task.shard];
      bounce == file[task.alignedOffset..Min(task.alignedOffset + task.alignedLen, |file|)]
    ensures Bounced(shards, ops[k], task.alignedOffset, bounce)
  {
    var file, at, rel := shards[task.shard], task.alignedOffset, ops[k].offset - task.alignedOffset;
    assert at + |bounce| >= task.RequiredEnd() >= ops[k].End();
    assert forall i :: 0 <= i < |bounce| ==> bounce[i] == file[at + i];
    assert |Wanted(shards, ops[k])| == ops[k].len;
  }

  lemma ReadOneMore(shards: Shards, list: seq<Read>, j: nat, m: Memory)
    requires AllReadable(shards, list, m) && j < |list| && Readable(shards, list[j]) && InMemory(list[j], m)
    ensures ReadEach(shards, list[..j + 1], m) ==
      CopyTo(ReadEach(shards, list[..j], m), list[j].dst, Wanted(shards, list[j]))
  {
    assert list[..j + 1][..j] == list[..j] && list[..j + 1][j] == list[j];
  }

  // The chunk is read into the bounce buffer and scattered. A shard that ends before the task's
  // required length fails the task and leaves memory alone.
  method Execute(shards: Shards, ops: seq<Read>, task: Task, mem: array<Byte>) returns (ok: bool)
    requires TaskOk(ops, task) && task.shard < |shards|
    requires forall i :: task.first <= i < task.last ==> InMemory(ops[i], mem[..])
    modifies mem
    ensures ok <==> task.RequiredEnd() <= |shards[task.shard]|
    ensures !ok ==> mem[..] == old(mem[..])
    ensures ok ==> AllReadable(shards, ops[task.first..task.last], old(mem[..]))
                   && mem[..] == ReadEach(shards, ops[task.first..task.last], old(mem[..]))
  {
    var file := shards[task.shard];
    if |file| < task.RequiredEnd() {
      return false;
    }
    var bounce := file[task.alignedOffset..Min(task.alignedOffset + task.alignedLen, |file|)];
    assert AllReadable(shards, ops[task.first..task.last], mem[..]);
    forall k | task.first <= k < task.last ensures Bounced(shards, ops[k], task.alignedOffset, bounce) {
      BounceHolds(shards, ops, task, k, bounce);
    }
    Scatter(shards, ops[task.first..task.last], task.alignedOffset, bounce, mem);
    return true;
  }

  // Sub-reads copied from the bounce buffer one after the other.
  method Scatter(ghost shards: Shards, list: seq<Read>, at: nat, bounce: seq<Byte>, mem: array<Byte>)
    requires AllReadable(shards, list, mem[..])
    requires forall k :: 0 <= k < |list| ==> Bounced(shards, list[k], at, bounce) && InMemory(list[k], mem[..])
    modifies mem
    ensures mem[..] == ReadEach(shards, list, old(mem[..]))
  {
    for k := 0 to |list|
      invariant mem[..] == ReadEach(shards, list[..k], old(mem[..]))
    {
      assert Bounced(shards, list[k], at, bounce) && InMemory(list[k], old(mem[..]));
      ReadOneMore(shards, list, k, old(mem[..]));
      CopyIn(bounce[list[k].offset - at..list[k].End() - at], mem, list[k].dst);
    }
    assert list[..|list|] == list;
  }

  // ----- Reading towards a target -----

  // The byte that read `r` brings to address `a`.
  function ByteAt(shards: Shards, r: Read, a: nat): Byte
    requires Readable(shards, r) && Touches(r, a)
  {
    shards[r.shard][r.offset + (a - r.dst)]
  }

  predicate Touches(r: Read, a: nat) { r.dst <= a < r.dst + r.len }

  ghost predicate Holds(shards: Shards, r: Read, m: Memory) {
    Readable(shards, r) && InMemory(r, m) && forall a :: r.dst <= a < r.dst + r.len ==> m[a] == ByteAt(shards, r, a)
  }

  // Every address of `y` is as in `x`, or already as in the target.
  ghost predicate Toward(x: Memory, y: Memory, target: Memory) {
    |x| == |y| == |target| && forall a :: 0 <= a < |x| ==> y[a] == x[a] || y[a] == target[a]
  }

  lemma TowardKeepsReads(shards: Shards, r: Read, x: Memory, y: Memory, target: Memory)
    requires Holds(shards, r, x) && Holds(shards, r, target) && Toward(x, y, target)
    ensures Holds(shards, r, y)
  {
    assert forall a: nat :: Touches(r, a) ==> y[a] == x[a] || y[a] == target[a];
  }

  lemma CopyGoesToward(shards: Shards, r: Read, x: Memory, target: Memory)
    requires |x| == |target| && Holds(shards, r, target)
    ensures var y := CopyTo(x, r.dst, Wanted(shards, r)); Toward(x, y, target) && Holds(shards, r, y)
  {
    assert forall a :: r.dst <= a < r.dst + r.len ==> Wanted(shards, r)[a - r.dst] == ByteAt(shards, r, a);
  }

  lemma TowardComposes(x: Memory, y: Memory, z: Memory, target: Memory)
    requires Toward(x, y, target) && Toward(y, z, target)
    ensures Toward(x, z, target)
  {}

  lemma {:induction false} ReadsGoToward(shards: Shards, list: seq<Read>, m: Memory, target: Memory)
    requires AllReadable(shards, list, m) && |m| == |target|
    requires forall i :: 0 <= i < |list| ==> Holds(shards, list[i], target)
    ensures Toward(m, ReadEach(shards, list, m), target)
    ensures forall i :: 0 <= i < |list| ==> Holds(shards, list[i], ReadEach(shards, list, m))
  {
    if list != [] {
      var n := |list| - 1;
      var before := ReadEach(shards, list[..n], m);
      var after := ReadEach(shards, list, m);
      ReadsGoToward(shards, list[..n], m, target);
      assert Holds(shards, list[n], target);
      CopyGoesToward(shards, list[n], before, target);
      TowardComposes(m, before, after, target);
      forall i | 0 <= i < n ensures Holds(shards, list[i], after) {
        assert Holds(shards, list[..n][i], before);
        TowardKeepsReads(shards, list[i], before, after, target);
      }
    }
  }

  // ----- Simple reading of disjoint extents -----

  predicate Apart(a: Read, b: Read) { a.dst + a.len <= b.dst || b.dst + b.len <= a.dst }

  // Extents that ask for something go to different places.
  ghost predicate Disjoint(items: seq<Read>) {
    forall i, j :: 0 <= i < j < |items| && items[i].len > 0 && items[j].len > 0 ==> Apart(items[i], items[j])
  }

  lemma CopyDelivers(shards: Shards, r: Read, x: Memory)
    requires Readable(shards, r) && InMemory(r, x)
    ensures Holds(shards, r, CopyTo(x, r.dst, Wanted(shards, r)))
  {
    assert forall a: nat :: Touches(r, a) ==> Wanted(shards, r)[a - r.dst] == ByteAt(shards, r, a);
  }

  lemma CopyLeavesApartReads(shards: Shards, r: Read, other: Read, x: Memory)
    requires Readable(shards, r) && InMemory(r, x) && Holds(shards, other, x) && Apart(other, r)
    ensures Holds(shards, other, CopyTo(x, r.dst, Wanted(shards, r)))
  {}

  lemma {:induction false} SimpleReadingDelivers(shards: Shards, items: seq<Read>, m: Memory, k: nat)
    requires Disjoint(items) && AllReadable(shards, items, m) && k < |items| && items[k].len > 0
    ensures Holds(shards, items[k], ReadEach(shards, items, m))
  {
    var n := |items| - 1;
    var before := ReadEach(shards, items[..n], m);
    assert CanRead(shards, items[n], m);
    if k == n {
      CopyDelivers(shards, items[n], before);
    } else {
      SimpleReadingDelivers(shards, items[..n], m, k);
      assert items[..n][k] == items[k];
      if items[n].len > 0 { CopyLeavesApartReads(shards, items[n], items[k], before); }
    }
  }

  lemma {:induction false} SimpleReadingTouchesNothingElse(shards: Shards, items: seq<Read>, m: Memory, a: nat)
    requires AllReadable(shards, items, m) && a < |m|
    requires forall k :: 0 <= k < |items| ==> !Touches(items[k], a)
    ensures ReadEach(shards, items, m)[a] == m[a]
  {
    if items != [] {
      var n := |items| - 1;
      SimpleReadingTouchesNothingElse(shards, items[..n], m, a);
      assert !Touches(items[n], a);
    }
  }

  lemma PartHolds(shards: Shards, piece: Read, whole: Read, m: Memory)
    requires PartOf(piece, whole) && Holds(shards, whole, m)
    ensures Holds(shards, piece, m)
  {
    assert forall a :: Touches(piece, a) ==> ByteAt(shards, piece, a) == ByteAt(shards, whole, a);
  }

  // ----- All tasks, in any order -----

  ghost predicate AllTasksOk(ops: seq<Read>, tasks: seq<Task>, order: seq<nat>) {
    && (forall i :: 0 <= i < |tasks| ==> TaskOk(ops, tasks[i]))
    && (forall i :: 0 <= i < |order| ==> order[i] < |tasks|)
  }

  ghost function RunTasks(shards: Shards, ops: seq<Read>, tasks: seq<Task>, order: seq<nat>, m: Memory): (after: Memory)
    requires AllReadable(shards, ops, m) && AllTasksOk(ops, tasks, order)
    ensures |after| == |m|
  {
    if order == [] then m
    else
      var n := |order| - 1;
      var t := tasks[order[n]];
      assert TaskOk(ops, t);
      ReadEach(shards, ops[t.first..t.last], RunTasks(shards, ops, tasks, order[..n], m))
  }

  ghost predicate TaskHolds(shards: Shards, ops: seq<Read>, t: Task, m: Memory)
    requires t.last <= |ops|
  {
    forall i :: t.first <= i < t.last ==> Holds(shards, ops[i], m)
  }

  lemma {:induction false} TasksGoToward(
    shards: Shards, ops: seq<Read>, tasks: seq<Task>, order: seq<nat>, m: Memory, target: Memory)
    requires AllReadable(shards, ops, m) && |m| == |target| && AllTasksOk(ops, tasks, order)
    requires forall i :: 0 <= i < |ops| ==> Holds(shards, ops[i], target)
    ensures Toward(m, RunTasks(shards, ops, tasks, order, m), target)
    ensures forall k :: 0 <= k < |order| ==>
      TaskHolds(shards, ops, tasks[order[k]], RunTasks(shards, ops, tasks, order, m))
  {
    if order != [] {
      var n := |order| - 1;
      var t := tasks[order[n]];
      assert TaskOk(ops, t) && AllTasksOk(ops, tasks, order[..n]);
      var before := RunTasks(shards, ops, tasks, order[..n], m);
      var after := RunTasks(shards, ops, tasks, order, m);
      TasksGoToward(shards, ops, tasks, order[..n], m, target);
      TaskGoesToward(shards, ops, t, before, target);
      TowardComposes(m, before, after, target);
      OneMoreTask(shards, ops, tasks, order, before, after, target);
    }
  }

  lemma OneMoreTask(
    shards: Shards, ops: seq<Read>, tasks: seq<Task>, order: seq<nat>, before: Memory, after: Memory, target: Memory)
    requires AllTasksOk(ops, tasks, order) && order != [] && Toward(before, after, target)
    requires forall i :: 0 <= i < |ops| ==> Holds(shards, ops[i], target)
    requires var done := order[..|order| - 1]; forall k :: 0 <= k < |done| ==>
      TaskHolds(shards, ops, tasks[done[k]], before)
    requires TaskHolds(shards, ops, tasks[order[|order| - 1]], after)
    ensures forall k :: 0 <= k < |order| ==> TaskHolds(shards, ops, tasks[order[k]], after)
  {
    var n := |order| - 1;
    DoneTasksStayHeld(shards, ops, tasks, order[..n], before, after, target);
    assert forall k :: 0 <= k < n ==> order[..n][k] == order[k];
  }

  lemma DoneTasksStayHeld(
    shards: Shards, ops: seq<Read>, tasks: seq<Task>, done: seq<nat>, before: Memory, after: Memory, target: Memory)
    requires AllTasksOk(ops, tasks, done) && Toward(before, after, target)
    requires forall i :: 0 <= i < |ops| ==> Holds(shards, ops[i], target)
    requires forall k :: 0 <= k < |done| ==> TaskHolds(shards, ops, tasks[done[k]], before)
    ensures forall k :: 0 <= k < |done| ==> TaskHolds(shards, ops, tasks[done[k]], after)
  {
    forall k | 0 <= k < |done| ensures TaskHolds(shards, ops, tasks[done[k]], after) {
      TaskStaysHeld(shards, ops, tasks[done[k]], before, after, target);
    }
  }

  lemma TaskStaysHeld(shards: Shards, ops: seq<Read>, t: Task, before: Memory, after: Memory, target: Memory)
    requires t.last <= |ops| && TaskHolds(shards, ops, t, before) && Toward(before, after, target)
    requires forall i :: 0 <= i < |ops| ==> Holds(shards, ops[i], target)
    ensures TaskHolds(shards, ops, t, after)
  {
    forall i | t.first <= i < t.last ensures Holds(shards, ops[i], after) {
      TowardKeepsReads(shards, ops[i], before, after, target);
    }
  }

  lemma TaskGoesToward(shards: Shards, ops: seq<Read>, t: Task, before: Memory, target: Memory)
    requires AllReadable(shards, ops, before) && |before| == |target| && TaskOk(ops, t)
    requires forall i :: 0 <= i < |ops| ==> Holds(shards, ops[i], target)
    ensures var after := ReadEach(shards, ops[t.first..t.last], before);
            Toward(before, after, target) && TaskHolds(shards, ops, t, after)
  {
    var mine := ops[t.first..t.last];
    ReadsGoToward(shards, mine, before, target);
    forall i | t.first <= i < t.last ensures Holds(shards, ops[i], ReadEach(shards, mine, before)) {
      assert mine[i - t.first] == ops[i];
    }
  }

  lemma PlanIsReadable(shards: Shards, items: seq<Read>, ops: seq<Read>, tasks: seq<Task>, m: Memory)
    requires Planned(items, ops, tasks) && AllReadable(shards, items, m)
    ensures AllReadable(shards, ops, m) && forall i :: 0 <= i < |tasks| ==> TaskOk(ops, tasks[i])
  {
    forall i | 0 <= i < |ops| ensures CanRead(shards, ops[i], m) {
      assert PartOfSome(ops[i], items);
      var k :| 0 <= k < |items| && PartOf(ops[i], items[k]);
      assert CanRead(shards, items[k], m);
    }
    forall i | 0 <= i < |tasks| ensures TaskOk(ops, tasks[i]) {
      assert InPlace(ops, tasks, i);
    }
  }

  /** Coalesced reading refines simple reading: for non-empty extents with disjoint destinations, and empty ones
      anywhere, running the planned tasks in any order that misses none gives the memory that reading the extents one
      by one gives, byte for byte. */
  lemma CoalescedReadingIsSimpleReading(
    shards: Shards, items: seq<Read>, ops: seq<Read>, tasks: seq<Task>, order: seq<nat>, m: Memory)
    requires Planned(items, ops, tasks) && Disjoint(items) && AllReadable(shards, items, m)
    requires forall i :: 0 <= i < |order| ==> order[i] < |tasks|
    requires forall t :: 0 <= t < |tasks| ==> t in order
    ensures AllReadable(shards, ops, m) && AllTasksOk(ops, tasks, order)
    ensures RunTasks(shards, ops, tasks, order, m) == ReadEach(shards, items, m)
  {
    PlanIsReadable(shards, items, ops, tasks, m);
    var target := ReadEach(shards, items, m);
    forall k | 0 <= k < |items| && items[k].len > 0 ensures Holds(shards, items[k], target) {
      SimpleReadingDelivers(shards, items, m, k);
    }
    forall i | 0 <= i < |ops| ensures Holds(shards, ops[i], target) {
      assert PartOfSome(ops[i], items);
      var k :| 0 <= k < |items| && PartOf(ops[i], items[k]);
      PartHolds(shards, ops[i], items[k], target);
    }
    TasksGoToward(shards, ops, tasks, order, m, target);
    var after := RunTasks(shards, ops, tasks, order, m);
    EveryReadArrives(shards, ops, tasks, order, after);
    forall a | 0 <= a < |m| ensures after[a] == target[a] {
      if forall k :: 0 <= k < |items| ==> !Touches(items[k], a) {
        SimpleReadingTouchesNothingElse(shards, items, m, a);
      }
      AddressArrives(shards, items, ops, m, after, target, a);
    }
  }

  lemma EveryReadArrives(shards: Shards, ops: seq<Read>, tasks: seq<Task>, order: seq<nat>, after: Memory)
    requires Grouped(ops, tasks, |ops|) && AllTasksOk(ops, tasks, order)
    requires forall t :: 0 <= t < |tasks| ==> t in order
    requires forall k :: 0 <= k < |order| ==> TaskHolds(shards, ops, tasks[order[k]], after)
    ensures forall i :: 0 <= i < |ops| ==> Holds(shards, ops[i], after)
  {
    forall i | 0 <= i < |ops| ensures Holds(shards, ops[i], after) {
      TasksPartitionTheReads(ops, tasks, |ops|, i);
      var t :| 0 <= t < |tasks| && tasks[t].first <= i < tasks[t].last;
      assert t in order;
      var k :| 0 <= k < |order| && order[k] == t;
      assert TaskHolds(shards, ops, tasks[order[k]], after);
    }
  }

  lemma AddressArrives(
    shards: Shards, items: seq<Read>, ops: seq<Read>, m: Memory, after: Memory, target: Memory, a: nat)
    requires Cuts(ops, items) && Toward(m, after, target) && a < |m|
    requires forall i :: 0 <= i < |ops| ==> Holds(shards, ops[i], after)
    requires forall k :: 0 <= k < |items| && items[k].len > 0 ==> Holds(shards, items[k], target)
    requires (forall k :: 0 <= k < |items| ==> !Touches(items[k], a)) ==> target[a] == m[a]
    ensures after[a] == target[a]
  {
    if k :| 0 <= k < |items| && Touches(items[k], a) {
      var x := items[k].offset + (a - items[k].dst);
      assert HasByte(ops, items[k], x);
      var i :| 0 <= i < |ops| && PartOf(ops[i], items[k]) && ops[i].offset <= x < ops[i].End();
      PieceBringsTheByte(shards, ops[i], items[k], after, target, a);
    }
  }

  lemma PieceBringsTheByte(shards: Shards, piece: Read, whole: Read, after: Memory, target: Memory, a: nat)
    requires PartOf(piece, whole) && Holds(shards, piece, after) && Holds(shards, whole, target) && Touches(whole, a)
    requires piece.offset <= whole.offset + (a - whole.dst) < piece.End()
    ensures a < |after| && a < |target| && after[a] == target[a]
  {
    assert Touches(piece, a) && ByteAt(shards, piece, a) == ByteAt(shards, whole, a);
  }

  /** A plan fails exactly when it must: every task finds its required bytes if and only if every
      non-empty extent ends inside its shard. */
  lemma PlanFailsOnlyPastTheEnd(shards: Shards, items: seq<Read>, ops: seq<Read>, tasks: seq<Task>)
    requires Planned(items, ops, tasks)
    requires forall k :: 0 <= k < |items| && items[k].len > 0 ==> items[k].shard < |shards|
    ensures (forall t :: 0 <= t < |tasks| ==>
      tasks[t].shard < |shards| && tasks[t].RequiredEnd() <= |shards[tasks[t].shard]|)
       <==> (forall k :: 0 <= k < |items| && items[k].len > 0 ==> Readable(shards, items[k]))
  {
    if forall k :: 0 <= k < |items| && items[k].len > 0 ==> Readable(shards, items[k]) {
      forall t | 0 <= t < |tasks|
        ensures tasks[t].shard < |shards| && tasks[t].RequiredEnd() <= |shards[tasks[t].shard]|
      {
        assert InPlace(ops, tasks, t);
        var i :| tasks[t].first <= i < tasks[t].last && ops[i].End() == tasks[t].RequiredEnd();
        assert PartOfSome(ops[i], items);
        var k :| 0 <= k < |items| && PartOf(ops[i], items[k]);
        assert Readable(shards, items[k]);
      }
    }
    if forall t :: 0 <= t < |tasks| ==>
      tasks[t].shard < |shards| && tasks[t].RequiredEnd() <= |shards[tasks[t].shard]| {
      forall k | 0 <= k < |items| && items[k].len > 0 ensures Readable(shards, items[k]) {
        assert HasByte(ops, items[k], items[k].End() - 1);
        var i :| 0 <= i < |ops| && PartOf(ops[i], items[k]) && ops[i].offset <= items[k].End() - 1 < ops[i].End();
        TasksPartitionTheReads(ops, tasks, |ops|, i);
        var t :| 0 <= t < |tasks| && tasks[t].first <= i < tasks[t].last;
        assert InPlace(ops, tasks, t);
      }
    }
  }
}
