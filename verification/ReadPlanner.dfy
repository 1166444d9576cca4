/** The coalescing read planner: extents are cut at 4 MiB file boundaries, sorted, merged across small
    gaps into aligned chunks, read into a bounce buffer and scattered to their destinations. */
module ReadPlanner {
  import opened Options
  import opened Arithmetic

  const DIRECT_ALIGN := 4096
  const CHUNK_BYTES := 0x40_0000
  const COALESCE_GAP := 0x1_0000
  const U64_MAX := 0xFFFF_FFFF_FFFF_FFFF

  type Byte = bv8

  // `len` bytes of a shard file from `offset`, wanted at memory address `dst`. A caller's extent and
  // the sub-reads cut from it have the same shape.
  datatype Read = Read(shard: nat, offset: nat, len: nat, dst: nat) {
    function End(): nat { offset + len }
  }

  // One aligned file span and the range of sub-reads it serves.
  datatype Task = Task(shard: nat, alignedOffset: nat, alignedLen: nat, requiredLen: nat, first: nat, last: nat) {
    function RequiredEnd(): nat { alignedOffset + requiredLen }
  }

  function AlignDown(x: nat): nat { x / DIRECT_ALIGN * DIRECT_ALIGN }
  function AlignUp(x: nat): nat { (x + DIRECT_ALIGN - 1) / DIRECT_ALIGN * DIRECT_ALIGN }

  function Max(a: nat, b: nat): nat { if a < b then b else a }

  // ----- Cutting -----

  // `piece` is part of `whole`: the same bytes to the same addresses, inside one 4 MiB window.
  predicate PartOf(piece: Read, whole: Read) {
    && piece.len > 0 && piece.shard == whole.shard
    && whole.offset <= piece.offset && piece.End() <= whole.End()
    && piece.dst - whole.dst == piece.offset - whole.offset
    && piece.offset / CHUNK_BYTES == (piece.End() - 1) / CHUNK_BYTES
  }

  // Some piece of `whole` reads the byte at file offset `x`.
  ghost predicate HasByte(pieces: seq<Read>, whole: Read, x: nat) {
    exists i :: 0 <= i < |pieces| && PartOf(pieces[i], whole) && pieces[i].offset <= x < pieces[i].End()
  }

  ghost predicate Covered(pieces: seq<Read>, whole: Read, upTo: nat) {
    forall x :: whole.offset <= x < upTo ==> HasByte(pieces, whole, x)
  }

  predicate Rejected(item: Read, shardCount: nat) {
    item.len > 0 && (item.shard >= shardCount || item.End() > U64_MAX)
  }

  ghost predicate PartOfSome(piece: Read, items: seq<Read>) { exists k :: 0 <= k < |items| && PartOf(piece, items[k]) }

  // The pieces are parts of the items and together cover every item.
  ghost predicate Cuts(pieces: seq<Read>, items: seq<Read>) {
    && (forall i :: 0 <= i < |pieces| ==> PartOfSome(pieces[i], items))
    && (forall k :: 0 <= k < |items| ==> Covered(pieces, items[k], items[k].End()))
  }

  lemma CoveredGrows(pieces: seq<Read>, more: seq<Read>, whole: Read, upTo: nat)
    requires Covered(pieces, whole, upTo) && pieces <= more
    ensures Covered(more, whole, upTo)
  {
    forall x | whole.offset <= x < upTo ensures HasByte(more, whole, x) {
      assert HasByte(pieces, whole, x);
      var i :| 0 <= i < |pieces| && PartOf(pieces[i], whole) && pieces[i].offset <= x < pieces[i].End();
      assert more[i] == pieces[i];
    }
  }

  method CutItem(item: Read, before: seq<Read>) returns (pieces: seq<Read>)
    ensures before <= pieces
    ensures forall i :: |before| <= i < |pieces| ==> PartOf(pieces[i], item)
    ensures Covered(pieces, item, item.End())
  {
    pieces := before;
    var off, dst := item.offset, item.dst;
    while off < item.End()
      invariant item.offset <= off <= item.End() && dst - item.dst == off - item.offset
      invariant before <= pieces
      invariant forall i :: |before| <= i < |pieces| ==> PartOf(pieces[i], item)
      invariant Covered(pieces, item, off)
    {
      var windowEnd := (off / CHUNK_BYTES + 1) * CHUNK_BYTES;
      var pieceEnd := Min(item.End(), windowEnd);
      var piece := Read(item.shard, off, pieceEnd - off, dst);
      assert PartOf(piece, item);
      ghost var was := pieces;
      pieces := pieces + [piece];
      CoveredGrows(was, pieces, item, off);
      assert pieces[|was|] == piece;
      assert forall x :: off <= x < pieceEnd ==> HasByte(pieces, item, x);
      off, dst := pieceEnd, dst + piece.len;
    }
  }

  lemma EmptyItemNeedsNothing(items: seq<Read>, k: nat, pieces: seq<Read>)
    requires k < |items| && forall i :: 0 <= i < |pieces| ==> PartOfSome(pieces[i], items[..k])
    ensures forall i :: 0 <= i < |pieces| ==> PartOfSome(pieces[i], items[..k + 1])
  {
    forall i | 0 <= i < |pieces| ensures PartOfSome(pieces[i], items[..k + 1]) {
      var j :| 0 <= j < k && PartOf(pieces[i], items[..k][j]);
      assert PartOf(pieces[i], items[..k + 1][j]);
    }
  }

  method CutAll(items: seq<Read>, shardCount: nat) returns (cut: Result<seq<Read>>)
    ensures cut.Err? <==> exists k :: 0 <= k < |items| && Rejected(items[k], shardCount)
    ensures cut.Ok? ==> Cuts(cut.value, items)
  {
    var pieces := [];
    for k := 0 to |items|
      invariant forall j :: 0 <= j < k ==> !Rejected(items[j], shardCount)
      invariant forall i :: 0 <= i < |pieces| ==> PartOfSome(pieces[i], items[..k])
      invariant forall j :: 0 <= j < k ==> Covered(pieces, items[j], items[j].End())
    {
      if items[k].len == 0 {
        EmptyItemNeedsNothing(items, k, pieces);
        continue;
      }
      if items[k].shard >= shardCount || items[k].End() > U64_MAX {
        return Err;
      }
      var more := CutItem(items[k], pieces);
      forall i | 0 <= i < |more| ensures PartOfSome(more[i], items[..k + 1]) {
        if i < |pieces| {
          var j :| 0 <= j < k && PartOf(pieces[i], items[..k][j]);
          assert PartOf(more[i], items[..k + 1][j]);
        } else {
          assert PartOf(more[i], items[..k + 1][k]);
        }
      }
      forall j | 0 <= j < k ensures Covered(more, items[j], items[j].End()) {
        CoveredGrows(pieces, more, items[j], items[j].End());
      }
      pieces := more;
    }
    assert items[..|items|] == items;
    return Ok(pieces);
  }

  // ----- Sorting -----

  predicate KeyLe(a: Read, b: Read) { a.shard < b.shard || (a.shard == b.shard && a.offset <= b.offset) }

  ghost predicate Sorted(s: seq<Read>) { forall i, j :: 0 <= i < j < |s| ==> KeyLe(s[i], s[j]) }

  function Place(op: Read, s: seq<Read>): (at: nat)
    requires Sorted(s)
    ensures at <= |s|
    ensures forall j :: 0 <= j < at ==> KeyLe(s[j], op)
    ensures forall j :: at <= j < |s| ==> KeyLe(op, s[j])
  {
    if s == [] || KeyLe(s[|s| - 1], op) then |s| else Place(op, s[..|s| - 1])
  }

  function Insert(op: Read, s: seq<Read>): (r: seq<Read>)
    requires Sorted(s)
    ensures Sorted(r) && multiset(r) == multiset(s) + multiset{op}
  {
    var at := Place(op, s);
    assert s == s[..at] + s[at..];
    s[..at] + [op] + s[at..]
  }

  // The library sort is unstable, so nothing below depends on how it orders equal keys.
  function SortReads(s: seq<Read>): (sorted: seq<Read>)
    ensures Sorted(sorted) && multiset(sorted) == multiset(s)
  {
    if s == [] then [] else
      assert s == s[..|s| - 1] + [s[|s| - 1]];
      Insert(s[|s| - 1], SortReads(s[..|s| - 1]))
  }

  lemma SortingKeepsCuts(pieces: seq<Read>, sorted: seq<Read>, items: seq<Read>)
    requires Cuts(pieces, items) && multiset(sorted) == multiset(pieces)
    ensures Cuts(sorted, items)
  {
    forall i | 0 <= i < |sorted| ensures PartOfSome(sorted[i], items) {
      assert sorted[i] in multiset(sorted);
      assert sorted[i] in pieces;
      var j :| 0 <= j < |pieces| && pieces[j] == sorted[i];
      assert PartOfSome(pieces[j], items);
    }
    forall k | 0 <= k < |items| ensures Covered(sorted, items[k], items[k].End()) {
      forall x | items[k].offset <= x < items[k].End() ensures HasByte(sorted, items[k], x) {
        assert HasByte(pieces, items[k], x);
        var i :| 0 <= i < |pieces| && PartOf(pieces[i], items[k]) && pieces[i].offset <= x < pieces[i].End();
        assert pieces[i] in multiset(pieces);
        assert pieces[i] in sorted;
      }
    }
  }

  // ----- Grouping -----

  // The sub-read, its aligned span being inside one window, fits a chunk on its own.
  predicate Fits(op: Read) { op.len > 0 && AlignUp(op.End()) - AlignDown(op.offset) <= CHUNK_BYTES }

  lemma PartsFit(piece: Read, whole: Read)
    requires PartOf(piece, whole)
    ensures Fits(piece)
  {
    var window := piece.offset / CHUNK_BYTES;
    WindowIsAligned(piece.offset, window);
    WindowIsAligned(piece.End() - 1, window);
  }

  // Aligning inside a 4 MiB window does not leave it.
  lemma WindowIsAligned(x: nat, window: nat)
    requires x / CHUNK_BYTES == window
    ensures window * CHUNK_BYTES <= AlignDown(x) && AlignUp(x + 1) <= (window + 1) * CHUNK_BYTES
  {
    assert window * 1024 <= x / DIRECT_ALIGN < (window + 1) * 1024;
    assert AlignUp(x + 1) == (x / DIRECT_ALIGN + 1) * DIRECT_ALIGN;
  }

  function FinishChunk(shard: nat, start: nat, end: nat, first: nat, last: nat): (task: Task)
    requires start <= end
    ensures task.alignedOffset <= start && task.RequiredEnd() == end && task.requiredLen <= task.alignedLen
    ensures task.alignedOffset % DIRECT_ALIGN == 0 && task.alignedLen % DIRECT_ALIGN == 0
  {
    Task(shard, AlignDown(start), AlignUp(end) - AlignDown(start), end - AlignDown(start), first, last)
  }

  ghost predicate NearEarlier(ops: seq<Read>, first: nat, i: nat)
    requires i < |ops|
  {
    exists j :: first <= j < i && ops[i].offset <= ops[j].End() + COALESCE_GAP
  }

  // One task: its span fits the bounce buffer and holds each of its sub-reads, each within the gap of
  // an earlier one, and it requires no byte beyond the last of them.
  ghost predicate TaskOk(ops: seq<Read>, t: Task) {
    && t.first < t.last <= |ops|
    && t.requiredLen <= t.alignedLen <= CHUNK_BYTES
    && t.alignedOffset % DIRECT_ALIGN == 0 && t.alignedLen % DIRECT_ALIGN == 0
    && (forall i :: t.first <= i < t.last ==>
          ops[i].shard == t.shard && t.alignedOffset <= ops[i].offset && ops[i].End() <= t.RequiredEnd())
    && (forall i :: t.first < i < t.last ==> NearEarlier(ops, t.first, i))
    && (exists i :: t.first <= i < t.last && ops[i].End() == t.RequiredEnd())
  }

  predicate CanCoalesce(t: Task, op: Read) {
    && op.shard == t.shard
    && op.offset <= t.RequiredEnd() + COALESCE_GAP
    && AlignUp(Max(t.RequiredEnd(), op.End())) - t.alignedOffset <= CHUNK_BYTES
  }

  // Task `i` starts where the one before it ends, and could not have taken the next sub-read too.
  ghost predicate InPlace(ops: seq<Read>, tasks: seq<Task>, i: nat)
    requires i < |tasks|
  {
    && TaskOk(ops, tasks[i])
    && tasks[i].first == (if i == 0 then 0 else tasks[i - 1].last)
    && (tasks[i].last < |ops| ==> !CanCoalesce(tasks[i], ops[tasks[i].last]))
  }

  // Tasks cover the first `upTo` sub-reads in consecutive ranges.
  ghost predicate Grouped(ops: seq<Read>, tasks: seq<Task>, upTo: nat) {
    && (forall i :: 0 <= i < |tasks| ==> InPlace(ops, tasks, i))
    && upTo == (if tasks == [] then 0 else tasks[|tasks| - 1].last)
  }

  lemma WidenTask(ops: seq<Read>, t: Task, start: nat, end: nat)
    requires start <= end && TaskOk(ops, t) && t == FinishChunk(t.shard, start, end, t.first, t.last)
    requires t.last < |ops| && start <= ops[t.last].offset && CanCoalesce(t, ops[t.last])
    ensures TaskOk(ops, FinishChunk(t.shard, start, Max(end, ops[t.last].End()), t.first, t.last + 1))
  {
    var op := ops[t.last];
    var wider := FinishChunk(t.shard, start, Max(end, op.End()), t.first, t.last + 1);
    var j :| t.first <= j < t.last && ops[j].End() == t.RequiredEnd();
    assert NearEarlier(ops, t.first, t.last);
    assert ops[if end < op.End() then t.last else j].End() == wider.RequiredEnd();
  }

  lemma LoneTask(ops: seq<Read>, i: nat)
    requires i < |ops| && Fits(ops[i])
    ensures TaskOk(ops, FinishChunk(ops[i].shard, ops[i].offset, ops[i].End(), i, i + 1))
  {
    assert ops[i].End() == FinishChunk(ops[i].shard, ops[i].offset, ops[i].End(), i, i + 1).RequiredEnd();
  }

  lemma GroupedGrows(ops: seq<Read>, tasks: seq<Task>, t: Task)
    requires Grouped(ops, tasks, t.first) && TaskOk(ops, t)
    requires t.last < |ops| ==> !CanCoalesce(t, ops[t.last])
    ensures Grouped(ops, tasks + [t], t.last)
  {
    var after := tasks + [t];
    forall i | 0 <= i < |after| ensures InPlace(ops, after, i) {
      assert i < |tasks| ==> InPlace(ops, tasks, i);
    }
  }

  method GroupTasks(ops: seq<Read>) returns (tasks: seq<Task>)
    requires Sorted(ops) && forall i :: 0 <= i < |ops| ==> Fits(ops[i])
    ensures Grouped(ops, tasks, |ops|)
  {
    tasks := [];
    if ops == [] {
      return;
    }
    var first: nat, shard: nat, start: nat, end: nat := 0, ops[0].shard, ops[0].offset, ops[0].End();
    LoneTask(ops, 0);
    for i := 1 to |ops|
      invariant Grouped(ops, tasks, first) && IsOpen(ops, first, shard, start, end, i)
    {
      var op := ops[i];
      var merged := Max(end, op.End());
      if op.shard == shard && op.offset <= end + COALESCE_GAP && AlignUp(merged) - AlignDown(start) <= CHUNK_BYTES {
        TakeIntoTask(ops, first, shard, start, end, i);
        end := merged;
      } else {
        GroupedGrows(ops, tasks, FinishChunk(shard, start, end, first, i));
        tasks := tasks + [FinishChunk(shard, start, end, first, i)];
        first, shard, start, end := i, op.shard, op.offset, op.End();
        LoneTask(ops, i);
      }
    }
    GroupedGrows(ops, tasks, FinishChunk(shard, start, end, first, |ops|));
    tasks := tasks + [FinishChunk(shard, start, end, first, |ops|)];
  }

  // The task being built serves the sub-reads from `first` up to `i`.
  ghost predicate IsOpen(ops: seq<Read>, first: nat, shard: nat, start: nat, end: nat, i: nat) {
    && first < i <= |ops| && shard == ops[first].shard && start == ops[first].offset && start <= end
    && TaskOk(ops, FinishChunk(shard, start, end, first, i))
  }

  lemma TakeIntoTask(ops: seq<Read>, first: nat, shard: nat, start: nat, end: nat, i: nat)
    requires Sorted(ops) && IsOpen(ops, first, shard, start, end, i) && i < |ops|
    requires CanCoalesce(FinishChunk(shard, start, end, first, i), ops[i])
    ensures IsOpen(ops, first, shard, start, Max(end, ops[i].End()), i + 1)
  {
    assert KeyLe(ops[first], ops[i]);
    WidenTask(ops, FinishChunk(shard, start, end, first, i), start, end);
  }

  // ----- The plan -----

  ghost predicate Planned(items: seq<Read>, ops: seq<Read>, tasks: seq<Task>) {
    Cuts(ops, items) && Grouped(ops, tasks, |ops|)
  }

  method PlanReadTasks(items: seq<Read>, shardCount: nat) returns (plan: Result<(seq<Read>, seq<Task>)>)
    ensures plan.Err? <==> exists k :: 0 <= k < |items| && Rejected(items[k], shardCount)
    ensures plan.Ok? ==> Planned(items, plan.value.0, plan.value.1)
  {
    var cut := CutAll(items, shardCount);
    if cut.Err? {
      return Err;
    }
    var ops := SortReads(cut.value);
    SortingKeepsCuts(cut.value, ops, items);
    forall i | 0 <= i < |ops| ensures Fits(ops[i]) {
      assert PartOfSome(ops[i], items);
      var k :| 0 <= k < |items| && PartOf(ops[i], items[k]);
      PartsFit(ops[i], items[k]);
    }
    var tasks := GroupTasks(ops);
    return Ok((ops, tasks));
  }

  /** Every sub-read belongs to exactly one task. */
  lemma TasksPartitionTheReads(ops: seq<Read>, tasks: seq<Task>, upTo: nat, i: nat)
    requires Grouped(ops, tasks, upTo) && i < upTo
    ensures exists t :: 0 <= t < |tasks| && tasks[t].first <= i < tasks[t].last
    ensures forall t, u :: 0 <= t < u < |tasks| ==>
      !(tasks[t].first <= i < tasks[t].last && tasks[u].first <= i < tasks[u].last)
  {
    forall t, u | 0 <= t < u < |tasks| ensures tasks[t].last <= tasks[u].first {
      RangesInOrder(ops, tasks, upTo, t, u);
    }
    var t := |tasks| - 1;
    while i < tasks[t].first
      invariant 0 <= t < |tasks| && i < tasks[t].last
      decreases t
    {
      assert InPlace(ops, tasks, t);
      t := t - 1;
    }
  }

  lemma {:induction false} RangesInOrder(ops: seq<Read>, tasks: seq<Task>, upTo: nat, t: nat, u: nat)
    requires Grouped(ops, tasks, upTo) && t < u < |tasks|
    ensures tasks[t].last <= tasks[u].first
    decreases u
  {
    assert InPlace(ops, tasks, u);
    if t + 1 < u {
      RangesInOrder(ops, tasks, upTo, t, u - 1);
      assert InPlace(ops, tasks, u - 1);
    }
  }
}
