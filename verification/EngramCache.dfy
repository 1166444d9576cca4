/** The 8-way set-associative clock cache of n-gram embedding rows. */
module EngramCaches {
  import opened Options

  const Ways: nat := 8
  const RowSpace: nat := 0x1_0000_0000_0000
  const TableSpace: nat := 0x1_0000
  const SkipRow: nat := 0xFFFF_FFFF_FFFF_FFFF

  type Row = seq<nat>
  type Table = seq<Row>

  // ----- Tags and sets -----

  function Tag(table: nat, row: nat): nat { 1 + table * RowSpace + row }
  function TagTable(tag: nat): nat
    requires tag > 0
  { (tag - 1) / RowSpace }
  function TagRow(tag: nat): nat
    requires tag > 0
  { (tag - 1) % RowSpace }

  /** Tags are non-zero, fit 64 bits, and tell tables and rows apart. */
  lemma TagsAreInjective(table: nat, row: nat)
    requires row < RowSpace && table + 1 < TableSpace
    ensures 0 < Tag(table, row) < SkipRow && TagTable(Tag(table, row)) == table && TagRow(Tag(table, row)) == row
  {}

  function Mix64(x: bv64): bv64 {
    var a := (x ^ (x >> 30)) * 0xbf58_476d_1ce4_e5b9;
    var b := (a ^ (a >> 27)) * 0x94d0_49bb_1331_11eb;
    b ^ (b >> 31)
  }

  // The high half of the 128-bit product.
  function SetIndex(tag: nat, sets: nat): (s: nat)
    requires tag <= SkipRow && sets > 0
    ensures s < sets
  {
    var h := Mix64(tag as bv64) as nat;
    ScaledHash(h, sets);
    h * sets / (SkipRow + 1)
  }

  lemma ScaledHash(h: nat, sets: nat)
    requires h <= SkipRow && sets > 0
    ensures 0 <= h * sets / (SkipRow + 1) < sets
  {
    assert h * sets <= SkipRow * sets;
    assert SkipRow * sets < (SkipRow + 1) * sets;
  }

  // ----- The clock of one set -----

  // How many steps after the hand a way comes.
  function Distance(hand: nat, way: nat): nat
    requires hand < Ways && way < Ways
  { if way >= hand then way - hand else way + Ways - hand }

  // The victim of `probes` probes is the first way from the hand with its bit clear, or the hand itself if none was;
  // exactly the bits passed over are cleared.
  ghost predicate ClockChose(bits: seq<bool>, hand: nat, victim: nat, probes: nat, used: seq<bool>) {
    && |bits| == |used| == Ways && hand < Ways && victim < Ways && 1 <= probes <= Ways + 1
    && (if probes <= Ways then Distance(hand, victim) == probes - 1 && !bits[victim] else victim == hand)
    && (forall w :: 0 <= w < Ways ==>
        if Distance(hand, w) < probes - 1 then bits[w] && !used[w] else used[w] == bits[w])
  }

  method ClockVictim(bits: seq<bool>, start: nat) returns (victim: nat, used: seq<bool>, hand: nat, ghost probes: nat)
    requires |bits| == Ways && start < Ways
    ensures ClockChose(bits, start, victim, probes, used) && hand == (victim + 1) % Ways
  {
    used, hand, probes := bits, start, 1;
    while used[hand]
      invariant |used| == Ways && hand < Ways && 1 <= probes <= Ways + 1
      invariant if probes <= Ways then Distance(start, hand) == probes - 1 else hand == start
      invariant forall w :: 0 <= w < Ways ==>
        if Distance(start, w) < probes - 1 then bits[w] && !used[w] else used[w] == bits[w]
      decreases Ways + 1 - probes
    {
      used := used[hand := false];
      hand, probes := (hand + 1) % Ways, probes + 1;
    }
    victim, hand := hand, (hand + 1) % Ways;
  }

  // ----- The cache -----

  // A used way belongs to the set of its tag and holds the row its tag names.
  predicate WayOk(tables: seq<Table>, sets: nat, x: nat, tag: nat, payload: Row) {
    tag != 0 ==>
      && tag <= SkipRow && sets > 0 && SetIndex(tag, sets) == x / Ways
      && TagTable(tag) < |tables| && TagRow(tag) < |tables[TagTable(tag)]|
      && payload == tables[TagTable(tag)][TagRow(tag)]
  }

  ghost predicate Holds(tables: seq<Table>, sets: nat, tags: seq<nat>, payloads: seq<Row>) {
    |tags| == |payloads| == sets * Ways && forall x :: 0 <= x < |tags| ==> WayOk(tables, sets, x, tags[x], payloads[x])
  }

  // Sets fill from the front, and no tag is stored twice.
  ghost predicate Filled(tags: seq<nat>) {
    forall x, y :: 0 <= x < y < |tags| && x / Ways == y / Ways && tags[x] == 0 ==> tags[y] == 0
  }
  ghost predicate Unique(tags: seq<nat>) { forall x, y :: 0 <= x < y < |tags| && tags[x] == tags[y] ==> tags[x] == 0 }

  ghost predicate Consistent(tables: seq<Table>, sets: nat, tags: seq<nat>, payloads: seq<Row>) {
    Holds(tables, sets, tags, payloads) && Filled(tags) && Unique(tags)
  }

  // Storing a tag in its set keeps the cache consistent, where the way is the tag's own, the first empty one, or, if
  // the set is full of others, any.
  lemma StoreKeepsConsistent(
    tables: seq<Table>, sets: nat, tags: seq<nat>, payloads: seq<Row>, x: nat, tag: nat, row: Row)
    requires Consistent(tables, sets, tags, payloads) && x < |tags| && tag != 0 && WayOk(tables, sets, x, tag, row)
    requires forall y :: 0 <= y < |tags| && y / Ways == x / Ways && y != x ==> tags[y] != tag
    requires forall y :: 0 <= y < x && y / Ways == x / Ways ==> tags[y] != 0
    ensures Consistent(tables, sets, tags[x := tag], payloads[x := row])
  {
    var after := tags[x := tag];
    forall y | 0 <= y < |tags| && y != x ensures after[y] != tag {
      assert WayOk(tables, sets, y, tags[y], payloads[y]);
    }
  }

  ghost predicate Sized(tables: seq<Table>) {
    |tables| < TableSpace && forall t :: 0 <= t < |tables| ==> |tables[t]| <= RowSpace
  }

  // A tag outside its own set is nowhere.
  lemma AbsentFromSet(tables: seq<Table>, sets: nat, tags: seq<nat>, payloads: seq<Row>, tag: nat)
    requires Consistent(tables, sets, tags, payloads) && 0 < tag <= SkipRow && sets > 0
    requires forall x :: 0 <= x < |tags| && x / Ways == SetIndex(tag, sets) ==> tags[x] != tag
    ensures tag !in tags
  {
    forall x | 0 <= x < |tags| ensures tags[x] != tag {
      assert WayOk(tables, sets, x, tags[x], payloads[x]);
    }
  }

  // ----- Batches -----

  // Where a missing row is wanted: it is read to the first place and copied to the others.
  datatype Places = Places(first: nat, extras: seq<nat>)

  predicate Acceptable(tables: seq<Table>, t: nat, rows: seq<nat>) {
    t < |tables| && forall i :: 0 <= i < |rows| ==> rows[i] == SkipRow || rows[i] < |tables[t]|
  }

  // What direct reads would give, with zeros for skipped rows.
  function Direct(table: Table, rowBytes: nat, row: nat): Row
    requires row == SkipRow || row < |table|
  { if row == SkipRow then seq(rowBytes, _ => 0) else table[row] }

  // Every miss so far lists places where its row is wanted.
  ghost predicate MissesOk(table: Table, rows: seq<nat>, misses: map<nat, Places>, order: seq<nat>) {
    && (forall row :: row in misses <==> row in order)
    && (forall row :: row in misses ==> row < |table| && WantedAt(rows, row, misses[row].first))
    && (forall row, k :: row in misses && 0 <= k < |misses[row].extras| ==> WantedAt(rows, row, misses[row].extras[k]))
    && (forall i, j :: 0 <= i < j < |order| ==> order[i] != order[j])
  }

  predicate WantedAt(rows: seq<nat>, row: nat, i: nat) { i < |rows| && rows[i] == row && row != SkipRow }

  predicate Listed(misses: map<nat, Places>, row: nat, i: nat) {
    row in misses && (misses[row].first == i || i in misses[row].extras)
  }

  // One more place for a row that misses.
  function Note(misses: map<nat, Places>, row: nat, i: nat): map<nat, Places> {
    if row in misses then misses[row := misses[row].(extras := misses[row].extras + [i])]
      else misses[row := Places(i, [])]
  }

  lemma NoteKeepsMisses(table: Table, rows: seq<nat>, misses: map<nat, Places>, order: seq<nat>, i: nat)
    requires MissesOk(table, rows, misses, order) && i < |rows| && rows[i] < |table| && rows[i] != SkipRow
    ensures MissesOk(table, rows, Note(misses, rows[i], i), if rows[i] in misses then order else order + [rows[i]])
    ensures Listed(Note(misses, rows[i], i), rows[i], i)
    ensures forall row, k :: Listed(misses, row, k) ==> Listed(Note(misses, rows[i], i), row, k)
  {
    var more := Note(misses, rows[i], i);
    if rows[i] in misses {
      assert more[rows[i]].extras[|misses[rows[i]].extras|] == i;
    }
  }

  // One way changed; it held another row exactly if one was evicted.
  ghost predicate Stored(
    tags: seq<nat>, newTags: seq<nat>, payloads: seq<Row>, newPayloads: seq<Row>, x: nat, tag: nat, row: Row,
    evicted: bool) {
    && x < |tags| == |payloads| && newTags == tags[x := tag] && newPayloads == payloads[x := row]
    && (evicted <==> tags[x] != 0 && tags[x] != tag)
  }

  datatype Stats = Stats(hits: nat, misses: nat, uniqueMisses: nat, evictions: nat)

  class EngramCache {
    const tables: seq<Table>
    const rowBytes: nat
    const sets: nat
    const tags: array<nat>
    const payloads: array<Row>
    const used: array<seq<bool>>
    const hands: array<nat>

    ghost predicate Clocked()
      reads used, hands
    {
      && used.Length == hands.Length == sets
      && (forall s :: 0 <= s < sets ==> |used[s]| == Ways) && (forall s :: 0 <= s < sets ==> hands[s] < Ways)
    }

    ghost predicate Valid()
      reads tags, payloads, used, hands
    {
      && tags != hands && Sized(tables) && Clocked()
      && Consistent(tables, sets, tags[..], payloads[..])
    }

    constructor (tables: seq<Table>, rowBytes: nat, sets: nat)
      requires Sized(tables)
      ensures Valid() && this.tables == tables && this.rowBytes == rowBytes && this.sets == sets
      ensures fresh(tags) && fresh(payloads) && fresh(used) && fresh(hands)
    {
      this.tables, this.rowBytes, this.sets := tables, rowBytes, sets;
      tags := new nat[sets * Ways](_ => 0);
      payloads := new Row[sets * Ways](_ => []);
      used := new seq<bool>[sets](_ => seq(Ways, _ => false));
      hands := new nat[sets](_ => 0);
    }

    method ProbeHit(tag: nat) returns (hit: Option<nat>)
      requires Valid() && 0 < tag <= SkipRow
      modifies used
      ensures Valid()
      ensures hit.None? ==> tag !in tags[..]
      ensures hit.Some? ==> hit.value < tags.Length && tags[hit.value] == tag
    {
      if sets == 0 {
        return None;
      }
      var home := SetIndex(tag, sets);
      for x := home * Ways to home * Ways + Ways
        invariant forall y :: home * Ways <= y < x ==> tags[y] != tag
        invariant Valid()
      {
        if tags[x] == tag {
          used[home] := used[home][x - home * Ways := true];
          return Some(x);
        }
      }
      AbsentFromSet(tables, sets, tags[..], payloads[..], tag);
      return None;
    }

    // The first way of the set that is empty or has the tag.
    method FindWay(home: nat, tag: nat) returns (found: Option<nat>)
      requires Valid() && home < sets
      ensures found.Some? ==>
        home * Ways <= found.value < home * Ways + Ways && (tags[found.value] == 0 || tags[found.value] == tag)
      ensures forall y :: home * Ways <= y < (if found.Some? then found.value else home * Ways + Ways) ==>
        tags[y] != 0 && tags[y] != tag
    {
      for x := home * Ways to home * Ways + Ways
        invariant forall y :: home * Ways <= y < x ==> tags[y] != 0 && tags[y] != tag
      {
        if tags[x] == 0 || tags[x] == tag {
          return Some(x);
        }
      }
      return None;
    }

    method Store(x: nat, tag: nat, row: Row)
      requires Valid() && x < tags.Length && tag != 0 && WayOk(tables, sets, x, tag, row)
      requires forall y :: 0 <= y < tags.Length && y / Ways == x / Ways && y != x ==> tags[y] != tag
      requires forall y :: 0 <= y < x && y / Ways == x / Ways ==> tags[y] != 0
      modifies tags, payloads
      ensures Valid() && tags[..] == old(tags[..])[x := tag] && payloads[..] == old(payloads[..])[x := row]
    {
      StoreKeepsConsistent(tables, sets, tags[..], payloads[..], x, tag, row);
      tags[x] := tag;
      payloads[x] := row;
      assert tags[..] == old(tags[..])[x := tag] && payloads[..] == old(payloads[..])[x := row];
    }

    // Returns whether a row was evicted.
    method InsertRow(tag: nat, row: Row) returns (evicted: bool)
      requires Valid() && sets > 0 && 0 < tag <= SkipRow
      requires TagTable(tag) < |tables| && TagRow(tag) < |tables[TagTable(tag)]|
      requires row == tables[TagTable(tag)][TagRow(tag)]
      modifies tags, payloads, used, hands
      ensures Valid() && tag in tags[..]
      ensures exists x: nat ::
        Stored(old(tags[..]), tags[..], old(payloads[..]), payloads[..], x, tag, row, evicted)
    {
      var home := SetIndex(tag, sets);
      var found := FindWay(home, tag);
      var x;
      if found.Some? {
        x := found.value;
        used[home] := used[home][x - home * Ways := true];
      } else {
        var victim, bits, hand, _ := ClockVictim(used[home], hands[home]);
        used[home] := bits[victim := true];
        hands[home] := hand;
        x := home * Ways + victim;
      }
      evicted := found.None?;
      Store(x, tag, row);
      assert tags[..][x] == tag;
      assert Stored(old(tags[..]), tags[..], old(payloads[..]), payloads[..], x, tag, row, evicted);
    }

    ghost predicate RightAt(table: Table, rows: seq<nat>, out: array<Row>, i: nat)
      requires i < |rows| && (rows[i] == SkipRow || rows[i] < |table|) && i < out.Length
      reads out
    { out[i] == Direct(table, rowBytes, rows[i]) }

    method HitPayload(t: nat, row: nat) returns (hit: Option<Row>)
      requires Valid() && t < |tables| && row < |tables[t]|
      modifies used
      ensures Valid() && (hit.Some? ==> hit.value == tables[t][row])
    {
      var tag := Tag(t, row);
      TagsAreInjective(t, row);
      var x := ProbeHit(tag);
      if x.None? {
        return None;
      }
      assert WayOk(tables, sets, x.value, tags[..][x.value], payloads[..][x.value]);
      return Some(payloads[x.value]);
    }

    // The first loop: hits are copied, misses are noted. It stops at a row out of bounds.
    method ProbeRows(t: nat, rows: seq<nat>, out: array<Row>)
      returns (ok: bool, misses: map<nat, Places>, order: seq<nat>, hits: nat, missed: nat)
      requires Valid() && t < |tables| && out.Length == |rows| && out != payloads
      modifies used, out
      ensures Valid() && (ok <==> Acceptable(tables, t, rows))
      ensures ok ==> MissesOk(tables[t], rows, misses, order) && |order| <= missed && hits + missed <= |rows|
      ensures ok ==> forall i :: 0 <= i < |rows| ==> RightAt(tables[t], rows, out, i) || Listed(misses, rows[i], i)
    {
      ok, misses, order, hits, missed := true, map[], [], 0, 0;
      var table := tables[t];
      for i := 0 to |rows|
        invariant Valid() && MissesOk(table, rows, misses, order) && |order| <= missed && hits + missed <= i
        invariant forall j :: 0 <= j < i ==> rows[j] == SkipRow || rows[j] < |table|
        invariant forall j :: 0 <= j < i ==> RightAt(table, rows, out, j) || Listed(misses, rows[j], j)
      {
        if rows[i] == SkipRow {
          out[i] := seq(rowBytes, _ => 0);
        } else if rows[i] >= |table| {
          ok := false;
          return;
        } else {
          var hit := HitPayload(t, rows[i]);
          if hit.Some? {
            out[i] := hit.value;
            hits := hits + 1;
          } else {
            NoteKeepsMisses(table, rows, misses, order, i);
            order := if rows[i] in misses then order else order + [rows[i]];
            misses := Note(misses, rows[i], i);
            missed := missed + 1;
          }
        }
      }
    }

    ghost predicate RightOrListed(table: Table, rows: seq<nat>, out: array<Row>, misses: map<nat, Places>)
      requires out.Length == |rows|
      reads out
    {
      && (forall i :: 0 <= i < |rows| ==> rows[i] == SkipRow || rows[i] < |table|)
      && (forall i :: 0 <= i < |rows| ==> RightAt(table, rows, out, i) || Listed(misses, rows[i], i))
    }

    // The read puts each missing row at its first place.
    method ReadMisses(t: nat, rows: seq<nat>, out: array<Row>, misses: map<nat, Places>, order: seq<nat>)
      requires Valid() && t < |tables| && out.Length == |rows| && out != payloads
      requires MissesOk(tables[t], rows, misses, order) && RightOrListed(tables[t], rows, out, misses)
      modifies out
      ensures Valid() && RightOrListed(tables[t], rows, out, misses)
      ensures forall row :: row in misses ==> out[misses[row].first] == tables[t][row]
    {
      for k := 0 to |order|
        invariant Valid() && RightOrListed(tables[t], rows, out, misses)
        invariant forall j :: 0 <= j < k ==> out[misses[order[j]].first] == tables[t][order[j]]
      {
        var row := order[k];
        assert row in misses && WantedAt(rows, row, misses[row].first);
        assert forall j :: 0 <= j < k ==> order[j] in misses && WantedAt(rows, order[j], misses[order[j]].first);
        out[misses[row].first] := tables[t][row];
      }
      assert forall row :: row in misses ==> row in order;
    }

    // A row is copied from its first place to the others.
    method CopyToExtras(table: Table, rows: seq<nat>, out: array<Row>, row: nat, places: Places)
      requires out.Length == |rows| && WantedAt(rows, row, places.first) && row < |table|
      requires out[places.first] == table[row]
      requires forall k :: 0 <= k < |places.extras| ==> WantedAt(rows, row, places.extras[k])
      modifies out
      ensures forall k :: 0 <= k < |places.extras| ==>
        places.extras[k] < out.Length && out[places.extras[k]] == table[row]
      ensures forall i :: 0 <= i < |rows| ==> out[i] == old(out[i]) || (rows[i] == row && out[i] == table[row])
    {
      for k := 0 to |places.extras|
        invariant out[places.first] == table[row]
        invariant forall j :: 0 <= j < k ==> places.extras[j] < out.Length && out[places.extras[j]] == table[row]
        invariant forall i :: 0 <= i < |rows| ==> out[i] == old(out[i]) || (rows[i] == row && out[i] == table[row])
      {
        assert WantedAt(rows, row, places.extras[k]);
        out[places.extras[k]] := out[places.first];
      }
    }

    ghost predicate PlacesRight(table: Table, out: array<Row>, row: nat, places: Places)
      reads out
    {
      && row < |table| && places.first < out.Length && out[places.first] == table[row]
      && forall k :: 0 <= k < |places.extras| ==> places.extras[k] < out.Length && out[places.extras[k]] == table[row]
    }

    method InsertMisses(t: nat, rows: seq<nat>, out: array<Row>, misses: map<nat, Places>, order: seq<nat>)
      returns (evictions: nat)
      requires Valid() && t < |tables| && out.Length == |rows| && out != payloads
      requires MissesOk(tables[t], rows, misses, order) && RightOrListed(tables[t], rows, out, misses)
      requires forall row :: row in misses ==> out[misses[row].first] == tables[t][row]
      modifies out, tags, payloads, used, hands
      ensures Valid() && evictions <= |order|
      ensures forall i :: 0 <= i < |rows| ==> RightAt(tables[t], rows, out, i)
    {
      evictions := 0;
      var table := tables[t];
      for k := 0 to |order|
        invariant Valid() && evictions <= k && RightOrListed(table, rows, out, misses)
        invariant forall row :: row in misses ==> out[misses[row].first] == table[row]
        invariant forall j :: 0 <= j < k ==> PlacesRight(table, out, order[j], misses[order[j]])
      {
        var row := order[k];
        var places := misses[row];
        if sets > 0 {
          TagsAreInjective(t, row);
          var evicted := InsertRow(Tag(t, row), out[places.first]);
          evictions := evictions + if evicted then 1 else 0;
        }
        assert forall j :: 0 <= j < k ==> PlacesRight(table, out, order[j], misses[order[j]]);
        CopyKeepsRight(table, rows, out, misses, order, k);
      }
      ListedIsRight(table, rows, out, misses, order);
    }

    method CopyKeepsRight(
      table: Table, rows: seq<nat>, out: array<Row>, misses: map<nat, Places>, order: seq<nat>, k: nat)
      requires out.Length == |rows| && k < |order| && MissesOk(table, rows, misses, order)
      requires RightOrListed(table, rows, out, misses)
      requires forall row :: row in misses ==> out[misses[row].first] == table[row]
      requires forall j :: 0 <= j < k ==> PlacesRight(table, out, order[j], misses[order[j]])
      modifies out
      ensures RightOrListed(table, rows, out, misses)
      ensures forall row :: row in misses ==> out[misses[row].first] == table[row]
      ensures forall j :: 0 <= j <= k ==> PlacesRight(table, out, order[j], misses[order[j]])
    {
      CopyToExtras(table, rows, out, order[k], misses[order[k]]);
      forall row | row in misses ensures out[misses[row].first] == table[row] {
        assert WantedAt(rows, row, misses[row].first);
      }
      forall j | 0 <= j < k ensures PlacesRight(table, out, order[j], misses[order[j]]) {
        assert old(PlacesRight(table, out, order[j], misses[order[j]]));
        forall e | 0 <= e < |misses[order[j]].extras| ensures out[misses[order[j]].extras[e]] == table[order[j]] {
          assert WantedAt(rows, order[j], misses[order[j]].extras[e]);
        }
      }
    }

    lemma ListedIsRight(table: Table, rows: seq<nat>, out: array<Row>, misses: map<nat, Places>, order: seq<nat>)
      requires out.Length == |rows| && MissesOk(table, rows, misses, order) && RightOrListed(table, rows, out, misses)
      requires forall j :: 0 <= j < |order| ==> PlacesRight(table, out, order[j], misses[order[j]])
      ensures forall i :: 0 <= i < |rows| ==> RightAt(table, rows, out, i)
    {
      forall i | 0 <= i < |rows| ensures RightAt(table, rows, out, i) {
        if Listed(misses, rows[i], i) {
          var j :| 0 <= j < |order| && order[j] == rows[i];
          assert PlacesRight(table, out, order[j], misses[order[j]]) && WantedAt(rows, rows[i], misses[rows[i]].first);
        }
      }
    }

    /** From every consistent cache the batch gets what direct reads would give, and the cache stays consistent, also
        when the batch fails. It fails only for a bad table index, output size or row, or when the read fails. */
    method LookupBatch(t: nat, rows: seq<nat>, out: array<Row>, readOk: bool) returns (r: Option<Stats>)
      requires Valid() && out != payloads
      modifies out, tags, payloads, used, hands
      ensures Valid()
      ensures r.Some? ==> Acceptable(tables, t, rows) && out.Length == |rows|
      ensures r.Some? ==> forall i :: 0 <= i < |rows| ==> out[i] == Direct(tables[t], rowBytes, rows[i])
      ensures Acceptable(tables, t, rows) && out.Length == |rows| && readOk ==> r.Some?
      ensures r.Some? ==> r.value.evictions <= r.value.uniqueMisses <= r.value.misses
      ensures r.Some? ==> r.value.hits + r.value.misses <= |rows|
    {
      if t >= |tables| || out.Length != |rows| {
        return None;
      }
      var ok, misses, order, hits, missed := ProbeRows(t, rows, out);
      if !ok {
        return None;
      }
      var evictions := 0;
      if order != [] {
        if !readOk {
          return None;
        }
        ReadMisses(t, rows, out, misses, order);
        evictions := InsertMisses(t, rows, out, misses, order);
      }
      forall i | 0 <= i < |rows| ensures out[i] == Direct(tables[t], rowBytes, rows[i]) {
        assert RightAt(tables[t], rows, out, i);
      }
      return Some(Stats(hits, missed, |order|, evictions));
    }
  }
}
