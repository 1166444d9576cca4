/** GPT-2 style byte-level BPE: the tables built from `tokenizer.json`, encoding behind regex splits, and decoding. */
module Tokenizer {
  import opened Options
  import opened Utf8

  type Text = seq<Scalar>

  // ----- Bytes as printable characters -----

  predicate Printable(b: nat) { 33 <= b <= 126 || 161 <= b <= 172 || 174 <= b <= 255 }

  // The character that stands for a byte, and the byte a character stands for, in closed form.
  function ByteChar(b: Byte): Scalar {
    if Printable(b) then b else if b < 33 then 256 + b else if b < 173 then 162 + b else 323
  }

  function CharByte(c: Scalar): Option<Byte> {
    if c < 256 then (if Printable(c) then Some(c) else None)
    else if c < 289 then Some(c - 256)
    else if c < 323 then Some(c - 162)
    else if c == 323 then Some(173)
    else None
  }

  /** The map between bytes and characters is reversible. */
  lemma ByteCharsAreReversible(b: Byte, c: Scalar)
    ensures CharByte(ByteChar(b)) == Some(b)
    ensures CharByte(c) == Some(b) <==> c == ByteChar(b)
  {}

  // The unprintable bytes take the codes from 256 on, in order.
  method ByteChars() returns (table: seq<Scalar>)
    ensures |table| == 256 && forall b: Byte :: table[b] == ByteChar(b)
  {
    var chars := new Scalar[256](_ => 0);
    var extra := 0;
    for b := 0 to 256
      invariant extra == (if b <= 33 then b else if b <= 127 then 33 else if b <= 161 then b - 94
        else if b <= 173 then 67 else 68)
      invariant forall i: Byte :: i < b ==> chars[i] == ByteChar(i)
    {
      if Printable(b) {
        chars[b] := b;
      } else {
        extra := extra + 1;
        chars[b] := 255 + extra;
      }
    }
    table := chars[..];
  }

  // ----- The file and the tables -----

  datatype Added = Added(id: nat, content: Text)
  datatype File = File(added: seq<Added>, splits: seq<Splitter>, vocab: map<Text, nat>, merges: seq<Text>)
  datatype Merge = Merge(rank: nat, id: nat)
  datatype Tokenizer = Tokenizer(
    tokens: seq<Text>, specials: map<Text, nat>, byteIds: seq<nat>, merges: map<(nat, nat), Merge>,
    splits: seq<Splitter>)

  // Where a pattern matches a text; `Failed` is the engine giving up.
  datatype Match = Found(start: nat, end: nat) | Failed
  type Splitter = Text -> seq<Match>

  // `split_once(' ')`: the text before and after the first space.
  function SplitOnce(s: Text): (r: Option<(Text, Text)>)
    ensures r.None? <==> ' ' as int !in s
    ensures r.Some? ==> s == r.value.0 + [' ' as int] + r.value.1 && ' ' as int !in r.value.0
  {
    if s == [] then None
    else if s[0] == ' ' as int then Some(([], s[1..]))
    else match SplitOnce(s[1..])
      case None => None
      case Some((a, b)) => Some(([s[0]] + a, b))
  }

  // One line of the merge list names two tokens and so a third.
  predicate MergeKnown(vocab: map<Text, nat>, line: Text) {
    match SplitOnce(line)
    case None => false
    case Some((a, b)) => a in vocab && b in vocab && a + b in vocab
  }

  function MergeKey(vocab: map<Text, nat>, line: Text): (nat, nat)
    requires MergeKnown(vocab, line)
  {
    var (a, b) := SplitOnce(line).value;
    (vocab[a], vocab[b])
  }

  function MergeId(vocab: map<Text, nat>, line: Text): nat
    requires MergeKnown(vocab, line)
  {
    var (a, b) := SplitOnce(line).value;
    vocab[a + b]
  }

  // The table holds every listed pair, each with the rank of its last line.
  ghost predicate TableOf(vocab: map<Text, nat>, lines: seq<Text>, table: map<(nat, nat), Merge>) {
    && (forall i :: 0 <= i < |lines| ==> MergeKnown(vocab, lines[i]) && MergeKey(vocab, lines[i]) in table)
    && (forall i :: 0 <= i < |lines| ==> i <= table[MergeKey(vocab, lines[i])].rank)
    && (forall key :: key in table ==> LineOf(vocab, lines, key, table[key]))
  }

  ghost predicate LineOf(vocab: map<Text, nat>, lines: seq<Text>, key: (nat, nat), m: Merge) {
    && m.rank < |lines| && MergeKnown(vocab, lines[m.rank])
    && MergeKey(vocab, lines[m.rank]) == key && MergeId(vocab, lines[m.rank]) == m.id
  }

  lemma TableGrows(vocab: map<Text, nat>, lines: seq<Text>, rank: nat, table: map<(nat, nat), Merge>)
    requires rank < |lines| && TableOf(vocab, lines[..rank], table) && MergeKnown(vocab, lines[rank])
    ensures TableOf(vocab, lines[..rank + 1],
      table[MergeKey(vocab, lines[rank]) := Merge(rank, MergeId(vocab, lines[rank]))])
  {
    var key, upTo := MergeKey(vocab, lines[rank]), lines[..rank + 1];
    var next := table[key := Merge(rank, MergeId(vocab, lines[rank]))];
    forall k | k in next ensures LineOf(vocab, upTo, k, next[k]) {
      if k != key { assert LineOf(vocab, lines[..rank], k, table[k]); }
    }
    forall i | 0 <= i < |upTo|
      ensures MergeKnown(vocab, upTo[i]) && MergeKey(vocab, upTo[i]) in next && i <= next[MergeKey(vocab, upTo[i])].rank
    {
      if i < rank { assert lines[..rank][i] == upTo[i]; }
    }
  }

  method BuildMerges(vocab: map<Text, nat>, lines: seq<Text>) returns (r: Option<map<(nat, nat), Merge>>)
    ensures r.Some? <==> forall i :: 0 <= i < |lines| ==> MergeKnown(vocab, lines[i])
    ensures r.Some? ==> TableOf(vocab, lines, r.value)
  {
    var table: map<(nat, nat), Merge> := map[];
    for rank := 0 to |lines|
      invariant TableOf(vocab, lines[..rank], table)
      invariant forall i :: 0 <= i < rank ==> MergeKnown(vocab, lines[i])
    {
      if !MergeKnown(vocab, lines[rank]) {
        return None;
      }
      TableGrows(vocab, lines, rank, table);
      table := table[MergeKey(vocab, lines[rank]) := Merge(rank, MergeId(vocab, lines[rank]))];
    }
    assert lines[..|lines|] == lines;
    r := Some(table);
  }

  // Every byte has its own token.
  predicate BytesKnown(vocab: map<Text, nat>) { forall b: Byte :: [ByteChar(b)] in vocab }

  method BuildBytes(vocab: map<Text, nat>) returns (r: Option<seq<nat>>)
    ensures r.Some? <==> BytesKnown(vocab)
    ensures r.Some? ==> |r.value| == 256 && forall b: Byte :: r.value[b] == vocab[[ByteChar(b)]]
  {
    var table := ByteChars();
    var ids: seq<nat> := [];
    for b := 0 to 256
      invariant |ids| == b
      invariant forall i: Byte :: i < b ==> [ByteChar(i)] in vocab && ids[i] == vocab[[ByteChar(i)]]
    {
      var byte: Byte := b;
      if [table[byte]] !in vocab {
        return None;
      }
      ids := ids + [vocab[[table[byte]]]];
    }
    r := Some(ids);
  }

  // What the table of token texts may hold at an id: the last added token, else a vocabulary token, else nothing.
  ghost predicate Names(file: File, id: nat, text: Text) {
    || (exists i: nat :: LastAdded(file.added, i, id) && text == file.added[i].content)
    || ((forall i :: 0 <= i < |file.added| ==> file.added[i].id != id) && NamesInVocab(file.vocab, id, text))
  }

  ghost predicate LastAdded(added: seq<Added>, i: nat, id: nat) {
    i < |added| && added[i].id == id && forall j :: i < j < |added| ==> added[j].id != id
  }

  ghost predicate NamesInVocab(vocab: map<Text, nat>, id: nat, text: Text) {
    (text in vocab && vocab[text] == id) || (text == [] && id !in vocab.Values)
  }

  // `order` lists the vocabulary in the order its hash map is walked.
  ghost predicate Walks(order: seq<Text>, vocab: map<Text, nat>) { forall name :: name in order <==> name in vocab }

  // Some token has the id.
  ghost predicate Named(file: File, id: nat) {
    id in file.vocab.Values || exists i :: 0 <= i < |file.added| && file.added[i].id == id
  }

  method BuildTokens(file: File, order: seq<Text>) returns (tokens: seq<Text>)
    requires Walks(order, file.vocab)
    ensures forall id :: id in file.vocab.Values ==> id < |tokens|
    ensures forall i :: 0 <= i < |file.added| ==> file.added[i].id < |tokens|
    ensures |tokens| == 0 || Named(file, |tokens| - 1)
    ensures forall id :: 0 <= id < |tokens| ==> Names(file, id, tokens[id])
  {
    var size := Size(file, order);
    assert forall name :: name in order ==> name in file.vocab;
    var slots := new Text[size](_ => []);
    for k := 0 to |order|
      invariant forall id :: 0 <= id < size ==>
        (slots[id] in file.vocab && file.vocab[slots[id]] == id) ||
          (slots[id] == [] && forall i :: 0 <= i < k ==> file.vocab[order[i]] != id)
    {
      assert order[k] in file.vocab;
      slots[file.vocab[order[k]]] := order[k];
    }
    assert forall id :: 0 <= id < size ==> NamesInVocab(file.vocab, id, slots[id]);
    for k := 0 to |file.added|
      invariant forall id :: 0 <= id < size ==> Names(file.(added := file.added[..k]), id, slots[id])
    {
      var a := file.added[k];
      slots[a.id] := a.content;
      forall id | 0 <= id < size ensures Names(file.(added := file.added[..k + 1]), id, slots[id]) {
        NamesAfter(file, k, id, if id == a.id then a.content else slots[id]);
      }
    }
    assert file.(added := file.added[..|file.added|]) == file;
    tokens := slots[..];
  }

  lemma NamesAfter(file: File, k: nat, id: nat, text: Text)
    requires k < |file.added|
    requires if id == file.added[k].id then text == file.added[k].content
      else Names(file.(added := file.added[..k]), id, text)
    ensures Names(file.(added := file.added[..k + 1]), id, text)
  {
    var was, now := file.added[..k], file.added[..k + 1];
    if id == file.added[k].id {
      assert LastAdded(now, k, id);
    } else if i: nat :| LastAdded(was, i, id) && text == was[i].content {
      assert LastAdded(now, i, id);
    }
  }

  // One more than the largest id, or 0.
  method Size(file: File, order: seq<Text>) returns (size: nat)
    requires Walks(order, file.vocab)
    ensures forall name :: name in file.vocab ==> file.vocab[name] < size
    ensures forall i :: 0 <= i < |file.added| ==> file.added[i].id < size
    ensures size == 0 || Named(file, size - 1)
  {
    size := 0;
    for k := 0 to |order|
      invariant forall i :: 0 <= i < k ==> order[i] in file.vocab && file.vocab[order[i]] < size
      invariant size == 0 || size - 1 in file.vocab.Values
    {
      assert order[k] in file.vocab;
      if file.vocab[order[k]] >= size { size := file.vocab[order[k]] + 1; }
    }
    assert forall name :: name in file.vocab ==> name in order;
    for k := 0 to |file.added|
      invariant forall name :: name in file.vocab ==> file.vocab[name] < size
      invariant forall i :: 0 <= i < k ==> file.added[i].id < size
      invariant size == 0 || Named(file, size - 1)
    {
      if file.added[k].id >= size { size := file.added[k].id + 1; }
    }
  }

  function Specials(added: seq<Added>): map<Text, nat> {
    if added == [] then map[] else Specials(added[..|added| - 1])[added[|added| - 1].content := added[|added| - 1].id]
  }

  predicate Accepts(file: File) {
    BytesKnown(file.vocab) && forall i :: 0 <= i < |file.merges| ==> MergeKnown(file.vocab, file.merges[i])
  }

  ghost predicate BuiltFrom(t: Tokenizer, file: File) {
    && (forall id :: id in file.vocab.Values ==> id < |t.tokens|)
    && (forall id :: 0 <= id < |t.tokens| ==> Names(file, id, t.tokens[id]))
    && t.specials == Specials(file.added)
    && BytesKnown(file.vocab) && |t.byteIds| == 256 && (forall b: Byte :: t.byteIds[b] == file.vocab[[ByteChar(b)]])
    && TableOf(file.vocab, file.merges, t.merges)
    && t.splits == file.splits
  }

  method Parse(file: File, order: seq<Text>) returns (r: Option<Tokenizer>)
    requires Walks(order, file.vocab)
    ensures r.Some? <==> Accepts(file)
    ensures r.Some? ==> BuiltFrom(r.value, file)
  {
    var tokens := BuildTokens(file, order);
    var specials: map<Text, nat> := map[];
    for k := 0 to |file.added|
      invariant specials == Specials(file.added[..k])
    {
      assert file.added[..k + 1][..k] == file.added[..k];
      specials := specials[file.added[k].content := file.added[k].id];
    }
    assert file.added[..|file.added|] == file.added;
    var bytes := BuildBytes(file.vocab);
    if bytes.None? { return None; }
    var merges := BuildMerges(file.vocab, file.merges);
    if merges.None? { return None; }
    r := Some(Tokenizer(tokens, specials, bytes.value, merges.value, file.splits));
  }

  // Vocabulary ids are distinct, and an added token that shares one also shares its text.
  ghost predicate Unambiguous(file: File) {
    && (forall a, b :: a in file.vocab && b in file.vocab && file.vocab[a] == file.vocab[b] ==> a == b)
    && (forall a, i :: a in file.vocab && 0 <= i < |file.added| && file.added[i].id == file.vocab[a] ==>
        file.added[i].content == a)
  }

  // A table whose merges join the texts they replace.
  ghost predicate Coherent(t: Tokenizer) {
    && |t.byteIds| == 256 && (forall b: Byte :: t.byteIds[b] < |t.tokens| && t.tokens[t.byteIds[b]] == [ByteChar(b)])
    && (forall a, b :: (a, b) in t.merges ==> Joins(t, a, b, t.merges[(a, b)].id))
  }

  predicate Joins(t: Tokenizer, a: nat, b: nat, m: nat) {
    a < |t.tokens| && b < |t.tokens| && m < |t.tokens| && t.tokens[m] == t.tokens[a] + t.tokens[b]
  }

  lemma VocabularyKeepsItsText(t: Tokenizer, file: File, name: Text)
    requires BuiltFrom(t, file) && Unambiguous(file) && name in file.vocab
    ensures file.vocab[name] < |t.tokens| && t.tokens[file.vocab[name]] == name
  {
    var id := file.vocab[name];
    assert id in file.vocab.Values;
    assert Names(file, id, t.tokens[id]);
  }

  /** The tables of an unambiguous file are coherent. */
  lemma BuiltTablesAreCoherent(t: Tokenizer, file: File)
    requires BuiltFrom(t, file) && Unambiguous(file)
    ensures Coherent(t)
  {
    forall b: Byte ensures t.byteIds[b] < |t.tokens| && t.tokens[t.byteIds[b]] == [ByteChar(b)] {
      VocabularyKeepsItsText(t, file, [ByteChar(b)]);
    }
    forall a, b | (a, b) in t.merges ensures Joins(t, a, b, t.merges[(a, b)].id) {
      var m := t.merges[(a, b)];
      assert LineOf(file.vocab, file.merges, (a, b), m);
      var (x, y) := SplitOnce(file.merges[m.rank]).value;
      VocabularyKeepsItsText(t, file, x);
      VocabularyKeepsItsText(t, file, y);
      VocabularyKeepsItsText(t, file, x + y);
    }
  }

  // ----- Merging -----

  // Replace the pair from left to right, without overlap.
  function MergePair(s: seq<nat>, a: nat, b: nat, m: nat): (r: seq<nat>)
    ensures |r| <= |s|
  {
    if |s| < 2 then s
    else if s[0] == a && s[1] == b then [m] + MergePair(s[2..], a, b, m)
    else [s[0]] + MergePair(s[1..], a, b, m)
  }

  lemma {:induction false} MergeShrinks(s: seq<nat>, a: nat, b: nat, m: nat, i: nat)
    requires i + 1 < |s| && s[i] == a && s[i + 1] == b
    ensures |MergePair(s, a, b, m)| < |s|
  {
    if !(s[0] == a && s[1] == b) {
      MergeShrinks(s[1..], a, b, m, i - 1);
    }
  }

  // One turn of the compaction loop, on values: what is done, and the rest.
  lemma MergeTurn(done: seq<nat>, rest: seq<nat>, a: nat, b: nat, m: nat)
    requires rest != []
    ensures |rest| >= 2 && rest[0] == a && rest[1] == b ==>
      done + MergePair(rest, a, b, m) == (done + [m]) + MergePair(rest[2..], a, b, m)
    ensures !(|rest| >= 2 && rest[0] == a && rest[1] == b) ==>
      done + MergePair(rest, a, b, m) == (done + [rest[0]]) + MergePair(rest[1..], a, b, m)
  {
    assert |rest| == 1 ==> rest == [rest[0]] + [] && rest[1..] == [];
  }

  // The compaction of the symbol buffer, in place.
  method MergePass(symbols: array<nat>, len: nat, a: nat, b: nat, m: nat) returns (write: nat)
    requires len <= symbols.Length
    modifies symbols
    ensures write <= len && symbols[..write] == MergePair(old(symbols[..len]), a, b, m)
  {
    write := 0;
    var read := 0;
    ghost var done: seq<nat>, rest := [], symbols[..len];
    ghost var all := MergePair(rest, a, b, m);
    while read < len
      invariant write <= read <= len && Compacted(symbols[..], done, write, rest, read, len)
      invariant done + MergePair(rest, a, b, m) == all
    {
      MergeTurn(done, rest, a, b, m);
      var pair := read + 1 < len && symbols[read] == a && symbols[read + 1] == b;
      var step, out := if pair then 2 else 1, if pair then m else symbols[read];
      CompactedStep(symbols[..], done, write, rest, read, len, step, out);
      symbols[write] := out;
      done, rest := done + [out], rest[step..];
      read, write := read + step, write + 1;
    }
    assert rest == [] && done == all;
  }

  // The buffer holds what is done at its front and what is left from `read` on.
  ghost predicate Compacted(buffer: seq<nat>, done: seq<nat>, write: nat, rest: seq<nat>, read: nat, len: nat) {
    && write <= read <= len <= |buffer| && |done| == write && |rest| == len - read
    && (forall i :: 0 <= i < write ==> buffer[i] == done[i])
    && (forall i :: 0 <= i < |rest| ==> buffer[read + i] == rest[i])
  }

  lemma CompactedStep(
    buffer: seq<nat>, done: seq<nat>, write: nat, rest: seq<nat>, read: nat, len: nat, step: nat, out: nat)
    requires Compacted(buffer, done, write, rest, read, len) && 1 <= step <= |rest|
    ensures Compacted(buffer[write := out], done + [out], write + 1, rest[step..], read + step, len)
    ensures buffer[read] == rest[0] && (read + 1 < len ==> buffer[read + 1] == rest[1])
  {
    assert buffer[read + 0] == rest[0];
    if read + 1 < len { assert buffer[read + 1] == rest[1]; }
    forall i | 0 <= i < |rest[step..]| ensures buffer[write := out][read + step + i] == rest[step..][i] {
      assert buffer[read + (step + i)] == rest[step + i];
    }
  }

  predicate Mergeable(merges: map<(nat, nat), Merge>, s: seq<nat>, i: nat) { i + 1 < |s| && (s[i], s[i + 1]) in merges }

  function Rank(merges: map<(nat, nat), Merge>, s: seq<nat>, i: nat): nat
    requires Mergeable(merges, s, i)
  { merges[(s[i], s[i + 1])].rank }

  // The first of the pairs of least rank that start before `end`.
  ghost predicate IsBest(merges: map<(nat, nat), Merge>, s: seq<nat>, end: nat, i: nat) {
    && i < end && Mergeable(merges, s, i)
    && (forall j: nat :: j < end && Mergeable(merges, s, j) ==> Rank(merges, s, i) <= Rank(merges, s, j))
    && (forall j: nat :: j < i && Mergeable(merges, s, j) ==> Rank(merges, s, i) < Rank(merges, s, j))
  }

  ghost predicate Exhausted(merges: map<(nat, nat), Merge>, s: seq<nat>) { forall j: nat :: !Mergeable(merges, s, j) }

  // The left-to-right search keeps the first of the least.
  method BestPair(merges: map<(nat, nat), Merge>, symbols: array<nat>, len: nat) returns (best: Option<nat>)
    requires len <= symbols.Length
    ensures best.None? ==> Exhausted(merges, symbols[..len])
    ensures best.Some? ==> IsBest(merges, symbols[..len], len, best.value)
  {
    best := None;
    ghost var s := symbols[..len];
    for i := 0 to len
      invariant best.None? ==> forall j: nat :: j < i ==> !Mergeable(merges, s, j)
      invariant best.Some? ==> IsBest(merges, s, i, best.value)
    {
      if i + 1 < len && (symbols[i], symbols[i + 1]) in merges {
        assert Mergeable(merges, s, i);
        var rank := merges[(symbols[i], symbols[i + 1])].rank;
        if best.None? || rank < merges[(symbols[best.value], symbols[best.value + 1])].rank {
          best := Some(i);
        }
      }
    }
  }

  lemma {:induction false} SomePairIsBest(merges: map<(nat, nat), Merge>, s: seq<nat>, end: nat)
    ensures (exists i: nat :: IsBest(merges, s, end, i)) || (forall j: nat :: j < end ==> !Mergeable(merges, s, j))
  {
    if end > 0 {
      var e := end - 1;
      SomePairIsBest(merges, s, e);
      if i: nat :| IsBest(merges, s, e, i) {
        assert IsBest(merges, s, end, if Mergeable(merges, s, e) && Rank(merges, s, e) < Rank(merges, s, i) then e
          else i);
      } else if Mergeable(merges, s, e) {
        assert IsBest(merges, s, end, e);
      }
    }
  }

  // One pass: the pair at `i` is replaced everywhere.
  function Pass(merges: map<(nat, nat), Merge>, s: seq<nat>, i: nat): (r: seq<nat>)
    requires Mergeable(merges, s, i)
    ensures |r| < |s|
  {
    MergeShrinks(s, s[i], s[i + 1], merges[(s[i], s[i + 1])].id, i);
    MergePair(s, s[i], s[i + 1], merges[(s[i], s[i + 1])].id)
  }

  // Passes over the best pair until no pair is left.
  ghost function Merged(merges: map<(nat, nat), Merge>, s: seq<nat>): (r: seq<nat>)
    ensures Exhausted(merges, r)
    decreases |s|
  {
    SomePairIsBest(merges, s, |s|);
    if exists i: nat :: IsBest(merges, s, |s|, i) then
      var i: nat :| IsBest(merges, s, |s|, i);
      Merged(merges, Pass(merges, s, i))
    else s
  }

  lemma MergedTakesTheBest(merges: map<(nat, nat), Merge>, s: seq<nat>, i: nat)
    requires IsBest(merges, s, |s|, i)
    ensures Merged(merges, s) == Merged(merges, Pass(merges, s, i))
  {
    assert forall j: nat :: IsBest(merges, s, |s|, j) ==> j == i;
  }

  lemma ExhaustedIsMerged(merges: map<(nat, nat), Merge>, s: seq<nat>)
    requires Exhausted(merges, s)
    ensures Merged(merges, s) == s
  {}

  ghost function ByteSymbols(t: Tokenizer, bytes: seq<Byte>): seq<nat>
    requires |t.byteIds| == 256
  { seq(|bytes|, i requires 0 <= i < |bytes| => t.byteIds[bytes[i]]) }

  method Bpe(t: Tokenizer, bytes: seq<Byte>, out: seq<nat>) returns (r: seq<nat>)
    requires |t.byteIds| == 256
    ensures r == out + Merged(t.merges, ByteSymbols(t, bytes))
  {
    var symbols := new nat[|bytes|](i requires 0 <= i < |bytes| => t.byteIds[bytes[i]]);
    var len := |bytes|;
    ghost var start := ByteSymbols(t, bytes);
    assert symbols[..len] == start;
    while len > 1
      invariant len <= symbols.Length
      invariant Merged(t.merges, symbols[..len]) == Merged(t.merges, start)
      decreases len
    {
      var best := BestPair(t.merges, symbols, len);
      if best.None? {
        break;
      }
      ghost var s := symbols[..len];
      MergedTakesTheBest(t.merges, s, best.value);
      var a, b := symbols[best.value], symbols[best.value + 1];
      len := MergePass(symbols, len, a, b, t.merges[(a, b)].id);
      assert symbols[..len] == Pass(t.merges, s, best.value);
    }
    ExhaustedIsMerged(t.merges, symbols[..len]);
    r := out + symbols[..len];
  }

  // ----- Splitting -----

  // Matches are ordered and apart, and nothing follows a failure.
  ghost predicate Ordered(found: seq<Match>, from: nat, len: nat) {
    found == [] || found[0].Failed? ||
      (from <= found[0].start <= found[0].end <= len && Ordered(found[1..], found[0].end, len))
  }

  ghost predicate Sound(find: Splitter) { forall text :: Ordered(find(text), 0, |text|) }

  function Piece(text: Text, from: nat, to: nat): seq<Text>
    requires from <= to <= |text|
  { if from < to then [text[from..to]] else [] }

  // The matches and the gaps between them; after a failure the rest is one piece.
  function Pieces(text: Text, found: seq<Match>, last: nat): (r: seq<Text>)
    requires last <= |text| && Ordered(found, last, |text|)
    decreases |found|
  {
    if found == [] || found[0].Failed? then Piece(text, last, |text|)
    else
      var m := found[0];
      Piece(text, last, m.start) + Piece(text, m.start, m.end) + Pieces(text, found[1..], m.end)
  }

  function Join(pieces: seq<Text>): Text { if pieces == [] then [] else pieces[0] + Join(pieces[1..]) }

  lemma {:induction false} JoinAppends(a: seq<Text>, b: seq<Text>)
    ensures Join(a + b) == Join(a) + Join(b)
  {
    if a == [] {
      assert a + b == b;
    } else {
      assert (a + b)[1..] == a[1..] + b;
      JoinAppends(a[1..], b);
    }
  }

  lemma JoinPiece(text: Text, from: nat, to: nat)
    requires from <= to <= |text|
    ensures Join(Piece(text, from, to)) == text[from..to]
  {
    if from < to {
      var p := [text[from..to]];
      assert p[1..] == [];
      assert Join(p) == p[0] + Join([]);
    }
  }

  lemma SlicesJoin(text: Text, a: nat, b: nat, c: nat)
    requires a <= b <= c <= |text|
    ensures text[a..b] + text[b..c] + text[c..] == text[a..]
  {}

  /** Splitting loses nothing. */
  lemma {:induction false} PiecesSpellTheText(text: Text, found: seq<Match>, last: nat)
    requires last <= |text| && Ordered(found, last, |text|)
    ensures Join(Pieces(text, found, last)) == text[last..]
    decreases |found|
  {
    if found == [] || found[0].Failed? {
      JoinPiece(text, last, |text|);
      assert text[last..|text|] == text[last..];
    } else {
      var start, end := found[0].start, found[0].end;
      JoinPiece(text, last, start);
      JoinPiece(text, start, end);
      PiecesSpellTheText(text, found[1..], end);
      JoinAppends(Piece(text, last, start) + Piece(text, start, end), Pieces(text, found[1..], end));
      JoinAppends(Piece(text, last, start), Piece(text, start, end));
      SlicesJoin(text, last, start, end);
    }
  }

  // One turn of the splitting loop, on values.
  lemma PiecesTurn(text: Text, found: seq<Match>, k: nat, last: nat, out: seq<Text>)
    requires k < |found| && last <= |text| && Ordered(found[k..], last, |text|) && found[k].Found?
    ensures last <= found[k].start <= found[k].end <= |text| && Ordered(found[k + 1..], found[k].end, |text|)
    ensures out + Pieces(text, found[k..], last) ==
      out + Piece(text, last, found[k].start) + Piece(text, found[k].start, found[k].end) +
        Pieces(text, found[k + 1..], found[k].end)
  {
    assert found[k..][0] == found[k] && found[k..][1..] == found[k + 1..];
  }

  method Emit(text: Text, from: nat, to: nat, out: seq<Text>) returns (r: seq<Text>)
    requires from <= to <= |text|
    ensures r == out + Piece(text, from, to)
  {
    r := if to > from then out + [text[from..to]] else out;
  }

  method SplitIsolated(find: Splitter, text: Text, out: seq<Text>) returns (r: seq<Text>)
    requires Ordered(find(text), 0, |text|)
    ensures r == out + Pieces(text, find(text), 0)
  {
    r := out;
    var last: nat, k := 0, 0;
    var found := find(text);
    ghost var whole := out + Pieces(text, found, 0);
    assert found[0..] == found;
    while k < |found| && found[k].Found?
      invariant k <= |found| && last <= |text| && Ordered(found[k..], last, |text|)
      invariant r + Pieces(text, found[k..], last) == whole
    {
      PiecesTurn(text, found, k, last, r);
      r := Emit(text, last, found[k].start, r);
      r := Emit(text, found[k].start, found[k].end, r);
      last, k := found[k].end, k + 1;
    }
    r := Emit(text, last, |text|, r);
  }

  ghost function SplitEach(find: Splitter, pieces: seq<Text>): seq<Text>
    requires Sound(find)
  {
    if pieces == [] then [] else
      var n := |pieces| - 1;
      SplitEach(find, pieces[..n]) + Pieces(pieces[n], find(pieces[n]), 0)
  }

  // Every split refines the pieces of the one before.
  ghost function SplitAll(splits: seq<Splitter>, text: Text): seq<Text>
    requires forall i :: 0 <= i < |splits| ==> Sound(splits[i])
  {
    if splits == [] then [text] else
      var n := |splits| - 1;
      SplitEach(splits[n], SplitAll(splits[..n], text))
  }

  lemma {:induction false} JoinSnoc(pieces: seq<Text>)
    requires pieces != []
    ensures Join(pieces) == Join(pieces[..|pieces| - 1]) + pieces[|pieces| - 1]
  {
    var n := |pieces| - 1;
    JoinAppends(pieces[..n], [pieces[n]]);
    assert pieces == pieces[..n] + [pieces[n]];
    assert Join([pieces[n]]) == pieces[n] + Join([pieces[n]][1..]);
  }

  lemma {:induction false} SplitEachSpellsTheText(find: Splitter, pieces: seq<Text>)
    requires Sound(find)
    ensures Join(SplitEach(find, pieces)) == Join(pieces)
  {
    if pieces != [] {
      var n := |pieces| - 1;
      SplitEachSpellsTheText(find, pieces[..n]);
      PiecesSpellTheText(pieces[n], find(pieces[n]), 0);
      JoinAppends(SplitEach(find, pieces[..n]), Pieces(pieces[n], find(pieces[n]), 0));
      JoinSnoc(pieces);
      assert pieces[n][0..] == pieces[n];
    }
  }

  lemma {:induction false} SplitAllSpellsTheText(splits: seq<Splitter>, text: Text)
    requires forall i :: 0 <= i < |splits| ==> Sound(splits[i])
    ensures Join(SplitAll(splits, text)) == text
  {
    if splits == [] {
      assert Join([text]) == text + Join([text][1..]);
    } else {
      var n := |splits| - 1;
      SplitAllSpellsTheText(splits[..n], text);
      SplitEachSpellsTheText(splits[n], SplitAll(splits[..n], text));
    }
  }

  // ----- Encoding and decoding -----

  ghost predicate Usable(t: Tokenizer) { |t.byteIds| == 256 && forall i :: 0 <= i < |t.splits| ==> Sound(t.splits[i]) }

  ghost function PieceIds(t: Tokenizer, pieces: seq<Text>): seq<nat>
    requires Usable(t)
  {
    if pieces == [] then [] else
      var n := |pieces| - 1;
      PieceIds(t, pieces[..n]) + Merged(t.merges, ByteSymbols(t, Utf8.Encode(pieces[n])))
  }

  ghost function EncodedIds(t: Tokenizer, text: Text): seq<nat>
    requires Usable(t)
  { PieceIds(t, SplitAll(t.splits, text)) }

  // Every piece is split again, in order.
  method SplitPieces(find: Splitter, pieces: seq<Text>) returns (next: seq<Text>)
    requires Sound(find)
    ensures next == SplitEach(find, pieces)
  {
    next := [];
    for k := 0 to |pieces|
      invariant next == SplitEach(find, pieces[..k])
    {
      assert pieces[..k + 1][..k] == pieces[..k];
      next := SplitIsolated(find, pieces[k], next);
    }
    assert pieces[..|pieces|] == pieces;
  }

  method SplitText(splits: seq<Splitter>, text: Text) returns (pieces: seq<Text>)
    requires forall i :: 0 <= i < |splits| ==> Sound(splits[i])
    ensures pieces == SplitAll(splits, text)
  {
    pieces := [text];
    for i := 0 to |splits|
      invariant pieces == SplitAll(splits[..i], text)
    {
      assert splits[..i + 1][..i] == splits[..i];
      pieces := SplitPieces(splits[i], pieces);
    }
    assert splits[..|splits|] == splits;
  }

  lemma OneMorePiece(t: Tokenizer, pieces: seq<Text>, k: nat)
    requires Usable(t) && k < |pieces|
    ensures PieceIds(t, pieces[..k + 1]) ==
      PieceIds(t, pieces[..k]) + Merged(t.merges, ByteSymbols(t, Utf8.Encode(pieces[k])))
  {
    assert pieces[..k + 1][..k] == pieces[..k];
  }

  method Encode(t: Tokenizer, text: Text) returns (out: seq<nat>)
    requires Usable(t)
    ensures out == EncodedIds(t, text)
  {
    var pieces := SplitText(t.splits, text);
    out := [];
    for k := 0 to |pieces|
      invariant out == PieceIds(t, pieces[..k])
    {
      OneMorePiece(t, pieces, k);
      var bytes := Utf8.Encode(pieces[k]);
      out := Bpe(t, bytes, out);
    }
    assert pieces[..|pieces|] == pieces;
  }

  predicate ByteLevel(token: Text) { forall i :: 0 <= i < |token| ==> CharByte(token[i]).Some? }

  function LevelBytes(token: Text): seq<Byte>
    requires ByteLevel(token)
  { seq(|token|, i requires 0 <= i < |token| => CharByte(token[i]).value) }

  // The bytes of a token. Text that is not byte-level stays as UTF-8; an id past the table has none.
  function TokenBytes(t: Tokenizer, id: nat): seq<Byte> {
    if id >= |t.tokens| then []
    else if ByteLevel(t.tokens[id]) then LevelBytes(t.tokens[id])
    else Utf8.Encode(t.tokens[id])
  }

  function IdsBytes(t: Tokenizer, ids: seq<nat>): seq<Byte> {
    if ids == [] then [] else TokenBytes(t, ids[0]) + IdsBytes(t, ids[1..])
  }

  function Decode(t: Tokenizer, ids: seq<nat>): Text { Utf8.Decode(IdsBytes(t, ids)) }

  ghost predicate AllByteLevel(t: Tokenizer, ids: seq<nat>) {
    forall i :: 0 <= i < |ids| ==> ids[i] < |t.tokens| && ByteLevel(t.tokens[ids[i]])
  }

  lemma JoinedBytes(t: Tokenizer, a: nat, b: nat, m: nat)
    requires Joins(t, a, b, m) && ByteLevel(t.tokens[a]) && ByteLevel(t.tokens[b])
    ensures ByteLevel(t.tokens[m]) && TokenBytes(t, m) == TokenBytes(t, a) + TokenBytes(t, b)
  {}

  lemma {:induction false} MergePairKeepsBytes(t: Tokenizer, s: seq<nat>, a: nat, b: nat, m: nat)
    requires Joins(t, a, b, m) && AllByteLevel(t, s)
    ensures AllByteLevel(t, MergePair(s, a, b, m)) && IdsBytes(t, MergePair(s, a, b, m)) == IdsBytes(t, s)
    decreases |s|
  {
    if |s| >= 2 {
      if s[0] == a && s[1] == b {
        JoinedBytes(t, a, b, m);
        MergePairKeepsBytes(t, s[2..], a, b, m);
        FrontBytes(t, m, MergePair(s[2..], a, b, m));
        PairBytes(t, s);
      } else {
        MergePairKeepsBytes(t, s[1..], a, b, m);
        FrontBytes(t, s[0], MergePair(s[1..], a, b, m));
      }
    }
  }

  lemma FrontBytes(t: Tokenizer, id: nat, rest: seq<nat>)
    ensures IdsBytes(t, [id] + rest) == TokenBytes(t, id) + IdsBytes(t, rest)
  {
    assert ([id] + rest)[1..] == rest;
  }

  lemma PairBytes(t: Tokenizer, s: seq<nat>)
    requires |s| >= 2
    ensures IdsBytes(t, s) == TokenBytes(t, s[0]) + TokenBytes(t, s[1]) + IdsBytes(t, s[2..])
  {
    assert s[1..][1..] == s[2..];
  }

  lemma {:induction false} MergedKeepsBytes(t: Tokenizer, s: seq<nat>)
    requires Coherent(t) && AllByteLevel(t, s)
    ensures AllByteLevel(t, Merged(t.merges, s)) && IdsBytes(t, Merged(t.merges, s)) == IdsBytes(t, s)
    decreases |s|
  {
    if i: nat :| IsBest(t.merges, s, |s|, i) {
      MergedTakesTheBest(t.merges, s, i);
      var key := (s[i], s[i + 1]);
      assert Joins(t, key.0, key.1, t.merges[key].id);
      MergePairKeepsBytes(t, s, key.0, key.1, t.merges[key].id);
      MergedKeepsBytes(t, Pass(t.merges, s, i));
    }
  }

  lemma {:induction false} ByteSymbolsSpellTheBytes(t: Tokenizer, bytes: seq<Byte>)
    requires Coherent(t)
    ensures AllByteLevel(t, ByteSymbols(t, bytes)) && IdsBytes(t, ByteSymbols(t, bytes)) == bytes
  {
    if bytes != [] {
      ByteSymbolsSpellTheBytes(t, bytes[1..]);
      var s := ByteSymbols(t, bytes);
      assert s[1..] == ByteSymbols(t, bytes[1..]);
      ByteCharsAreReversible(bytes[0], 0);
      assert TokenBytes(t, s[0]) == [bytes[0]];
    }
  }

  lemma {:induction false} IdsBytesAppends(t: Tokenizer, a: seq<nat>, b: seq<nat>)
    ensures IdsBytes(t, a + b) == IdsBytes(t, a) + IdsBytes(t, b)
  {
    if a == [] {
      assert a + b == b;
    } else {
      assert (a + b)[1..] == a[1..] + b;
      IdsBytesAppends(t, a[1..], b);
    }
  }

  lemma {:induction false} PieceIdsSpellThePieces(t: Tokenizer, pieces: seq<Text>)
    requires Usable(t) && Coherent(t)
    ensures IdsBytes(t, PieceIds(t, pieces)) == Utf8.Encode(Join(pieces))
  {
    if pieces != [] {
      var n := |pieces| - 1;
      var bytes := Utf8.Encode(pieces[n]);
      PieceIdsSpellThePieces(t, pieces[..n]);
      ByteSymbolsSpellTheBytes(t, bytes);
      MergedKeepsBytes(t, ByteSymbols(t, bytes));
      IdsBytesAppends(t, PieceIds(t, pieces[..n]), Merged(t.merges, ByteSymbols(t, bytes)));
      JoinSnoc(pieces);
      EncodeAppends(Join(pieces[..n]), pieces[n]);
    }
  }

  /** Decoding gives back every text that was encoded. */
  lemma DecodeInvertsEncode(t: Tokenizer, text: Text)
    requires Usable(t) && Coherent(t)
    ensures Decode(t, EncodedIds(t, text)) == text
  {
    SplitAllSpellsTheText(t.splits, text);
    PieceIdsSpellThePieces(t, SplitAll(t.splits, text));
    TextRoundTrip(text);
  }

  // ----- Special tokens -----

  // The ids that encoding can produce.
  ghost predicate Producible(t: Tokenizer, id: nat) {
    (exists b: Byte :: b < |t.byteIds| && t.byteIds[b] == id) ||
      (exists key :: key in t.merges && t.merges[key].id == id)
  }

  ghost predicate AllProducible(t: Tokenizer, ids: seq<nat>) { forall i :: 0 <= i < |ids| ==> Producible(t, ids[i]) }

  lemma {:induction false} MergePairProduces(s: seq<nat>, a: nat, b: nat, m: nat, i: nat)
    requires i < |MergePair(s, a, b, m)|
    ensures MergePair(s, a, b, m)[i] == m || MergePair(s, a, b, m)[i] in s
    decreases |s|
  {
    if |s| >= 2 && i > 0 {
      if s[0] == a && s[1] == b {
        MergePairProduces(s[2..], a, b, m, i - 1);
      } else {
        MergePairProduces(s[1..], a, b, m, i - 1);
      }
    }
  }

  lemma {:induction false} MergedIsProducible(t: Tokenizer, s: seq<nat>)
    requires AllProducible(t, s)
    ensures AllProducible(t, Merged(t.merges, s))
    decreases |s|
  {
    if i: nat :| IsBest(t.merges, s, |s|, i) {
      MergedTakesTheBest(t.merges, s, i);
      var key := (s[i], s[i + 1]);
      var r := Pass(t.merges, s, i);
      forall k | 0 <= k < |r| ensures Producible(t, r[k]) {
        MergePairProduces(s, key.0, key.1, t.merges[key].id, k);
      }
      MergedIsProducible(t, r);
    }
  }

  lemma {:induction false} PieceIdsAreProducible(t: Tokenizer, pieces: seq<Text>)
    requires Usable(t)
    ensures AllProducible(t, PieceIds(t, pieces))
  {
    if pieces != [] {
      var n := |pieces| - 1;
      PieceIdsAreProducible(t, pieces[..n]);
      MergedIsProducible(t, ByteSymbols(t, Utf8.Encode(pieces[n])));
    }
  }

  /** No id outside the vocabulary is ever produced. */
  lemma OnlyVocabularyIsProduced(t: Tokenizer, file: File, text: Text, i: nat)
    requires BuiltFrom(t, file) && Usable(t) && i < |EncodedIds(t, text)|
    ensures EncodedIds(t, text)[i] in file.vocab.Values
  {
    PieceIdsAreProducible(t, SplitAll(t.splits, text));
    var id := EncodedIds(t, text)[i];
    assert Producible(t, id);
    if key :| key in t.merges && t.merges[key].id == id {
      assert LineOf(file.vocab, file.merges, key, t.merges[key]);
    }
  }
}
