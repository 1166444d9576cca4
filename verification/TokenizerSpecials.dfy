/** Which ids encoding can produce. An id is produced from some bytes exactly if it encodes its own bytes to itself, so
    whether text can forge a special token is decided by encoding one string per special token. */
module TokenizerSpecials {
  import opened Options
  import opened Utf8
  import opened Tokenizer

  // ----- Merging is local -----

  // Different pairs have different ranks, as lines of one list do.
  ghost predicate RanksDiffer(merges: map<(nat, nat), Merge>) {
    forall p, q :: p in merges && q in merges && merges[p].rank == merges[q].rank ==> p == q
  }

  lemma BuiltRanksDiffer(t: Tokenizer, file: File)
    requires BuiltFrom(t, file)
    ensures RanksDiffer(t.merges)
  {
    forall p, q | p in t.merges && q in t.merges && t.merges[p].rank == t.merges[q].rank ensures p == q {
      assert LineOf(file.vocab, file.merges, p, t.merges[p]) && LineOf(file.vocab, file.merges, q, t.merges[q]);
    }
  }

  ghost predicate Occurs(s: seq<nat>, a: nat, b: nat, i: nat) { i + 1 < |s| && s[i] == a && s[i + 1] == b }

  lemma {:induction false} NoPairNoChange(s: seq<nat>, a: nat, b: nat, m: nat)
    requires forall i: nat :: !Occurs(s, a, b, i)
    ensures MergePair(s, a, b, m) == s
  {
    if |s| >= 2 {
      assert !Occurs(s, a, b, 0);
      forall i: nat ensures !Occurs(s[1..], a, b, i) { assert !Occurs(s, a, b, i + 1); }
      NoPairNoChange(s[1..], a, b, m);
    }
  }

  // A pass over a pair of least rank changes nothing about the result, even where the pair does not occur.
  lemma PassOfLeastRank(merges: map<(nat, nat), Merge>, s: seq<nat>, a: nat, b: nat)
    requires RanksDiffer(merges) && (a, b) in merges
    requires forall j: nat :: Mergeable(merges, s, j) ==> merges[(a, b)].rank <= Rank(merges, s, j)
    ensures Merged(merges, MergePair(s, a, b, merges[(a, b)].id)) == Merged(merges, s)
  {
    if i: nat :| Occurs(s, a, b, i) {
      assert Mergeable(merges, s, i);
      SomePairIsBest(merges, s, |s|);
      var k: nat :| IsBest(merges, s, |s|, k);
      assert (s[k], s[k + 1]) == (a, b);
      MergedTakesTheBest(merges, s, k);
    } else {
      NoPairNoChange(s, a, b, merges[(a, b)].id);
    }
  }

  // Where a pass is cut, its input can be cut too.
  lemma {:induction false} PassSplits(s: seq<nat>, a: nat, b: nat, m: nat, k: nat) returns (j: nat)
    requires k <= |MergePair(s, a, b, m)|
    ensures j <= |s|
    ensures MergePair(s[..j], a, b, m) == MergePair(s, a, b, m)[..k]
    ensures MergePair(s[j..], a, b, m) == MergePair(s, a, b, m)[k..]
    decreases |s|
  {
    if k == 0 {
      j := 0;
      assert s[0..] == s;
    } else if |s| < 2 {
      j := k;
      assert s[j..] == [] && s[..j] == s;
    } else {
      var step := if s[0] == a && s[1] == b then 2 else 1;
      var rest := PassSplits(s[step..], a, b, m, k - 1);
      j := step + rest;
      PrefixOfPass(s, a, b, m, step, rest);
      HeadSlices(if step == 2 then m else s[0], MergePair(s[step..], a, b, m), k);
      assert s[step..][rest..] == s[j..];
    }
  }

  lemma HeadSlices(head: nat, tail: seq<nat>, k: nat)
    requires 0 < k <= |tail| + 1
    ensures ([head] + tail)[..k] == [head] + tail[..k - 1] && ([head] + tail)[k..] == tail[k - 1..]
  {}

  lemma PrefixOfPass(s: seq<nat>, a: nat, b: nat, m: nat, step: nat, rest: nat)
    requires |s| >= 2 && step == (if s[0] == a && s[1] == b then 2 else 1) && step + rest <= |s|
    ensures MergePair(s[..step + rest], a, b, m) ==
      [if step == 2 then m else s[0]] + MergePair(s[step..][..rest], a, b, m)
  {
    var u := s[..step + rest];
    assert u[step..] == s[step..][..rest];
    if |u| < 2 { assert u == [s[0]] && u[step..] == []; }
  }

  // Merging a whole is merging its parts: wherever the result is cut, the input can be cut so that each part merges to
  // its own side.
  lemma {:induction false} MergedSplits(merges: map<(nat, nat), Merge>, s: seq<nat>, k: nat) returns (j: nat)
    requires RanksDiffer(merges) && k <= |Merged(merges, s)|
    ensures j <= |s| && Merged(merges, s[..j]) == Merged(merges, s)[..k]
    ensures Merged(merges, s[j..]) == Merged(merges, s)[k..]
    decreases |s|
  {
    SomePairIsBest(merges, s, |s|);
    if i: nat :| IsBest(merges, s, |s|, i) {
      var a, b := s[i], s[i + 1];
      var m := merges[(a, b)].id;
      MergedTakesTheBest(merges, s, i);
      var after := Pass(merges, s, i);
      var cut := MergedSplits(merges, after, k);
      j := PassSplits(s, a, b, m, cut);
      PartsKeepLeastRank(merges, s, i, j);
      PassOfLeastRank(merges, s[..j], a, b);
      PassOfLeastRank(merges, s[j..], a, b);
    } else {
      j := k;
      assert Exhausted(merges, s);
      ExhaustedIsMerged(merges, s);
      PartsAreExhausted(merges, s, k);
      ExhaustedIsMerged(merges, s[..k]);
      ExhaustedIsMerged(merges, s[k..]);
    }
  }

  // Every symbol of the result is what one part of the input merges to.
  lemma MergedPart(merges: map<(nat, nat), Merge>, s: seq<nat>, i: nat) returns (u: nat, v: nat)
    requires RanksDiffer(merges) && i < |Merged(merges, s)|
    ensures u <= v <= |s| && Merged(merges, s[u..v]) == [Merged(merges, s)[i]]
  {
    var r := Merged(merges, s);
    u := MergedSplits(merges, s, i);
    var len := MergedSplits(merges, s[u..], 1);
    v := u + len;
    assert r[i..][..1] == [r[i]];
    assert s[u..][..len] == s[u..v];
  }

  lemma PartsKeepLeastRank(merges: map<(nat, nat), Merge>, s: seq<nat>, i: nat, j: nat)
    requires IsBest(merges, s, |s|, i) && j <= |s|
    ensures forall x: nat :: Mergeable(merges, s[..j], x) ==> Rank(merges, s, i) <= Rank(merges, s[..j], x)
    ensures forall x: nat :: Mergeable(merges, s[j..], x) ==> Rank(merges, s, i) <= Rank(merges, s[j..], x)
  {
    forall x: nat | Mergeable(merges, s[..j], x) ensures Rank(merges, s, i) <= Rank(merges, s[..j], x) {
      assert Mergeable(merges, s, x);
    }
    forall x: nat | Mergeable(merges, s[j..], x) ensures Rank(merges, s, i) <= Rank(merges, s[j..], x) {
      assert Mergeable(merges, s, j + x);
    }
  }

  lemma PartsAreExhausted(merges: map<(nat, nat), Merge>, s: seq<nat>, k: nat)
    requires Exhausted(merges, s) && k <= |s|
    ensures Exhausted(merges, s[..k]) && Exhausted(merges, s[k..])
  {
    forall x: nat ensures !Mergeable(merges, s[..k], x) { assert !Mergeable(merges, s, x); }
    forall x: nat ensures !Mergeable(merges, s[k..], x) { assert !Mergeable(merges, s, k + x); }
  }

  // ----- Produced ids -----

  // Encoding the token's own bytes gives the token.
  ghost predicate EncodesItself(t: Tokenizer, x: nat)
    requires |t.byteIds| == 256
  { Merged(t.merges, ByteSymbols(t, TokenBytes(t, x))) == [x] }

  lemma {:induction false} ProducedIdEncodesItself(t: Tokenizer, bytes: seq<Byte>, i: nat)
    requires Coherent(t) && RanksDiffer(t.merges) && i < |Merged(t.merges, ByteSymbols(t, bytes))|
    ensures EncodesItself(t, Merged(t.merges, ByteSymbols(t, bytes))[i])
  {
    var s := ByteSymbols(t, bytes);
    var u, v := MergedPart(t.merges, s, i);
    BytesOfPart(t, bytes, u, v);
    LoneIdEncodesItself(t, bytes[u..v], Merged(t.merges, s)[i]);
  }

  lemma BytesOfPart(t: Tokenizer, bytes: seq<Byte>, u: nat, v: nat)
    requires |t.byteIds| == 256 && u <= v <= |bytes|
    ensures ByteSymbols(t, bytes)[u..v] == ByteSymbols(t, bytes[u..v])
  {}

  lemma LoneIdEncodesItself(t: Tokenizer, bytes: seq<Byte>, x: nat)
    requires Coherent(t) && Merged(t.merges, ByteSymbols(t, bytes)) == [x]
    ensures EncodesItself(t, x)
  {
    ByteSymbolsSpellTheBytes(t, bytes);
    MergedKeepsBytes(t, ByteSymbols(t, bytes));
    OneIdBytes(t, x);
  }

  lemma OneIdBytes(t: Tokenizer, x: nat)
    ensures IdsBytes(t, [x]) == TokenBytes(t, x)
  {
    assert [x][1..] == [];
  }

  /** An id is produced from some bytes exactly if it encodes its own bytes to itself. */
  lemma ProducedIffEncodesItself(t: Tokenizer, x: nat)
    requires Coherent(t) && RanksDiffer(t.merges)
    ensures (exists bytes: seq<Byte> :: x in Merged(t.merges, ByteSymbols(t, bytes))) <==> EncodesItself(t, x)
  {
    if bytes: seq<Byte> :| x in Merged(t.merges, ByteSymbols(t, bytes)) {
      var i: nat :| i < |Merged(t.merges, ByteSymbols(t, bytes))| && Merged(t.merges, ByteSymbols(t, bytes))[i] == x;
      ProducedIdEncodesItself(t, bytes, i);
    }
    if EncodesItself(t, x) {
      assert x in Merged(t.merges, ByteSymbols(t, TokenBytes(t, x)));
    }
  }

  // ----- Texts -----

  lemma {:induction false} PieceIdsEncodeThemselves(t: Tokenizer, pieces: seq<Text>, x: nat)
    requires Usable(t) && Coherent(t) && RanksDiffer(t.merges) && x in PieceIds(t, pieces)
    ensures EncodesItself(t, x)
  {
    if pieces != [] {
      var n := |pieces| - 1;
      if x in PieceIds(t, pieces[..n]) {
        PieceIdsEncodeThemselves(t, pieces[..n], x);
      } else {
        assert x in Merged(t.merges, ByteSymbols(t, Utf8.Encode(pieces[n])));
        ProducedIffEncodesItself(t, x);
      }
    }
  }

  // The token's bytes are a text that the patterns leave in one piece.
  ghost predicate WholeText(t: Tokenizer, x: nat, u: Text)
    requires Usable(t)
  { TokenBytes(t, x) == Utf8.Encode(u) && SplitAll(t.splits, u) == [u] }

  lemma WholeTextEncodes(t: Tokenizer, x: nat, u: Text)
    requires Usable(t) && WholeText(t, x, u) && EncodesItself(t, x)
    ensures EncodedIds(t, u) == [x]
  {
    assert [u][..0] == [];
    assert PieceIds(t, [u]) == PieceIds(t, [u][..0]) + Merged(t.merges, ByteSymbols(t, Utf8.Encode(u)));
  }

  // Some text produces the id.
  ghost predicate Forgeable(t: Tokenizer, x: nat)
    requires Usable(t)
  { exists text: Text :: x in EncodedIds(t, text) }

  /** No text produces an id that does not encode itself; one whose text the patterns keep whole is produced exactly
      if it does. */
  lemma ForgeableIffEncodesItself(t: Tokenizer, x: nat)
    requires Usable(t) && Coherent(t) && RanksDiffer(t.merges)
    ensures Forgeable(t, x) ==> EncodesItself(t, x)
    ensures (exists u: Text :: WholeText(t, x, u)) ==> (Forgeable(t, x) <==> EncodesItself(t, x))
  {
    if text: Text :| x in EncodedIds(t, text) {
      PieceIdsEncodeThemselves(t, SplitAll(t.splits, text), x);
    }
    if u: Text :| WholeText(t, x, u) && EncodesItself(t, x) {
      WholeTextEncodes(t, x, u);
      assert x in EncodedIds(t, u);
    }
  }

  /** Text cannot forge a special token if and only if no special token encodes itself, for a file whose special tokens
      are texts that the patterns keep whole. */
  lemma SpecialsAreSafeIff(t: Tokenizer, file: File)
    requires BuiltFrom(t, file) && Unambiguous(file) && Usable(t)
    requires forall x :: x in t.specials.Values ==> exists u: Text :: WholeText(t, x, u)
    ensures (forall x :: x in t.specials.Values ==> !Forgeable(t, x)) <==>
      (forall x :: x in t.specials.Values ==> !EncodesItself(t, x))
  {
    BuiltTablesAreCoherent(t, file);
    BuiltRanksDiffer(t, file);
    forall x | x in t.specials.Values ensures Forgeable(t, x) <==> EncodesItself(t, x) {
      ForgeableIffEncodesItself(t, x);
    }
  }

  // ----- Ids of their own -----

  lemma {:induction false} SpecialIdsAreAdded(added: seq<Added>, x: nat)
    requires x in Specials(added).Values
    ensures exists i :: 0 <= i < |added| && added[i].id == x
  {
    var n := |added| - 1;
    if added[n].id != x {
      SpecialIdsAreAdded(added[..n], x);
      var i :| 0 <= i < n && added[..n][i].id == x;
      assert added[i].id == x;
    }
  }

  /** Where no added token shares an id with the vocabulary, no text produces a special id. */
  lemma NoSpecialIdIsProduced(t: Tokenizer, file: File, text: Text, i: nat)
    requires BuiltFrom(t, file) && Usable(t) && i < |EncodedIds(t, text)|
    requires forall k :: 0 <= k < |file.added| ==> file.added[k].id !in file.vocab.Values
    ensures EncodedIds(t, text)[i] !in t.specials.Values
  {
    OnlyVocabularyIsProduced(t, file, text, i);
    var x := EncodedIds(t, text)[i];
    if x in t.specials.Values { SpecialIdsAreAdded(file.added, x); }
  }

  // ----- A file whose special token text can forge -----

  const A: Scalar := 97
  const B: Scalar := 98
  const Space: Scalar := 32

  // The byte tokens, and one merge whose result is also a special token.
  function ByteNames(): set<Text> { set b: Byte :: [ByteChar(b)] }

  function NamedByte(name: Text): nat { if |name| == 1 && CharByte(name[0]).Some? then CharByte(name[0]).value else 0 }

  function SharedVocab(): map<Text, nat> { (map name | name in ByteNames() :: NamedByte(name))[[A, B] := 256] }

  function SharedIdFile(): File { File([Added(256, [A, B])], [], SharedVocab(), [[A, Space, B]]) }

  lemma SharedVocabHolds(b: Byte)
    ensures [ByteChar(b)] in SharedVocab() && SharedVocab()[[ByteChar(b)]] == b
    ensures [A, B] in SharedVocab() && SharedVocab()[[A, B]] == 256
  {
    assert |[ByteChar(b)]| != |[A, B]|;
    assert [ByteChar(b)] in ByteNames();
    ByteCharsAreReversible(b, 0);
  }

  lemma SplitsAtTheSpace(line: Text)
    requires line == [A, Space, B]
    ensures SplitOnce(line) == Some(([A], [B]))
  {
    assert line[1..][0] == Space == ' ' as int && line[1..][1..] == [B];
    assert SplitOnce(line[1..]) == Some(([], [B]));
    assert [A] + [] == [A];
  }

  lemma SharedMergeIsKnown(line: Text)
    requires line == [A, Space, B]
    ensures MergeKnown(SharedVocab(), line) && MergeKey(SharedVocab(), line) == (97, 98)
    ensures MergeId(SharedVocab(), line) == 256
  {
    SplitsAtTheSpace(line);
    SharedVocabHolds(97);
    SharedVocabHolds(98);
    assert ByteChar(97) == A && ByteChar(98) == B;
    assert [A] + [B] == [A, B];
  }

  lemma SharedIdFileIsFine()
    ensures Accepts(SharedIdFile()) && Unambiguous(SharedIdFile())
  {
    var vocab := SharedVocab();
    forall b: Byte ensures [ByteChar(b)] in vocab { SharedVocabHolds(b); }
    SharedMergeIsKnown([A, Space, B]);
    forall x, y | x in vocab && y in vocab && vocab[x] == vocab[y] ensures x == y {
      SharedVocabKeys(x);
      SharedVocabKeys(y);
    }
    forall x | x in vocab && vocab[x] == 256 ensures x == [A, B] { SharedVocabKeys(x); }
  }

  lemma SharedVocabKeys(x: Text)
    requires x in SharedVocab()
    ensures if SharedVocab()[x] == 256 then x == [A, B] else SharedVocab()[x] < 256 && x == [ByteChar(SharedVocab()[x])]
  {
    if x != [A, B] {
      var b: Byte :| x == [ByteChar(b)];
      SharedVocabHolds(b);
    }
  }

  lemma TwoAsciiBytes(text: Text)
    requires text == [A, B]
    ensures Utf8.Encode(text) == [97, 98]
  {
    assert text[1..] == [B] && text[1..][1..] == [];
    assert Utf8.Encode(text[1..]) == [98];
  }

  /** An unambiguous file whose special token shares a merged id: plain text produces that special token. */
  lemma SharedIdIsForged(t: Tokenizer, text: Text)
    requires BuiltFrom(t, SharedIdFile()) && text == [A, B]
    ensures Usable(t) && EncodedIds(t, text) == [256] && 256 in t.specials.Values
  {
    SharedMergeIsKnown([A, Space, B]);
    SharedVocabHolds(97);
    SharedVocabHolds(98);
    assert t.byteIds[97] == 97 && t.byteIds[98] == 98;
    OneSpecial(SharedIdFile().added, t.specials);
    var key := MergeKey(SharedVocab(), SharedIdFile().merges[0]);
    assert key in t.merges && LineOf(SharedVocab(), SharedIdFile().merges, key, t.merges[key]);
    PairMerges(t.merges, 97, 98);
    TwoAsciiBytes(text);
    assert ByteSymbols(t, [97, 98]) == [97, 98];
    OnePiece(t, text);
  }

  lemma OneSpecial(added: seq<Added>, specials: map<Text, nat>)
    requires added == [Added(256, [A, B])] && specials == Specials(added)
    ensures 256 in specials.Values
  {
    assert added[..0] == [];
    assert specials[[A, B]] == 256;
  }

  lemma OnePiece(t: Tokenizer, text: Text)
    requires Usable(t) && t.splits == []
    ensures EncodedIds(t, text) == Merged(t.merges, ByteSymbols(t, Utf8.Encode(text)))
  {
    assert [text][..0] == [];
    assert PieceIds(t, [text]) == PieceIds(t, [text][..0]) + Merged(t.merges, ByteSymbols(t, Utf8.Encode(text)));
  }

  lemma PairMerges(merges: map<(nat, nat), Merge>, a: nat, b: nat)
    requires (a, b) in merges
    ensures Merged(merges, [a, b]) == [merges[(a, b)].id]
  {
    var s := [a, b];
    assert IsBest(merges, s, 2, 0);
    MergedTakesTheBest(merges, s, 0);
    assert s[2..] == [];
    assert Pass(merges, s, 0) == [merges[(a, b)].id];
    ExhaustedIsMerged(merges, [merges[(a, b)].id]);
  }
}
