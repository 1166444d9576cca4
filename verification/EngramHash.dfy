/** Engram n-gram hashing: which table rows each token position looks up. */
module EngramHash {
  import opened Options
  import opened Primes

  const MAX_NGRAM := 4
  const NGRAM_HEADS := 8
  const HASH_COLS := 24   // one per n-gram size from 2 to MAX_NGRAM and head
  const FIRST_PRIME_AFTER := 15_999_999
  const COMPRESSED_VOCAB := 99_092
  const PAD_TOKEN := 2
  const TWO_64 := 0x1_0000_0000_0000_0000

  function Multipliers(layer: nat): Option<seq<nat>> {
    if layer == 1 then Some([76_632_096_046_245, 4_839_876_093_313, 35_959_672_319_349, 73_987_337_458_391])
    else if layer == 14 then Some([67_716_810_739_261, 51_510_806_800_915, 30_921_347_202_721, 82_619_226_485_591])
    else None
  }

  // A token's product with a multiplier, as the 64-bit word the hash mixes.
  function Term(token: nat, multiplier: nat): bv64
    requires token * multiplier < TWO_64
  {
    (token * multiplier) as bv64
  }

  datatype LayerHash = LayerHash(multipliers: seq<nat>, primes: seq<nat>, offsets: seq<nat>)

  // ----- Column sizes -----

  // The k-th result of the prime search, counting on through the columns of all layers.
  function NthPrime(k: nat): nat
    decreases k, 1
  {
    NextPrime(Before(k))
  }

  // The candidate that search starts from.
  function Before(k: nat): nat
    decreases k, 0
  {
    if k == 0 then FIRST_PRIME_AFTER else NthPrime(k - 1)
  }

  /** They are consecutive primes. */
  lemma {:induction false} PrimesAreConsecutive(k: nat)
    ensures Before(k) >= 2 && LeastPrimeAbove(Before(k), NthPrime(k))
  {
    if k > 0 {
      PrimesAreConsecutive(k - 1);
    }
    NextPrimeIsTheLeast(Before(k));
  }

  // The primes of one layer's columns.
  function LayerPrimes(index: nat): (primes: seq<nat>)
    ensures |primes| == HASH_COLS
  {
    seq<nat>(HASH_COLS, c requires 0 <= c < HASH_COLS => NthPrime(index * HASH_COLS + c))
  }

  function Sum(s: seq<nat>): nat { if s == [] then 0 else Sum(s[..|s| - 1]) + s[|s| - 1] }

  // Columns lie end to end: each starts at the sum of the sizes before it.
  ghost predicate ColumnOk(primes: seq<nat>, offsets: seq<nat>, c: nat)
    requires c < |primes| && c < |offsets|
  {
    primes[c] >= 2 && offsets[c] == Sum(primes[..c])
  }

  ghost predicate ColumnsOk(l: LayerHash) {
    && |l.multipliers| == MAX_NGRAM && |l.primes| == |l.offsets| == HASH_COLS
    && forall c :: 0 <= c < HASH_COLS ==> ColumnOk(l.primes, l.offsets, c)
  }

  ghost predicate LayerOk(l: LayerHash, layer: nat, index: nat) {
    ColumnsOk(l) && Multipliers(layer) == Some(l.multipliers) && l.primes == LayerPrimes(index)
  }

  lemma {:induction false} SumGrows(s: seq<nat>, i: nat, j: nat)
    requires i <= j <= |s|
    ensures Sum(s[..i]) <= Sum(s[..j])
    ensures i < j ==> Sum(s[..i]) + s[i] <= Sum(s[..j])
    decreases j
  {
    if i < j {
      assert s[..j][..j - 1] == s[..j - 1];
      SumGrows(s, i, j - 1);
    }
  }

  /** The column intervals partition the table: every row of it belongs to exactly one column. */
  lemma ColumnsPartitionTheTable(l: LayerHash, row: nat)
    requires ColumnsOk(l) && row < Sum(l.primes)
    ensures exists c :: 0 <= c < HASH_COLS && l.offsets[c] <= row < l.offsets[c] + l.primes[c]
    ensures forall c, d :: 0 <= c < d < HASH_COLS ==>
              !(l.offsets[c] <= row < l.offsets[c] + l.primes[c] && l.offsets[d] <= row < l.offsets[d] + l.primes[d])
  {
    forall c, d | 0 <= c < d < HASH_COLS ensures l.offsets[c] + l.primes[c] <= l.offsets[d] {
      assert ColumnOk(l.primes, l.offsets, c) && ColumnOk(l.primes, l.offsets, d);
      SumGrows(l.primes, c, d);
    }
    var c := HASH_COLS - 1;
    assert l.primes[..HASH_COLS] == l.primes;
    assert l.primes[..HASH_COLS][..c] == l.primes[..c];
    assert ColumnOk(l.primes, l.offsets, c);
    while row < l.offsets[c]
      invariant 0 <= c < HASH_COLS && row < l.offsets[c] + l.primes[c]
      decreases c
    {
      assert ColumnOk(l.primes, l.offsets, c) && ColumnOk(l.primes, l.offsets, c - 1);
      assert l.primes[..c][..c - 1] == l.primes[..c - 1];
      c := c - 1;
    }
  }

  // ----- Rolling hashes -----

  // The token `shift` places back, or the pad before the start.
  function TokenAt(history: seq<nat>, pad: nat, shift: nat): nat {
    if shift < |history| then history[|history| - 1 - shift] else pad
  }

  ghost predicate TokensSmall(history: seq<nat>, pad: nat) {
    pad < COMPRESSED_VOCAB && forall i :: 0 <= i < |history| ==> history[i] < COMPRESSED_VOCAB
  }

  ghost predicate KnownMultipliers(l: LayerHash) {
    |l.multipliers| == MAX_NGRAM && forall s :: 0 <= s < MAX_NGRAM ==> l.multipliers[s] < 82_619_226_485_592
  }

  lemma TableMultipliersAreKnown(layer: nat, l: LayerHash)
    requires Multipliers(layer) == Some(l.multipliers)
    ensures KnownMultipliers(l)
  {}

  /** With tokens of the compressed vocabulary, no product overflows 64 bits. */
  lemma ProductFits(token: nat, multiplier: nat)
    requires token < COMPRESSED_VOCAB && multiplier < 82_619_226_485_592
    ensures token * multiplier < TWO_64
  {
    assert token * multiplier <= token * 82_619_226_485_592;
  }

  ghost function Rolling(l: LayerHash, history: seq<nat>, pad: nat, shift: nat): bv64
    requires KnownMultipliers(l) && TokensSmall(history, pad) && shift < MAX_NGRAM
  {
    ProductFits(TokenAt(history, pad, shift), l.multipliers[shift]);
    var term := Term(TokenAt(history, pad, shift), l.multipliers[shift]);
    if shift == 0 then term else Rolling(l, history, pad, shift - 1) ^ term
  }

  function RowOf(hash: bv64, prime: nat, offset: nat): (row: nat)
    requires prime > 0
    ensures offset <= row < offset + prime
  {
    (hash as nat) % prime + offset
  }

  // The row of column `c` for the last position of the history.
  ghost function Row(l: LayerHash, history: seq<nat>, pad: nat, c: nat): nat
    requires ColumnsOk(l) && KnownMultipliers(l) && TokensSmall(history, pad) && c < HASH_COLS
  {
    assert ColumnOk(l.primes, l.offsets, c);
    RowOf(Rolling(l, history, pad, 1 + c / NGRAM_HEADS), l.primes[c], l.offsets[c])
  }

  /** Every row lies in its own column's interval, and so inside the table. */
  lemma RowsStayInTheirColumns(l: LayerHash, history: seq<nat>, pad: nat, c: nat)
    requires ColumnsOk(l) && KnownMultipliers(l) && TokensSmall(history, pad) && c < HASH_COLS
    ensures l.offsets[c] <= Row(l, history, pad, c) < l.offsets[c] + l.primes[c] <= Sum(l.primes)
  {
    assert ColumnOk(l.primes, l.offsets, c);
    SumGrows(l.primes, c, HASH_COLS);
    assert l.primes[..HASH_COLS] == l.primes;
  }

  // ----- The hasher -----

  datatype Hasher = Hasher(tokenMap: seq<nat>, pad: nat, layers: seq<LayerHash>) {
    function Mapped(id: nat): nat { if id < |tokenMap| then tokenMap[id] else pad }

    ghost predicate Ok() {
      && TokensSmall(tokenMap, pad)
      && forall i :: 0 <= i < |layers| ==> ColumnsOk(layers[i]) && KnownMultipliers(layers[i])
    }
  }

  ghost function LayerRows(l: LayerHash, history: seq<nat>, pad: nat): seq<nat>
    requires ColumnsOk(l) && KnownMultipliers(l) && TokensSmall(history, pad)
  {
    seq(HASH_COLS, c requires 0 <= c < HASH_COLS => Row(l, history, pad, c))
  }

  ghost function TokenRows(h: Hasher, history: seq<nat>, upTo: nat): seq<nat>
    requires h.Ok() && TokensSmall(history, h.pad) && upTo <= |h.layers|
  {
    if upTo == 0 then [] else TokenRows(h, history, upTo - 1) + LayerRows(h.layers[upTo - 1], history, h.pad)
  }

  ghost function Appended(h: Hasher, history: seq<nat>, ids: seq<nat>): seq<nat> {
    history + seq(|ids|, i requires 0 <= i < |ids| => h.Mapped(ids[i]))
  }

  lemma AppendedIsSmall(h: Hasher, history: seq<nat>, ids: seq<nat>)
    requires h.Ok() && TokensSmall(history, h.pad)
    ensures TokensSmall(Appended(h, history, ids), h.pad)
  {}

  // The rows of all pushed tokens, shaped [tokens, layers, HASH_COLS].
  ghost function PushedRows(h: Hasher, history: seq<nat>, ids: seq<nat>): seq<nat>
    requires h.Ok() && TokensSmall(history, h.pad)
  {
    if ids == [] then [] else
      AppendedIsSmall(h, history, ids);
      PushedRows(h, history, ids[..|ids| - 1]) + TokenRows(h, Appended(h, history, ids), |h.layers|)
  }

  /** One push and many pushes hash alike. */
  lemma {:induction false} PushesCompose(h: Hasher, history: seq<nat>, a: seq<nat>, b: seq<nat>)
    requires h.Ok() && TokensSmall(history, h.pad)
    ensures TokensSmall(Appended(h, history, a), h.pad)
    ensures Appended(h, Appended(h, history, a), b) == Appended(h, history, a + b)
    ensures PushedRows(h, history, a + b) == PushedRows(h, history, a) + PushedRows(h, Appended(h, history, a), b)
    decreases |b|
  {
    AppendedIsSmall(h, history, a);
    if b == [] {
      assert a + b == a;
    } else {
      var n := |b| - 1;
      assert (a + b)[..|a + b| - 1] == a + b[..n];
      PushesCompose(h, history, a, b[..n]);
    }
  }

  // One n-gram size: a row for each of its heads.
  method AppendHeads(l: LayerHash, hash: bv64, first: nat, before: seq<nat>) returns (out: seq<nat>)
    requires ColumnsOk(l) && first + NGRAM_HEADS <= HASH_COLS && |before| == first
    ensures |out| == first + NGRAM_HEADS && before <= out
    ensures forall c :: first <= c < first + NGRAM_HEADS ==>
      l.primes[c] > 0 && out[c] == RowOf(hash, l.primes[c], l.offsets[c])
  {
    out := before;
    for c := first to first + NGRAM_HEADS
      invariant |out| == c && before <= out
      invariant forall d :: first <= d < c ==> l.primes[d] > 0 && out[d] == RowOf(hash, l.primes[d], l.offsets[d])
    {
      assert ColumnOk(l.primes, l.offsets, c);
      out := out + [RowOf(hash, l.primes[c], l.offsets[c])];
    }
  }

  ghost predicate RowsSoFar(l: LayerHash, history: seq<nat>, pad: nat, out: seq<nat>)
    requires ColumnsOk(l) && KnownMultipliers(l) && TokensSmall(history, pad)
  {
    |out| <= HASH_COLS && forall c :: 0 <= c < |out| ==> out[c] == Row(l, history, pad, c)
  }

  lemma HeadsAreRows(l: LayerHash, history: seq<nat>, pad: nat, shift: nat, before: seq<nat>, out: seq<nat>)
    requires ColumnsOk(l) && KnownMultipliers(l) && TokensSmall(history, pad) && 1 <= shift < MAX_NGRAM
    requires RowsSoFar(l, history, pad, before) && |before| == (shift - 1) * NGRAM_HEADS
    requires |out| == shift * NGRAM_HEADS && before <= out
    requires forall c :: |before| <= c < |out| ==>
               l.primes[c] > 0 && out[c] == RowOf(Rolling(l, history, pad, shift), l.primes[c], l.offsets[c])
    ensures RowsSoFar(l, history, pad, out)
  {
    forall c | 0 <= c < |out| ensures out[c] == Row(l, history, pad, c) {
      assert ColumnOk(l.primes, l.offsets, c);
      if c < |before| {
        assert out[c] == before[c];
      } else {
        assert 1 + c / NGRAM_HEADS == shift;
      }
    }
  }

  method RollOn(l: LayerHash, history: seq<nat>, pad: nat, shift: nat, hash: bv64) returns (rolling: bv64)
    requires KnownMultipliers(l) && TokensSmall(history, pad) && 1 <= shift < MAX_NGRAM
    requires hash == Rolling(l, history, pad, shift - 1)
    ensures rolling == Rolling(l, history, pad, shift)
  {
    var token := TokenAt(history, pad, shift);
    ProductFits(token, l.multipliers[shift]);
    rolling := hash ^ Term(token, l.multipliers[shift]);
  }

  method RowsOfLayer(l: LayerHash, history: seq<nat>, pad: nat) returns (out: seq<nat>)
    requires ColumnsOk(l) && KnownMultipliers(l) && TokensSmall(history, pad)
    ensures out == LayerRows(l, history, pad)
  {
    out := [];
    ProductFits(TokenAt(history, pad, 0), l.multipliers[0]);
    var rolling := Term(TokenAt(history, pad, 0), l.multipliers[0]);
    for shift := 1 to MAX_NGRAM
      invariant rolling == Rolling(l, history, pad, shift - 1)
      invariant |out| == (shift - 1) * NGRAM_HEADS && RowsSoFar(l, history, pad, out)
    {
      rolling := RollOn(l, history, pad, shift, rolling);
      var more := AppendHeads(l, rolling, (shift - 1) * NGRAM_HEADS, out);
      HeadsAreRows(l, history, pad, shift, out, more);
      out := more;
    }
  }

  method RowsOfToken(h: Hasher, history: seq<nat>) returns (out: seq<nat>)
    requires h.Ok() && TokensSmall(history, h.pad)
    ensures out == TokenRows(h, history, |h.layers|)
  {
    out := [];
    for layer := 0 to |h.layers|
      invariant out == TokenRows(h, history, layer)
    {
      var rows := RowsOfLayer(h.layers[layer], history, h.pad);
      out := out + rows;
    }
  }

  class EngramHasher {
    const hasher: Hasher
    var history: seq<nat>

    ghost predicate Valid()
      reads this
    {
      hasher.Ok() && TokensSmall(history, hasher.pad)
    }

    constructor (hasher: Hasher)
      requires hasher.Ok()
      ensures Valid() && history == [] && this.hasher == hasher
    {
      this.hasher := hasher;
      history := [];
    }

    method Push(ids: seq<nat>) returns (out: seq<nat>)
      requires Valid()
      modifies this
      ensures Valid() && history == Appended(hasher, old(history), ids)
      ensures out == PushedRows(hasher, old(history), ids)
    {
      out := [];
      for i := 0 to |ids|
        invariant Valid() && history == Appended(hasher, old(history), ids[..i])
        invariant out == PushedRows(hasher, old(history), ids[..i])
      {
        assert ids[..i + 1][..i] == ids[..i];
        AppendedIsSmall(hasher, old(history), ids[..i + 1]);
        history := history + [hasher.Mapped(ids[i])];
        assert history == Appended(hasher, old(history), ids[..i + 1]);
        var rows := RowsOfToken(hasher, history);
        out := out + rows;
      }
      assert ids[..|ids|] == ids;
    }
  }

  // ----- Building the hasher -----

  ghost predicate Accepted(tokenMap: seq<nat>, vocab: nat, layerIds: seq<nat>, rows: seq<nat>) {
    && vocab == COMPRESSED_VOCAB && |layerIds| == |rows| && |tokenMap| > PAD_TOKEN
    && forall i :: 0 <= i < |rows| ==> LayerAccepted(layerIds[i], rows[i], i)
  }

  ghost predicate LayerAccepted(layer: nat, rows: nat, index: nat) {
    Multipliers(layer).Some? && rows == Sum(LayerPrimes(index))
  }

  // Columns of primes from the `base`-th on, each starting where those before it end.
  ghost predicate Columns(primes: seq<nat>, offsets: seq<nat>, base: nat) {
    |primes| == |offsets| && forall c :: 0 <= c < |primes| ==>
      ColumnOk(primes, offsets, c) && ColumnPrime(primes, base, c)
  }

  ghost predicate ColumnPrime(primes: seq<nat>, base: nat, c: nat)
    requires c < |primes|
  { primes[c] == NthPrime(base + c) }

  lemma ColumnStays(primes: seq<nat>, offsets: seq<nat>, more: seq<nat>, places: seq<nat>, c: nat)
    requires |primes| == |offsets| && c < |primes| && ColumnOk(primes, offsets, c)
    requires primes <= more && offsets <= places && |more| == |places|
    ensures ColumnOk(more, places, c)
  {
    assert more[..c] == primes[..c];
  }

  lemma AppendColumn(primes: seq<nat>, offsets: seq<nat>, base: nat, p: nat)
    requires Columns(primes, offsets, base) && p >= 2 && p == NthPrime(base + |primes|)
    ensures Columns(primes + [p], offsets + [Sum(primes)], base) && Sum(primes + [p]) == Sum(primes) + p
  {
    var n, more, places := |primes|, primes + [p], offsets + [Sum(primes)];
    assert more[..n] == primes;
    forall c | 0 <= c < |more| ensures ColumnOk(more, places, c) && ColumnPrime(more, base, c) {
      if c < n {
        assert ColumnOk(primes, offsets, c) && ColumnPrime(primes, base, c);
        ColumnStays(primes, offsets, more, places, c);
      }
    }
  }

  method TakePrime(ghost k: nat, candidate: nat) returns (p: nat)
    requires candidate == Before(k)
    ensures p == NthPrime(k) == Before(k + 1) && p >= 2
  {
    PrimesAreConsecutive(k);
    p := NextPrime(candidate);
  }

  // What the search has built after some columns.
  ghost predicate ColumnsSoFar(base: nat, primes: seq<nat>, offsets: seq<nat>, sum: nat, last: nat) {
    Columns(primes, offsets, base) && sum == Sum(primes) && last == Before(base + |primes|)
  }

  method AddColumn(ghost base: nat, primes: seq<nat>, ghost offsets: seq<nat>, sum: nat, last: nat) returns (p: nat)
    requires ColumnsSoFar(base, primes, offsets, sum, last)
    ensures ColumnsSoFar(base, primes + [p], offsets + [sum], sum + p, p)
  {
    p := TakePrime(base + |primes|, last);
    AppendColumn(primes, offsets, base, p);
  }

  method BuildColumns(ghost base: nat, candidate: nat)
    returns (primes: seq<nat>, offsets: seq<nat>, sum: nat, last: nat)
    requires candidate == Before(base)
    ensures |primes| == HASH_COLS && ColumnsSoFar(base, primes, offsets, sum, last)
  {
    primes, offsets, sum, last := [], [], 0, candidate;
    for c := 0 to HASH_COLS
      invariant |primes| == c && ColumnsSoFar(base, primes, offsets, sum, last)
    {
      last := AddColumn(base, primes, offsets, sum, last);
      primes, offsets, sum := primes + [last], offsets + [sum], sum + last;
    }
  }

  method BuildLayer(layer: nat, multipliers: seq<nat>, ghost index: nat, candidate: nat)
    returns (l: LayerHash, sum: nat, last: nat)
    requires Multipliers(layer) == Some(multipliers) && candidate == Before(index * HASH_COLS)
    ensures LayerOk(l, layer, index) && sum == Sum(LayerPrimes(index)) && last == Before((index + 1) * HASH_COLS)
  {
    var primes, offsets;
    primes, offsets, sum, last := BuildColumns(index * HASH_COLS, candidate);
    l := LayerHash(multipliers, primes, offsets);
    forall c | 0 <= c < HASH_COLS ensures primes[c] == LayerPrimes(index)[c] {
      assert ColumnPrime(primes, index * HASH_COLS, c);
    }
    assert primes == LayerPrimes(index);
  }

  // A built layer agrees with its table.
  ghost predicate Matches(l: LayerHash, layer: nat, rows: nat, index: nat) {
    LayerOk(l, layer, index) && rows == Sum(LayerPrimes(index))
  }

  /** The hasher is built exactly when the vocabulary, the pad token and every table size are the ones the
      checkpoint was trained with. */
  method New(tokenMap: seq<nat>, vocab: nat, layerIds: seq<nat>, rows: seq<nat>) returns (made: Result<Hasher>)
    ensures made.Ok? <==> Accepted(tokenMap, vocab, layerIds, rows)
    ensures made.Ok? ==>
              && made.value.tokenMap == tokenMap && made.value.pad == tokenMap[PAD_TOKEN]
              && |made.value.layers| == |rows|
              && forall i :: 0 <= i < |rows| ==> Matches(made.value.layers[i], layerIds[i], rows[i], i)
  {
    if vocab != COMPRESSED_VOCAB || |layerIds| != |rows| || |tokenMap| <= PAD_TOKEN {
      return Err;
    }
    var candidate, layers := FIRST_PRIME_AFTER, [];
    for i := 0 to |rows|
      invariant |layers| == i && candidate == Before(i * HASH_COLS)
      invariant forall j :: 0 <= j < i ==> Matches(layers[j], layerIds[j], rows[j], j)
    {
      var multipliers := Multipliers(layerIds[i]);
      if multipliers.None? {
        assert !LayerAccepted(layerIds[i], rows[i], i);
        return Err;
      }
      var l, sum, last := BuildLayer(layerIds[i], multipliers.value, i, candidate);
      if sum != rows[i] {
        assert !LayerAccepted(layerIds[i], rows[i], i);
        return Err;
      }
      layers, candidate := layers + [l], last;
    }
    made := Ok(Hasher(tokenMap, tokenMap[PAD_TOKEN], layers));
    forall i | 0 <= i < |rows| ensures LayerAccepted(layerIds[i], rows[i], i) {
      assert Matches(layers[i], layerIds[i], rows[i], i);
    }
  }

  /** A hasher built over a token map of the compressed vocabulary is fit to push tokens. */
  lemma BuiltHasherIsOk(h: Hasher, layerIds: seq<nat>, rows: seq<nat>)
    requires TokensSmall(h.tokenMap, h.pad) && |layerIds| == |h.layers|
    requires |rows| == |h.layers| && forall i :: 0 <= i < |h.layers| ==> Matches(h.layers[i], layerIds[i], rows[i], i)
    ensures h.Ok()
  {
    forall i | 0 <= i < |h.layers| ensures ColumnsOk(h.layers[i]) && KnownMultipliers(h.layers[i]) {
      assert Matches(h.layers[i], layerIds[i], rows[i], i);
      TableMultipliersAreKnown(layerIds[i], h.layers[i]);
    }
  }
}
