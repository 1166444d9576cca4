/** Where hashing meets the cache: a batch of hashed rows is never out of bounds. */
module EngramLookup {
  import opened EngramHash
  import opened EngramCaches

  /** The rows a layer hashes to are rows of its table, so the cache accepts the batch. */
  lemma HashedRowsAreAccepted(l: LayerHash, history: seq<nat>, pad: nat, tables: seq<Table>, t: nat)
    requires ColumnsOk(l) && KnownMultipliers(l) && TokensSmall(history, pad)
    requires t < |tables| && |tables[t]| == Sum(l.primes)
    ensures Acceptable(tables, t, LayerRows(l, history, pad))
  {
    var rows := LayerRows(l, history, pad);
    forall c | 0 <= c < |rows| ensures rows[c] < |tables[t]| {
      RowsStayInTheirColumns(l, history, pad, c);
    }
  }
}
