/** The transaction lookup table of the canonical chain and how a reorganisation moves it. */
module TxLookup {
  import opened Transactions
  import opened ChainTree
  import Forks

  datatype Loc = Loc(block: Hash, number: nat, index: nat)

  type Lookup = map<Tx, Loc>

  /** `tx` is transaction `j` of block `i` of the path. */
  ghost predicate At(t: Tree, p: seq<Hash>, i: int, j: int, tx: Tx) {
    0 <= i < |p| && p[i] in t && 0 <= j < |t[p[i]].txs| && t[p[i]].txs[j] == tx
  }

  ghost predicate Unrepeated(t: Tree, p: seq<Hash>) {
    forall i, j, k, l, tx :: At(t, p, i, j, tx) && At(t, p, k, l, tx) ==> i == k && j == l
  }

  /** The table is the plain scan of the path: every transaction at its place, and no other entry. */
  ghost predicate Scanned(t: Tree, p: seq<Hash>, lookup: Lookup) {
    && (forall i, j, tx :: At(t, p, i, j, tx) ==> tx in lookup && lookup[tx] == Loc(p[i], i, j))
    && (forall tx :: tx in lookup ==> Placed(t, p, 0, |p|, lookup, tx))
  }

  /** The entry of `tx` points at it within heights `k` to `m`. */
  ghost predicate Placed(t: Tree, p: seq<Hash>, k: nat, m: nat, lookup: Lookup, tx: Tx) {
    && tx in lookup && k <= lookup[tx].number < m && At(t, p, lookup[tx].number, lookup[tx].index, tx)
    && lookup[tx].block == p[lookup[tx].number]
  }

  /** A path has only one scan. */
  lemma ScanUnique(t: Tree, p: seq<Hash>, a: Lookup, b: Lookup)
    requires Scanned(t, p, a) && Scanned(t, p, b)
    ensures a == b
  {
  }

  /** Transaction `j` is not listed again later. */
  ghost predicate LastAt(txs: seq<Tx>, j: nat)
    requires j < |txs|
  {
    forall k :: j < k < |txs| ==> txs[k] != txs[j]
  }

  /** Entries for `txs` have been written over `was`; of repeated transactions the last one counts. */
  ghost predicate Listed(txs: seq<Tx>, h: Hash, number: nat, was: Lookup, lookup: Lookup) {
    && (forall tx :: tx in lookup <==> tx in was || tx in txs)
    && (forall tx :: tx in was && tx !in txs ==> lookup[tx] == was[tx])
    && (forall j :: 0 <= j < |txs| && LastAt(txs, j) ==> lookup[txs[j]] == Loc(h, number, j))
  }

  /** The entries of one block have been written over `was`. */
  ghost predicate Entered(b: Block, h: Hash, was: Lookup, lookup: Lookup) {
    Listed(b.txs, h, b.number, was, lookup)
  }

  lemma ListOne(txs: seq<Tx>, h: Hash, number: nat, was: Lookup, lookup: Lookup, tx: Tx)
    requires Listed(txs, h, number, was, lookup)
    ensures Listed(txs + [tx], h, number, was, lookup[tx := Loc(h, number, |txs|)])
  {
    forall j: nat | j < |txs| && LastAt(txs + [tx], j) ensures LastAt(txs, j) && txs[j] != tx {
      assert (txs + [tx])[|txs|] != (txs + [tx])[j];
      assert forall k :: j < k < |txs| ==> (txs + [tx])[k] == txs[k];
    }
  }

  /** core/rawdb/accessors_indexes.go, `WriteTxLookupEntries`. */
  method WriteTxLookupEntries(was: Lookup, h: Hash, b: Block) returns (lookup: Lookup)
    ensures Entered(b, h, was, lookup)
  {
    hide Listed;
    lookup := was;
    ListNone(h, b.number, was);
    for i := 0 to |b.txs|
      invariant Listed(b.txs[..i], h, b.number, was, lookup)
    {
      assert b.txs[..i + 1] == b.txs[..i] + [b.txs[i]];
      ListOne(b.txs[..i], h, b.number, was, lookup, b.txs[i]);
      lookup := lookup[b.txs[i] := Loc(h, b.number, i)];
    }
    assert b.txs[..|b.txs|] == b.txs;
  }

  lemma ListNone(h: Hash, number: nat, was: Lookup)
    ensures Listed([], h, number, was, was)
  {
  }

  /** The entries of blocks `k` to `m` of the path have been written over `was`. */
  ghost predicate Wrote(t: Tree, q: seq<Hash>, k: nat, m: nat, was: Lookup, lookup: Lookup, added: seq<Tx>) {
    && (forall i, j, tx :: k <= i < m && At(t, q, i, j, tx) ==>
          tx in added && tx in lookup && lookup[tx] == Loc(q[i], i, j))
    && (forall tx :: tx in lookup ==> (tx in was && lookup[tx] == was[tx]) || Placed(t, q, k, m, lookup, tx))
    && (forall tx :: tx in was ==> tx in lookup) && (forall tx :: tx in added ==> Placed(t, q, k, m, lookup, tx))
  }

  lemma WroteNone(t: Tree, q: seq<Hash>, k: nat, was: Lookup)
    ensures Wrote(t, q, k, k, was, was, [])
  {
  }

  lemma OnceInBlock(t: Tree, q: seq<Hash>, m: nat)
    requires m < |q| && q[m] in t && Unrepeated(t, q)
    ensures var txs := t[q[m]].txs; forall j :: 0 <= j < |txs| ==> LastAt(txs, j)
  {
    var txs := t[q[m]].txs;
    forall j, k | 0 <= j < k < |txs| ensures txs[k] != txs[j] {
      assert At(t, q, m, j, txs[j]) && At(t, q, m, k, txs[k]);
    }
  }

  lemma WroteStep(t: Tree, q: seq<Hash>, k: nat, m: nat, was: Lookup, lookup: Lookup, added: seq<Tx>, lookup': Lookup)
    requires k <= m < |q| && q[m] in t && t[q[m]].number == m && Unrepeated(t, q)
    requires Wrote(t, q, k, m, was, lookup, added) && Entered(t[q[m]], q[m], lookup, lookup')
    ensures Wrote(t, q, k, m + 1, was, lookup', added + t[q[m]].txs)
  {
    var txs := t[q[m]].txs;
    OnceInBlock(t, q, m);
    forall i, j, tx | k <= i < m + 1 && At(t, q, i, j, tx)
      ensures tx in added + txs && tx in lookup' && lookup'[tx] == Loc(q[i], i, j)
    {
      if i < m && tx in txs {
        var l :| 0 <= l < |txs| && txs[l] == tx;
        assert At(t, q, m, l, tx);
      }
    }
    forall tx | tx in lookup'
      ensures (tx in was && tx !in added && lookup'[tx] == was[tx]) || Placed(t, q, k, m + 1, lookup', tx)
    {
      if tx in txs {
        var l :| 0 <= l < |txs| && txs[l] == tx;
        assert At(t, q, m, l, tx);
      }
    }
  }

  // ----- the deleted entries -----

  /** The transactions of a branch, highest block first, are those of the path from height `k` on. */
  lemma BranchTxs(t: Tree, p: seq<Hash>, k: nat)
    requires Forks.Known(t, p) && k <= |p|
    ensures Forks.Known(t, Down(p, k))
    ensures forall i, j, tx :: k <= i && At(t, p, i, j, tx) ==> tx in Forks.TxsAlong(t, Down(p, k))
    ensures forall tx :: tx in Forks.TxsAlong(t, Down(p, k)) ==> exists i, j :: k <= i && At(t, p, i, j, tx)
  {
    var hs := Down(p, k);
    forall i, j, tx | k <= i && At(t, p, i, j, tx) ensures tx in Forks.TxsAlong(t, hs) {
      Forks.TxsOfBlock(t, hs, |p| - 1 - i, tx);
    }
    forall tx | tx in Forks.TxsAlong(t, hs) ensures exists i, j :: k <= i && At(t, p, i, j, tx) {
      var i := Forks.BlockWith(t, hs, tx);
      var j :| 0 <= j < |t[hs[i]].txs| && t[hs[i]].txs[j] == tx;
      assert At(t, p, |p| - 1 - i, j, tx);
    }
  }

  /**
   Writing the adopted branch and deleting what only the abandoned one held turns the scan of
   the old path into the scan of the new one.
   */
  lemma Moved(t: Tree, p: seq<Hash>, q: seq<Hash>, k: nat, was: Lookup, lookup: Lookup, added: seq<Tx>,
              deleted: seq<Tx>, lookup': Lookup)
    requires k <= |p| && k <= |q| && p[..k] == q[..k] && Forks.Known(t, p) && Unrepeated(t, q)
    requires Scanned(t, p, was) && Wrote(t, q, k, |q|, was, lookup, added)
    requires forall i, j, tx :: k <= i && At(t, p, i, j, tx) ==> tx in deleted
    requires forall tx :: tx in deleted ==> exists i, j :: k <= i && At(t, p, i, j, tx)
    requires forall tx :: tx in lookup' <==> tx in lookup && !(tx in deleted && tx !in added)
    requires forall tx :: tx in lookup' ==> lookup'[tx] == lookup[tx]
    ensures Scanned(t, q, lookup')
  {
    forall i, j, tx | At(t, q, i, j, tx) ensures tx in lookup' && lookup'[tx] == Loc(q[i], i, j) {
      if i < k {
        MovedBelow(t, p, q, k, was, lookup, added, deleted, i, j, tx);
      }
    }
    forall tx | tx in lookup' ensures Placed(t, q, 0, |q|, lookup', tx) {
      MovedEntry(t, p, q, k, was, lookup, added, deleted, tx);
    }
  }

  lemma MovedBelow(t: Tree, p: seq<Hash>, q: seq<Hash>, k: nat, was: Lookup, lookup: Lookup, added: seq<Tx>,
                   deleted: seq<Tx>, i: nat, j: nat, tx: Tx)
    requires k <= |p| && k <= |q| && p[..k] == q[..k] && Forks.Known(t, p) && Unrepeated(t, q)
    requires Scanned(t, p, was) && Wrote(t, q, k, |q|, was, lookup, added)
    requires forall tx :: tx in deleted ==> exists i, j :: k <= i && At(t, p, i, j, tx)
    requires i < k && At(t, q, i, j, tx)
    ensures tx in lookup && tx !in deleted && lookup[tx] == Loc(q[i], i, j)
  {
    assert p[i] == p[..k][i] == q[i];
    assert At(t, p, i, j, tx);
    assert !Placed(t, q, k, |q|, lookup, tx);
    assert tx !in deleted;
  }

  lemma MovedEntry(t: Tree, p: seq<Hash>, q: seq<Hash>, k: nat, was: Lookup, lookup: Lookup, added: seq<Tx>,
                   deleted: seq<Tx>, tx: Tx)
    requires k <= |p| && k <= |q| && p[..k] == q[..k]
    requires Scanned(t, p, was) && Wrote(t, q, k, |q|, was, lookup, added)
    requires forall i, j, tx :: k <= i && At(t, p, i, j, tx) ==> tx in deleted
    requires tx in lookup && !(tx in deleted && tx !in added)
    ensures Placed(t, q, 0, |q|, lookup, tx)
  {
  }
}
