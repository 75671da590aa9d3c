/** core/tx_list.go: the list of one account's transactions, proved against TxListSpec. */
module TxLists {
  import opened Numbers
  import opened Sequences
  import opened Transactions
  import opened TxListSpec
  import opened TxSortedMaps

  class TxList {
    const strict: bool
    const txs: TxSortedMap
    var costcap: nat
    var gascap: nat

    ghost function View(): TxListView
      reads this, txs
    {
      TxListView(strict, txs.items, costcap, gascap)
    }

    /** The caps that let Filter stop early really bound the contents. */
    ghost predicate Valid()
      reads this, txs
    {
      txs.Valid() && CapsCover(View()) && forall n :: n in txs.items ==> n <= MAX_UINT64
    }

    constructor (strict: bool)
      ensures Valid() && View() == Empty(strict) && fresh(txs)
    {
      this.strict := strict;
      txs := new TxSortedMap();
      costcap, gascap := 0, 0;
    }

    method Overlaps(tx: Tx) returns (b: bool)
      ensures b <==> tx.nonce in View().items
    {
      var prior := txs.Get(tx.nonce);
      b := prior.Some?;
    }

    method Add(tx: Tx, priceBump: nat) returns (inserted: bool, prior: Option<Tx>)
      requires Valid() && tx.nonce <= MAX_UINT64
      modifies this, txs
      ensures Valid() && (inserted <==> Admits(old(View()), tx, priceBump))
      ensures
        var m := old(View()).items;
        inserted <==> (tx.nonce in m ==>
                         var prior := m[tx.nonce];
                         tx.price > prior.price && 100 * tx.price + 99 >= prior.price * (100 + priceBump))
      ensures View() == if inserted then Added(old(View()), tx) else old(View())
      ensures View().items == if inserted then old(View()).items[tx.nonce := tx] else old(View()).items
      ensures prior == if inserted && tx.nonce in old(View()).items then Some(old(View()).items[tx.nonce]) else None
    {
      prior := txs.Get(tx.nonce);
      if prior.Some? {
        OutbidsMeans(tx, prior.value, priceBump);
        var threshold := prior.value.price * (100 + priceBump) / 100;
        if prior.value.price >= tx.price || threshold > tx.price {
          return false, None;
        }
      }
      txs.Put(tx);
      if costcap < tx.cost {
        costcap := tx.cost;
      }
      if gascap < tx.gas {
        gascap := tx.gas;
      }
      inserted := true;
    }

    method Forward(threshold: nat) returns (removed: seq<Tx>)
      requires Valid()
      modifies txs
      ensures Valid() && View() == Forwarded(old(View()), threshold)
      ensures IsListing(removed, Under(old(View()).items, threshold))
    {
      removed := txs.Forward(threshold);
    }

    /** The early exit, or the scan with new caps. */
    method Scan(costLimit: nat, gasLimit: nat) returns (removed: seq<Tx>, invalids: seq<Tx>)
      requires Valid()
      modifies this, txs
      ensures Valid()
      ensures
        var f := TxListSpec.Filter(old(View()), costLimit, gasLimit);
        View() == f.list && IsCollection(removed, f.removed) && IsCollection(invalids, f.invalids)
    {
      FilterIsFullScan(View(), costLimit, gasLimit);
      removed, invalids := [], [];
      if costcap <= costLimit && gascap <= gasLimit {
        return;
      }
      costcap, gascap := costLimit, gasLimit;
      removed := txs.Filter(Unpayable(costLimit, gasLimit));
      CollectionEmpty(removed, Matching(old(txs.items), Unpayable(costLimit, gasLimit)));
      if strict && |removed| > 0 {
        var lowest := Lowest(removed, Matching(old(txs.items), Unpayable(costLimit, gasLimit)));
        invalids := txs.Filter(Later(lowest));
      }
    }

    method Filter(costLimit: nat, gasLimit: nat) returns (removed: seq<Tx>, invalids: seq<Tx>)
      requires Valid()
      modifies this, txs
      ensures Valid()
      ensures
        var f := TxListSpec.Filter(old(View()), costLimit, gasLimit);
        View() == f.list && IsCollection(removed, f.removed) && IsCollection(invalids, f.invalids)
      ensures Sifted(old(View()).items, View().items, removed, invalids, strict, costLimit, gasLimit)
    {
      hide TxListSpec.Filter, Sifted, IsCollection;
      FilterSifts(View(), costLimit, gasLimit);
      removed, invalids := Scan(costLimit, gasLimit);
    }

    method Cap(threshold: nat) returns (drops: seq<Tx>)
      requires Valid()
      modifies txs
      ensures Valid() && View() == CappedList(old(View()), threshold)
      ensures IsListing(Reversed(drops), old(View()).items - View().items.Keys)
    {
      drops := txs.Cap(threshold);
    }

    method Remove(tx: Tx) returns (found: bool, invalids: seq<Tx>)
      requires Valid()
      modifies txs
      ensures Valid() && (found <==> tx.nonce in old(View()).items)
      ensures View() == RemovedList(old(View()), tx.nonce)
      ensures IsCollection(invalids, Stranded(old(View()), tx.nonce))
      ensures
        var m, n := old(View()).items, tx.nonce;
        && Submap(View().items, m)
        && (forall k :: k in View().items <==> k in m && k != n && (strict && n in m ==> k < n))
        && forall k :: k in Stranded(old(View()), n) <==> strict && n in m && k in m && k > n
    {
      RemoveMeans(View(), tx.nonce);
      invalids := [];
      found := txs.Remove(tx.nonce);
      if found && strict {
        invalids := txs.Filter(Later(tx.nonce));
      }
    }

    method Ready(start: nat) returns (ready: seq<Tx>)
      requires Valid()
      modifies txs
      ensures Valid() && View() == ReadyList(old(View()), start)
      ensures IsListing(ready, Under(old(View()).items, ReadyEnd(old(View()).items, start)))
      ensures
        var m := old(View()).items;
        forall t :: t in ready <==>
          && t.nonce in m && m[t.nonce] == t && (exists k :: k in m && k <= start)
          && forall i, k :: k in m && k <= i <= t.nonce ==> i in m
    {
      forall n: nat ensures n in Under(View().items, ReadyEnd(View().items, start)) <==>
                       && n in View().items && (exists k :: k in View().items && k <= start)
                       && forall i, k :: k in View().items && k <= i <= n ==> i in View().items {
        ReadyMeans(View().items, start, n);
      }
      ready := txs.Ready(start);
    }

    method Flatten() returns (all: seq<Tx>)
      requires Valid()
      modifies txs`cache
      ensures Valid() && IsListing(all, View().items)
    {
      all := txs.Flatten();
    }
  }

  /** Kept, removed and handed back, transaction by transaction. */
  ghost predicate Sifted(m: Items, kept: Items, removed: seq<Tx>, invalids: seq<Tx>, strict: bool, costLimit: nat,
                         gasLimit: nat) {
    && Submap(kept, m)
    && (forall n :: n in kept <==>
          && n in m && m[n].cost <= costLimit && m[n].gas <= gasLimit
          && (strict ==> forall k :: k in m && k < n ==> m[k].cost <= costLimit && m[k].gas <= gasLimit))
    && (forall t :: t in removed <==> t.nonce in m && m[t.nonce] == t && (t.cost > costLimit || t.gas > gasLimit))
    && (forall t :: t in invalids <==>
          && t.nonce in m && m[t.nonce] == t && t.cost <= costLimit && t.gas <= gasLimit && t.nonce !in kept)
  }

  lemma FilterSifts(l: TxListView, costLimit: nat, gasLimit: nat)
    requires CapsCover(l) && Filed(l.items)
    ensures
      var f := TxListSpec.Filter(l, costLimit, gasLimit);
      forall removed, invalids :: IsCollection(removed, f.removed) && IsCollection(invalids, f.invalids) ==>
        Sifted(l.items, f.list.items, removed, invalids, l.strict, costLimit, gasLimit)
  {
    hide TxListSpec.Filter;
    FilterMeans(l, costLimit, gasLimit);
  }

  lemma CollectionEmpty(s: seq<Tx>, m: Items)
    requires IsCollection(s, m)
    ensures |s| == 0 <==> m == map[]
  {
    if |s| > 0 {
      assert s[0].nonce in m;
    } else {
      assert m == map[];
    }
  }

  /** The scan for the lowest removed nonce. */
  method Lowest(removed: seq<Tx>, ghost m: Items) returns (lowest: nat)
    requires IsCollection(removed, m) && m != map[] && Filed(m) && forall n :: n in m ==> n <= MAX_UINT64
    ensures lowest == MinKey(m)
  {
    lowest := MAX_UINT64;
    for i := 0 to |removed|
      invariant lowest <= MAX_UINT64 && (lowest == MAX_UINT64 || lowest in m)
      invariant forall j :: 0 <= j < i ==> lowest <= removed[j].nonce
    {
      if lowest > removed[i].nonce {
        lowest := removed[i].nonce;
      }
    }
    forall n | n in m ensures lowest <= n {
      assert m[n] in removed;
    }
  }
}
