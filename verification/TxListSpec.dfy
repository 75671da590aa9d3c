/**
 What the operations of txSortedMap and txList mean, as functions of plain nonce maps.
 The imperative classes are proved to compute these; the pool is built on them.
 */
module TxListSpec {
  import opened Numbers
  import opened Transactions

  // ----- plain nonce maps -----

  function AtLeast(m: Items, threshold: nat): (r: Items)
    ensures Submap(r, m) && forall n :: n in r <==> n in m && threshold <= n
  {
    map n | n in m && threshold <= n :: m[n]
  }

  function Under(m: Items, threshold: nat): (r: Items)
    ensures Submap(r, m) && forall n :: n in r <==> n in m && n < threshold
  {
    map n | n in m && n < threshold :: m[n]
  }

  function Matching(m: Items, filter: Tx -> bool): (r: Items)
    ensures Submap(r, m) && forall n :: n in r <==> n in m && filter(m[n])
  {
    map n | n in m && filter(m[n]) :: m[n]
  }

  function Unmatched(m: Items, filter: Tx -> bool): (r: Items)
    ensures Submap(r, m) && forall n :: n in r <==> n in m && !filter(m[n])
  {
    map n | n in m && !filter(m[n]) :: m[n]
  }

  /** The `k` lowest nonces of `m`. */
  function Capped(m: Items, k: nat): (r: Items)
    ensures Submap(r, m) && |r| == (if |m| <= k then |m| else k) && LowerPart(r, m)
    decreases |m|
  {
    if |m| <= k then m
    else
      SizeWithout(m, MaxKey(m));
      Capped(m - {MaxKey(m)}, k)
  }

  /** Everything of `m` outside `r` comes after `r`. */
  ghost predicate LowerPart(r: Items, m: Items) {
    forall a, b :: a in r && b in m && b !in r ==> a < b
  }

  /** The end of the run of consecutive nonces that starts at `lo`. */
  function RunEnd(m: Items, lo: nat): (e: nat)
    ensures lo <= e && e !in m && forall n :: lo <= n < e ==> n in m
    decreases |m|
  {
    if lo in m then
      SizeWithout(m, lo);
      assert forall n :: n in m <==> n == lo || n in m - {lo};
      RunEnd(m - {lo}, lo + 1)
    else lo
  }

  /** Where the transactions ready at `start` end: the lowest run, if it begins at or below `start`. */
  function ReadyEnd(m: Items, start: nat): (e: nat) {
    if m == map[] || MinKey(m) > start then 0 else RunEnd(m, MinKey(m))
  }

  /** A lower part of `m` is fixed by its size. */
  lemma LowerPartUnique(a: Items, b: Items, m: Items)
    requires Submap(a, m) && Submap(b, m) && |a| == |b| && LowerPart(a, m) && LowerPart(b, m)
    ensures a == b
  {
    assert a.Keys <= b.Keys || b.Keys <= a.Keys;
    if a.Keys <= b.Keys {
      SubsetSameSize(a.Keys, b.Keys);
    } else {
      SubsetSameSize(b.Keys, a.Keys);
    }
  }

  lemma ProperSubsetSmaller(a: set<nat>, b: set<nat>)
    requires a < b
    ensures |a| < |b|
  {
    var x :| x in b - a;
    assert |b| == |a| + |b - a|;
  }

  lemma SubsetSameSize(a: set<nat>, b: set<nat>)
    requires a <= b && |a| == |b|
    ensures a == b
  {
    if a != b {
      ProperSubsetSmaller(a, b);
    }
  }

  // ----- account lists -----

  /** A txList: one account's transactions with the two caps that shorten `Filter`. */
  datatype TxListView = TxListView(strict: bool, items: Items, costcap: nat, gascap: nat)

  function Empty(strict: bool): TxListView {
    TxListView(strict, map[], 0, 0)
  }

  /** The caps bound every transaction of the list. */
  ghost predicate CapsCover(l: TxListView) {
    forall n :: n in l.items ==> l.items[n].cost <= l.costcap && l.items[n].gas <= l.gascap
  }

  /** What a replacement must pay, given the required bump in per cent. */
  predicate Outbids(tx: Tx, prior: Tx, priceBump: nat) {
    prior.price < tx.price && prior.price * (100 + priceBump) / 100 <= tx.price
  }

  /** Outbidding without division: dearer, and by the bump up to the rounding of one per cent step. */
  lemma OutbidsMeans(tx: Tx, prior: Tx, priceBump: nat)
    ensures Outbids(tx, prior, priceBump) <==>
            tx.price > prior.price && 100 * tx.price + 99 >= prior.price * (100 + priceBump)
  {
  }

  predicate Admits(l: TxListView, tx: Tx, priceBump: nat) {
    tx.nonce in l.items ==> Outbids(tx, l.items[tx.nonce], priceBump)
  }

  function Added(l: TxListView, tx: Tx): (r: TxListView)
    ensures CapsCover(l) ==> CapsCover(r)
  {
    l.(items := l.items[tx.nonce := tx], costcap := Max(l.costcap, tx.cost), gascap := Max(l.gascap, tx.gas))
  }

  function Unpayable(costLimit: nat, gasLimit: nat): (f: Tx -> bool)
    ensures forall tx :: f(tx) <==> tx.cost > costLimit || tx.gas > gasLimit
  {
    (tx: Tx) => tx.cost > costLimit || tx.gas > gasLimit
  }

  function Later(nonce: nat): (f: Tx -> bool)
    ensures forall tx :: f(tx) <==> tx.nonce > nonce
  {
    (tx: Tx) => tx.nonce > nonce
  }

  /** The result of `txList.Filter`: the list left, the unpayable ones and the ones stranded behind them. */
  datatype Filtered = Filtered(list: TxListView, removed: Items, invalids: Items)

  function Filter(l: TxListView, costLimit: nat, gasLimit: nat): Filtered {
    if l.costcap <= costLimit && l.gascap <= gasLimit then
      Filtered(l, map[], map[])
    else
      FullScan(l, costLimit, gasLimit)
  }

  function FullScan(l: TxListView, costLimit: nat, gasLimit: nat): Filtered {
    var bad := Unpayable(costLimit, gasLimit);
    var removed, kept := Matching(l.items, bad), Unmatched(l.items, bad);
    var capped := l.(costcap := costLimit, gascap := gasLimit);
    if l.strict && removed != map[] then
      var late := Later(MinKey(removed));
      Filtered(capped.(items := Unmatched(kept, late)), removed, Matching(kept, late))
    else
      Filtered(capped.(items := kept), removed, map[])
  }

  /** The early exit never changes what is removed, demoted or kept. */
  lemma FilterIsFullScan(l: TxListView, costLimit: nat, gasLimit: nat)
    requires CapsCover(l)
    ensures
      var f, s := Filter(l, costLimit, gasLimit), FullScan(l, costLimit, gasLimit);
      && f.list.items == s.list.items && f.removed == s.removed && f.invalids == s.invalids
      && f.list.strict == l.strict && CapsCover(f.list)
      && f.removed == Matching(l.items, Unpayable(costLimit, gasLimit))
  {
    var s := FullScan(l, costLimit, gasLimit);
    if l.costcap <= costLimit && l.gascap <= gasLimit {
      assert Matching(l.items, Unpayable(costLimit, gasLimit)) == map[];
      assert Unmatched(l.items, Unpayable(costLimit, gasLimit)) == l.items;
    }
  }

  /** What filtering keeps, removes and hands back, transaction by transaction. */
  lemma FilterMeans(l: TxListView, costLimit: nat, gasLimit: nat)
    requires CapsCover(l) && Filed(l.items)
    ensures
      var f, m := Filter(l, costLimit, gasLimit), l.items;
      && Submap(f.list.items, m) && Submap(f.removed, m) && Submap(f.invalids, m)
      && (forall n :: n in f.removed <==> n in m && !(m[n].cost <= costLimit && m[n].gas <= gasLimit))
      && (forall n :: n in f.list.items <==>
            && n in m && m[n].cost <= costLimit && m[n].gas <= gasLimit
            && (l.strict ==> forall k :: k in m && k < n ==> m[k].cost <= costLimit && m[k].gas <= gasLimit))
      && (forall n :: n in f.invalids <==> n in m && n !in f.removed && n !in f.list.items)
  {
    hide Filter;
    FilterIsFullScan(l, costLimit, gasLimit);
  }

  function Forwarded(l: TxListView, threshold: nat): TxListView {
    l.(items := AtLeast(l.items, threshold))
  }

  function CappedList(l: TxListView, threshold: nat): TxListView {
    l.(items := Capped(l.items, threshold))
  }

  function ReadyList(l: TxListView, start: nat): TxListView {
    l.(items := AtLeast(l.items, ReadyEnd(l.items, start)))
  }

  /** What is ready at `start`: the nonces from the lowest on without a gap, if the lowest is not above `start`. */
  lemma ReadyMeans(m: Items, start: nat, n: nat)
    ensures n in Under(m, ReadyEnd(m, start)) <==>
            n in m && (exists k :: k in m && k <= start) && forall i, k :: k in m && k <= i <= n ==> i in m
  {
    if m != map[] && MinKey(m) <= start {
      var lo, e := MinKey(m), RunEnd(m, MinKey(m));
      if n in m && n >= e {
        assert lo <= e <= n && e !in m;
      }
    }
  }

  /** What `txList.Remove` leaves; a strict list also gives up everything after the nonce. */
  function RemovedList(l: TxListView, nonce: nat): TxListView {
    if nonce !in l.items then l
    else if l.strict then l.(items := Unmatched(l.items - {nonce}, Later(nonce)))
    else l.(items := l.items - {nonce})
  }

  /** What a removal keeps and strands, transaction by transaction. */
  lemma RemoveMeans(l: TxListView, nonce: nat)
    requires Filed(l.items)
    ensures
      var kept, m := RemovedList(l, nonce).items, l.items;
      && Submap(kept, m) && (forall k :: k in kept <==> k in m && k != nonce && (l.strict && nonce in m ==> k < nonce))
      && Submap(Stranded(l, nonce), m)
      && (forall k :: k in Stranded(l, nonce) <==> l.strict && nonce in m && k in m && k > nonce)
  {
  }

  /** The transactions stranded by a removal. */
  function Stranded(l: TxListView, nonce: nat): Items {
    if nonce in l.items && l.strict then Matching(l.items - {nonce}, Later(nonce)) else map[]
  }
}
