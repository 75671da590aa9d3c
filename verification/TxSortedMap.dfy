/** core/tx_list.go: the nonce-indexed map with a heap of nonces and a cache of the sorted contents. */
module TxSortedMaps {
  import opened Transactions
  import opened TxListSpec
  import opened Heap
  import opened Sequences
  import opened Sorting

  predicate NonceLess(a: nat, b: nat) {
    a < b
  }

  predicate TxNonceLess(a: Tx, b: Tx) {
    a.nonce < b.nonce
  }

  /** `s` is the contents of `m`, each once, in any order. */
  ghost predicate IsCollection(s: seq<Tx>, m: Items) {
    && (forall i :: 0 <= i < |s| ==> s[i].nonce in m && m[s[i].nonce] == s[i])
    && (forall i, j :: 0 <= i < j < |s| ==> s[i].nonce != s[j].nonce)
    && (forall n :: n in m ==> m[n] in s)
  }

  /** The index is a heap-ordered permutation of the keys. */
  ghost predicate IndexOf(index: seq<nat>, m: Items) {
    IsHeap(index, NonceLess) && multiset(index) == multiset(m.Keys)
  }

  lemma IndexMembers(index: seq<nat>, m: Items)
    requires IndexOf(index, m)
    ensures multiset(index) == multiset(m.Keys) && |index| == |m| && forall n :: n in index <==> n in m
    ensures index != [] ==> index[0] in m && forall n :: n in m ==> index[0] <= n
  {
    assert |multiset(index)| == |index| && |multiset(m.Keys)| == |m.Keys|;
    forall n ensures n in index <==> n in m {
      assert n in multiset(index) <==> n in index;
    }
    if index != [] {
      LeastOfAll(index, NonceLess);
      assert index[0] in index;
      forall n | n in m ensures index[0] <= n {
        assert !NonceLess(n, index[0]);
      }
    }
  }

  class TxSortedMap {
    var items: Items
    var index: seq<nat>
    var cache: Option<seq<Tx>>

    ghost predicate Indexed()
      reads this
    {
      Filed(items) && IndexOf(index, items)
    }

    ghost predicate Valid()
      reads this
    {
      Indexed() && (cache.Some? ==> IsListing(cache.value, items))
    }

    constructor ()
      ensures Valid() && items == map[] && cache == None
    {
      items, index, cache := map[], [], None;
    }

    method Get(nonce: nat) returns (tx: Option<Tx>)
      ensures tx == if nonce in items then Some(items[nonce]) else None
    {
      if nonce in items { tx := Some(items[nonce]); } else { tx := None; }
    }

    method Put(tx: Tx)
      requires Valid()
      modifies this
      ensures Valid() && items == old(items)[tx.nonce := tx] && cache == None
    {
      if tx.nonce !in items {
        index := Push(index, NonceLess, tx.nonce);
        assert items[tx.nonce := tx].Keys == items.Keys + {tx.nonce};
      } else {
        assert items[tx.nonce := tx].Keys == items.Keys;
      }
      items, cache := items[tx.nonce := tx], None;
    }

    /** Pop the root of the index and its transaction. */
    method PopRoot() returns (tx: Tx)
      requires Indexed() && index != []
      modifies this`items, this`index
      ensures Indexed() && old(items) != map[] && tx.nonce == MinKey(old(items)) == old(index)[0]
      ensures tx == old(items)[tx.nonce] && items == old(items) - {tx.nonce}
    {
      IndexMembers(index, items);
      var rest, nonce := Pop(index, NonceLess);
      IndexWithout(index, rest, items, nonce);
      tx, index, items := items[nonce], rest, items - {nonce};
    }

    /** Pop heap entries until the threshold is reached. */
    method PopUnder(threshold: nat) returns (removed: seq<Tx>)
      requires Indexed()
      modifies this`items, this`index
      ensures Indexed() && items == AtLeast(old(items), threshold)
      ensures IsListing(removed, Under(old(items), threshold))
    {
      hide IsListing, IndexOf;
      ghost var m := items;
      removed := [];
      ghost var cut: nat := 0;
      CutAtZero(m);
      while index != [] && index[0] < threshold
        invariant Indexed() && cut <= threshold
        invariant items == AtLeast(m, cut) && IsListing(removed, Under(m, cut))
        decreases |items|
      {
        IndexMembers(index, items);
        SizeWithout(items, MinKey(items));
        var tx := PopRoot();
        CutStep(m, cut, removed);
        removed := removed + [tx];
        cut := tx.nonce + 1;
      }
      IndexMembers(index, items);
      CutDone(m, cut, threshold);
    }

    method Forward(threshold: nat) returns (removed: seq<Tx>)
      requires Valid()
      modifies this
      ensures Valid() && items == AtLeast(old(items), threshold)
      ensures IsListing(removed, Under(old(items), threshold))
    {
      hide IsListing, IndexOf;
      removed := PopUnder(threshold);
      if cache.Some? {
        ForwardCache(cache.value, old(items), removed, threshold);
        cache := Some(cache.value[|removed|..]);
      }
    }

    method Filter(filter: Tx -> bool) returns (removed: seq<Tx>)
      requires Valid()
      modifies this
      ensures Valid() && items == Unmatched(old(items), filter)
      ensures IsCollection(removed, Matching(old(items), filter))
    {
      hide IsListing, IndexOf, Capped;
      ghost var m := items;
      removed := [];
      var rest := items.Keys;
      assert items == Sift(m, filter, rest);
      while rest != {}
        invariant rest <= m.Keys && index == old(index) && cache == old(cache)
        invariant items == Sift(m, filter, rest) && IsCollection(removed, m - items.Keys)
        decreases |rest|
      {
        var nonce :| nonce in rest;
        SiftStep(m, filter, rest, nonce, removed);
        rest := rest - {nonce};
        if filter(items[nonce]) {
          removed := removed + [items[nonce]];
          items := items - {nonce};
        }
      }
      SiftDone(m, filter, removed);
      if |removed| > 0 {
        Reindex();
        cache := None;
      }
    }

    /** Rebuild the index from the keys. */
    method Reindex()
      requires Filed(items)
      modifies this`index
      ensures Indexed()
    {
      var keys := [];
      var rest := items.Keys;
      while rest != {}
        invariant rest <= items.Keys && multiset(keys) == multiset(items.Keys - rest)
        decreases |rest|
      {
        var nonce :| nonce in rest;
        LeaveKey(items.Keys, rest, nonce);
        keys, rest := keys + [nonce], rest - {nonce};
      }
      assert items.Keys - rest == items.Keys;
      Rebuild(keys);
    }

    /** Make a heap of the nonces. */
    method Rebuild(keys: seq<nat>)
      requires Filed(items) && multiset(keys) == multiset(items.Keys)
      modifies this`index
      ensures Indexed()
    {
      hide IsHeap, Filed;
      index := Init(keys, NonceLess);
    }

    /** Delete the highest nonces, given all of them in order. */
    method DropTop(sorted: seq<nat>, threshold: nat) returns (drops: seq<Tx>)
      requires Filed(items) && KeysInOrder(sorted, items) && threshold < |sorted| == |items|
      modifies this`items
      ensures items == Capped(old(items), threshold) && IsListing(Reversed(drops), old(items) - items.Keys)
    {
      hide IsListing, Capped, Filed, KeysInOrder;
      ghost var m := items;
      drops := [];
      CutAtZero(m);
      CappedWhole(m);
      var size := |items|;
      while size > threshold
        invariant threshold <= size <= |sorted|
        invariant items == Capped(m, size) && IsListing(Reversed(drops), m - items.Keys)
        decreases size
      {
        CapStep(m, sorted, size, drops);
        drops := drops + [items[sorted[size - 1]]];
        items := items - {sorted[size - 1]};
        size := size - 1;
      }
    }

    method Cap(threshold: nat) returns (drops: seq<Tx>)
      requires Valid()
      modifies this
      ensures Valid() && items == Capped(old(items), threshold)
      ensures IsListing(Reversed(drops), old(items) - items.Keys)
    {
      hide IsListing, Capped, IndexOf, KeysInOrder, SortedBy, LowerPart, Filed, Submap;
      ghost var m := items;
      IndexMembers(index, items);
      if |items| <= threshold {
        CutAtZero(m);
        CappedSmall(m, threshold);
        return [];
      }
      var sorted := Sort(index, NonceLess);
      SortedKeys(sorted, m);
      drops := DropTop(sorted, threshold);
      SortedPrefix(sorted, m, threshold);
      Rebuild(sorted[..threshold]);
      if cache.Some? {
        CapCache(cache.value, m, items, drops);
        cache := Some(cache.value[..|cache.value| - |drops|]);
      }
    }

    method Remove(nonce: nat) returns (ok: bool)
      requires Valid()
      modifies this
      ensures Valid() && items == old(items) - {nonce} && (ok <==> nonce in old(items))
    {
      ok := nonce in items;
      if ok {
        IndexMembers(index, items);
        var i := 0;
        while index[i] != nonce
          invariant 0 <= i < |index| && exists k :: i <= k < |index| && index[k] == nonce
          decreases |index| - i
        {
          i := i + 1;
        }
        var rest, x := Heap.Remove(index, NonceLess, i);
        IndexWithout(index, rest, items, nonce);
        index, items, cache := rest, items - {nonce}, None;
      }
    }

    /** Pop heap entries while their nonces are consecutive. */
    method PopRun() returns (ready: seq<Tx>)
      requires Indexed() && index != []
      modifies this`items, this`index
      ensures Indexed() && old(items) != map[] && old(index)[0] == MinKey(old(items))
      ensures items == AtLeast(old(items), RunEnd(old(items), old(index)[0]))
      ensures IsListing(ready, Under(old(items), RunEnd(old(items), old(index)[0])))
    {
      hide IsListing, IndexOf, RunSoFar, AtLeast, Under, RunEnd, Filed;
      ghost var m := items;
      IndexMembers(index, items);
      var next := index[0];
      ghost var first := next;
      ready := [];
      RunStart(m, first);
      while index != [] && index[0] == next
        invariant Indexed() && RunSoFar(m, first, next, items, ready)
        decreases |items|
      {
        IndexMembers(index, items);
        SizeWithout(items, next);
        RunStep(m, first, next, items, ready);
        var tx := PopRoot();
        ready := ready + [tx];
        next := next + 1;
      }
      IndexMembers(index, items);
      RunDone(m, first, next, items, ready);
    }

    method Ready(start: nat) returns (ready: seq<Tx>)
      requires Valid()
      modifies this
      ensures Valid() && items == AtLeast(old(items), ReadyEnd(old(items), start))
      ensures IsListing(ready, Under(old(items), ReadyEnd(old(items), start)))
    {
      hide IsListing, IndexOf;
      IndexMembers(index, items);
      CutAtZero(items);
      if index == [] || index[0] > start {
        return [];
      }
      ready := PopRun();
      cache := None;
    }

    method Len() returns (n: nat)
      ensures n == |items|
    {
      n := |items|;
    }

    method Flatten() returns (txs: seq<Tx>)
      requires Valid()
      modifies this`cache
      ensures Valid() && IsListing(txs, items)
    {
      if cache.None? {
        var all := [];
        var rest := items.Keys;
        while rest != {}
          invariant rest <= items.Keys && IsCollection(all, items - rest)
          decreases |rest|
        {
          var nonce :| nonce in rest;
          ghost var was := items - rest;
          rest := rest - {nonce};
          CollectionAppend(all, was, items[nonce]);
          assert items - rest == was[nonce := items[nonce]];
          all := all + [items[nonce]];
        }
        assert items - rest == items;
        var sorted := Sort(all, TxNonceLess);
        SortedCollection(all, sorted, items);
        cache := Some(sorted);
      }
      txs := cache.value;
    }
  }

  // ----- proofs -----

  lemma IndexWithout(index: seq<nat>, rest: seq<nat>, m: Items, n: nat)
    requires IndexOf(index, m) && n in m && IsHeap(rest, NonceLess)
    requires multiset(index) == multiset(rest) + multiset{n}
    ensures IndexOf(rest, m - {n})
  {
    assert (m - {n}).Keys == m.Keys - {n};
    assert multiset(m.Keys) == multiset(m.Keys - {n}) + multiset{n};
    assert multiset(rest) == multiset(index) - multiset{n};
  }

  lemma ListingAppend(s: seq<Tx>, m: Items, tx: Tx)
    requires IsListing(s, m) && forall n :: n in m ==> n < tx.nonce
    ensures IsListing(s + [tx], m[tx.nonce := tx])
  {
  }

  lemma ListingPrepend(s: seq<Tx>, m: Items, tx: Tx)
    requires IsListing(s, m) && forall n :: n in m ==> tx.nonce < n
    ensures IsListing([tx] + s, m[tx.nonce := tx])
  {
  }

  /** Nothing is cut off yet. */
  lemma CutAtZero(m: Items)
    ensures AtLeast(m, 0) == m && Under(m, 0) == map[] && IsListing([], Under(m, 0))
    ensures IsListing(Reversed([]), m - m.Keys)
  {
  }

  lemma CutStep(m: Items, cut: nat, s: seq<Tx>)
    requires Filed(m) && AtLeast(m, cut) != map[] && IsListing(s, Under(m, cut))
    ensures
      var n := MinKey(AtLeast(m, cut));
      AtLeast(m, cut) - {n} == AtLeast(m, n + 1) && IsListing(s + [m[n]], Under(m, n + 1))
  {
    hide IsListing;
    var n := MinKey(AtLeast(m, cut));
    assert forall k :: k in m && k < n ==> k < cut;
    assert Under(m, n + 1) == Under(m, cut)[n := m[n]];
    ListingAppend(s, Under(m, cut), m[n]);
  }

  lemma CutDone(m: Items, cut: nat, threshold: nat)
    requires cut <= threshold && forall n :: n in m && cut <= n ==> threshold <= n
    ensures AtLeast(m, cut) == AtLeast(m, threshold) && Under(m, cut) == Under(m, threshold)
  {
  }

  lemma ForwardCache(c: seq<Tx>, m: Items, removed: seq<Tx>, threshold: nat)
    requires Filed(m) && IsListing(c, m) && IsListing(removed, Under(m, threshold))
    ensures |removed| <= |c| && IsListing(c[|removed|..], AtLeast(m, threshold))
  {
    var lo, hi := Under(m, threshold), AtLeast(m, threshold);
    ListingLength(removed, lo);
    ListingLength(c, m);
    SubsetSize(lo.Keys, m.Keys);
    ListingSplit(c, m, lo, hi, |removed|);
  }

  /** What is left of `m` once every nonce outside `rest` has been filtered. */
  ghost function Sift(m: Items, filter: Tx -> bool, rest: set<nat>): Items {
    map n | n in m && (n in rest || !filter(m[n])) :: m[n]
  }

  lemma SiftStep(m: Items, filter: Tx -> bool, rest: set<nat>, n: nat, removed: seq<Tx>)
    requires Filed(m) && n in rest && rest <= m.Keys && IsCollection(removed, m - Sift(m, filter, rest).Keys)
    ensures
      var items, next := Sift(m, filter, rest), Sift(m, filter, rest - {n});
      && n in items && items[n] == m[n]
      && next == (if filter(m[n]) then items - {n} else items)
      && IsCollection(if filter(m[n]) then removed + [m[n]] else removed, m - next.Keys)
  {
    var items, next := Sift(m, filter, rest), Sift(m, filter, rest - {n});
    if filter(m[n]) {
      assert next == items - {n};
      assert m - next.Keys == (m - items.Keys)[n := m[n]];
      CollectionAppend(removed, m - items.Keys, m[n]);
    } else {
      assert next == items;
    }
  }

  lemma SiftDone(m: Items, filter: Tx -> bool, removed: seq<Tx>)
    requires IsCollection(removed, m - Sift(m, filter, {}).Keys)
    ensures Sift(m, filter, {}) == Unmatched(m, filter)
    ensures IsCollection(removed, Matching(m, filter))
    ensures |removed| == 0 ==> Unmatched(m, filter) == m
  {
    assert Sift(m, filter, {}) == Unmatched(m, filter);
    assert m - Sift(m, filter, {}).Keys == Matching(m, filter);
    if |removed| == 0 {
      assert forall n :: n in m ==> n !in Matching(m, filter);
      assert Unmatched(m, filter) == m;
    }
  }

  lemma CollectionAppend(s: seq<Tx>, m: Items, tx: Tx)
    requires IsCollection(s, m) && tx.nonce !in m
    ensures IsCollection(s + [tx], m[tx.nonce := tx])
  {
  }

  lemma SortedCollection(all: seq<Tx>, sorted: seq<Tx>, m: Items)
    requires IsCollection(all, m) && SortedBy(sorted, TxNonceLess) && multiset(all) == multiset(sorted)
    ensures IsListing(sorted, m)
  {
    forall tx ensures tx in all <==> tx in sorted {
      assert tx in multiset(all) <==> tx in multiset(sorted);
    }
    forall i | 0 <= i < |sorted| ensures sorted[i].nonce in m && m[sorted[i].nonce] == sorted[i] {
      assert sorted[i] in all;
    }
    forall i, j | 0 <= i < j < |sorted| ensures sorted[i].nonce < sorted[j].nonce {
      assert !TxNonceLess(sorted[j], sorted[i]);
      if sorted[i].nonce == sorted[j].nonce {
        TwiceInMultiset(sorted, i, j);
        OnceInCollection(all, sorted[i]);
      }
    }
  }

  lemma {:induction false} OnceInCollection(s: seq<Tx>, tx: Tx)
    requires forall i, j :: 0 <= i < j < |s| ==> s[i].nonce != s[j].nonce
    ensures multiset(s)[tx] <= 1
  {
    if s != [] {
      OnceInCollection(s[1..], tx);
      assert s == [s[0]] + s[1..];
      assert forall j :: 0 <= j < |s[1..]| ==> s[1..][j].nonce != s[0].nonce;
    }
  }

  ghost predicate KeysInOrder(sorted: seq<nat>, m: Items) {
    && (forall n :: n in sorted <==> n in m)
    && (forall i, j :: 0 <= i < j < |sorted| ==> sorted[i] < sorted[j])
  }

  lemma SortedKeys(sorted: seq<nat>, m: Items)
    requires SortedBy(sorted, NonceLess) && multiset(sorted) == multiset(m.Keys)
    ensures |sorted| == |m| && KeysInOrder(sorted, m)
  {
    assert |multiset(sorted)| == |sorted| && |multiset(m.Keys)| == |m.Keys|;
    forall n ensures n in sorted <==> n in m {
      assert n in multiset(sorted) <==> n in sorted;
    }
    forall i, j | 0 <= i < j < |sorted| ensures sorted[i] < sorted[j] {
      assert !NonceLess(sorted[j], sorted[i]);
      if sorted[i] == sorted[j] {
        TwiceInMultiset(sorted, i, j);
      }
    }
  }

  /** A prefix of the sorted keys is the index of the lowest transactions. */
  lemma SortedPrefix(sorted: seq<nat>, m: Items, k: nat)
    requires KeysInOrder(sorted, m) && k <= |sorted| == |m|
    ensures multiset(sorted[..k]) == multiset(Capped(m, k).Keys)
    ensures forall n :: n in Capped(m, k) <==> n in sorted[..k]
    ensures Filed(m) ==> Filed(Capped(m, k))
  {
    hide Capped;
    var p := sorted[..k];
    var low := map n | n in m && n in p :: m[n];
    DistinctKeys(p, low.Keys);
    assert |multiset(p)| == |p| && |multiset(low.Keys)| == |low.Keys|;
    forall a, b | a in low && b in m && b !in low ensures a < b {
      var i :| 0 <= i < k && p[i] == a;
      var j :| 0 <= j < |sorted| && sorted[j] == b;
    }
    LowerPartUnique(low, Capped(m, k), m);
  }

  lemma CappedSmall(m: Items, k: nat)
    requires |m| <= k
    ensures Capped(m, k) == m
  {
  }

  lemma CappedWhole(m: Items)
    ensures Capped(m, |m|) == m
  {
  }

  lemma PrefixLast(sorted: seq<nat>, m: Items, k: nat)
    requires KeysInOrder(sorted, m) && 0 < k <= |sorted| == |m|
    ensures sorted[k - 1] in Capped(m, k) && forall n :: n in Capped(m, k) ==> n <= sorted[k - 1]
  {
    hide Capped, Submap, LowerPart;
    SortedPrefix(sorted, m, k);
    assert sorted[..k][k - 1] == sorted[k - 1];
    forall n | n in Capped(m, k) ensures n <= sorted[k - 1] {
      var i :| 0 <= i < k && sorted[..k][i] == n;
    }
  }

  lemma CappedStep(m: Items, k: nat, last: nat)
    requires 0 < k <= |m| && last in Capped(m, k) && forall n :: n in Capped(m, k) ==> n <= last
    ensures Capped(m, k) - {last} == Capped(m, k - 1)
  {
    hide Capped;
    SizeWithout(Capped(m, k), last);
    LowerPartUnique(Capped(m, k) - {last}, Capped(m, k - 1), m);
  }

  lemma CapStep(m: Items, sorted: seq<nat>, size: nat, drops: seq<Tx>)
    requires Filed(m) && KeysInOrder(sorted, m) && 0 < size <= |sorted| == |m|
    requires IsListing(Reversed(drops), m - Capped(m, size).Keys)
    ensures
      var items, n := Capped(m, size), sorted[size - 1];
      && n in items && items - {n} == Capped(m, size - 1)
      && IsListing(Reversed(drops + [items[n]]), m - Capped(m, size - 1).Keys)
  {
    hide IsListing, Capped, KeysInOrder;
    var items, n := Capped(m, size), sorted[size - 1];
    PrefixLast(sorted, m, size);
    CappedStep(m, size, n);
    var gone := m - items.Keys;
    assert m - (items - {n}).Keys == gone[n := m[n]];
    ListingPrepend(Reversed(drops), gone, m[n]);
    assert Reversed(drops + [m[n]]) == [m[n]] + Reversed(drops);
  }

  lemma {:induction false} DistinctKeys(s: seq<nat>, keys: set<nat>)
    requires forall i, j :: 0 <= i < j < |s| ==> s[i] < s[j]
    requires forall n :: n in keys <==> n in s
    ensures multiset(s) == multiset(keys)
  {
    if s == [] {
      assert keys == {};
    } else {
      var t := s[1..];
      assert s == [s[0]] + t;
      assert forall i :: 0 <= i < |t| ==> s[0] < t[i];
      DistinctKeys(t, keys - {s[0]});
      assert keys == (keys - {s[0]}) + {s[0]};
    }
  }

  lemma CapCache(c: seq<Tx>, m: Items, items: Items, drops: seq<Tx>)
    requires Filed(m) && IsListing(c, m) && Submap(items, m) && LowerPart(items, m)
    requires IsListing(Reversed(drops), m - items.Keys)
    ensures |drops| <= |c| && IsListing(c[..|c| - |drops|], items)
  {
    var gone := m - items.Keys;
    ListingLength(c, m);
    ListingLength(Reversed(drops), gone);
    PartSizes(m, items);
    ListingSplit(c, m, items, gone, |items|);
  }

  lemma PartSizes(m: Items, items: Items)
    requires Submap(items, m)
    ensures |m| == |items| + |m - items.Keys| && m.Keys == items.Keys + (m - items.Keys).Keys
  {
  }

  lemma RunEndUnique(m: Items, lo: nat, e: nat)
    requires lo <= e && e !in m && forall n :: lo <= n < e ==> n in m
    ensures e == RunEnd(m, lo)
  {
  }

  /** The consecutive nonces from `first` up to `next` have been popped. */
  ghost predicate RunSoFar(m: Items, first: nat, next: nat, items: Items, ready: seq<Tx>) {
    && Filed(m) && items == AtLeast(m, next) && IsListing(ready, Under(m, next))
    && first <= next && forall n :: first <= n < next ==> n in m
  }

  lemma RunStart(m: Items, first: nat)
    requires Filed(m) && first in m && forall n :: n in m ==> first <= n
    ensures RunSoFar(m, first, first, m, [])
  {
  }

  lemma RunStep(m: Items, first: nat, next: nat, items: Items, ready: seq<Tx>)
    requires RunSoFar(m, first, next, items, ready) && next in items
    ensures RunSoFar(m, first, next + 1, items - {next}, ready + [items[next]])
  {
  }

  lemma RunDone(m: Items, first: nat, next: nat, items: Items, ready: seq<Tx>)
    requires RunSoFar(m, first, next, items, ready) && (items != map[] ==> MinKey(items) != next)
    ensures items == AtLeast(m, RunEnd(m, first)) && IsListing(ready, Under(m, RunEnd(m, first)))
  {
    hide IsListing;
    RunEndUnique(m, first, next);
  }

  lemma LeaveKey(keys: set<nat>, rest: set<nat>, n: nat)
    requires n in rest && rest <= keys
    ensures multiset(keys - (rest - {n})) == multiset(keys - rest) + multiset{n}
  {
  }
}
