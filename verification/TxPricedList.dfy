/**
 core/tx_list.go: the price heap of the pool. Removed transactions are only counted and stay in
 the heap as stale entries; `all` is the set of pooled transactions that the heap points into.
 */
module TxPricedLists {
  import opened Sequences
  import opened Transactions
  import opened Heap

  /** Cheaper first; among equal prices the higher nonce is the worse one. */
  predicate PriceLess(a: Tx, b: Tx) {
    a.price < b.price || (a.price == b.price && a.nonce > b.nonce)
  }

  predicate Remote(tx: Tx, locals: set<Address>) {
    tx.sender !in locals
  }

  /** No transaction stands in the heap twice. */
  ghost predicate NoRepeats(heap: seq<Tx>) {
    forall t :: multiset(heap)[t] <= 1
  }

  class TxPricedList {
    var items: seq<Tx>
    var stales: int

    ghost predicate Valid()
      reads this
    {
      IsHeap(items, PriceLess)
    }

    /** Lazy deletion never loses a pooled transaction. */
    ghost predicate Tracks(all: set<Tx>)
      reads this
    {
      Valid() && forall t :: t in all ==> t in items
    }

    constructor ()
      ensures Valid() && items == [] && stales == 0
    {
      items, stales := [], 0;
    }

    method Put(tx: Tx)
      requires Valid()
      modifies this
      ensures Valid() && multiset(items) == multiset(old(items)) + multiset{tx} && stales == old(stales)
      ensures forall t :: t in items <==> t in old(items) || t == tx
    {
      items := Push(items, PriceLess, tx);
      Members(items, old(items) + [tx]);
    }

    /** Put back what was set aside. */
    method PutAll(save: seq<Tx>)
      requires Valid()
      modifies this
      ensures Valid() && multiset(items) == multiset(old(items)) + multiset(save) && stales == old(stales)
      ensures forall t :: t in items <==> t in old(items) || t in save
      ensures |items| == |old(items)| + |save|
    {
      for i := 0 to |save|
        invariant Valid() && stales == old(stales)
        invariant multiset(items) == multiset(old(items)) + multiset(save[..i])
      {
        assert save[..i + 1] == save[..i] + [save[i]];
        items := Push(items, PriceLess, save[i]);
      }
      assert save[..|save|] == save;
      Members(items, old(items) + save);
      SameSize(items, old(items) + save);
    }

    /** One transaction left `all`; the heap is rebuilt once a quarter of it is stale. */
    method Removed(all: set<Tx>)
      requires Tracks(all)
      modifies this
      ensures Tracks(all)
      ensures
        if old(stales) + 1 <= |old(items)| / 4 then items == old(items) && stales == old(stales) + 1
        else multiset(items) == multiset(all) && stales == 0
      ensures forall t :: t in items ==> t in old(items)
    {
      stales := stales + 1;
      if stales <= |items| / 4 {
        return;
      }
      var reheap, rest := [], all;
      while rest != {}
        invariant rest <= all && multiset(reheap) == multiset(all - rest)
        decreases |rest|
      {
        var tx :| tx in rest;
        assert all - (rest - {tx}) == (all - rest) + {tx};
        rest := rest - {tx};
        reheap := reheap + [tx];
      }
      assert all - rest == all;
      stales := 0;
      items := Init(reheap, PriceLess);
      forall t ensures t in items <==> t in all {
        assert t in multiset(items) <==> t in all;
      }
    }

    /** Take the remote transactions below the threshold off the heap, keeping the local ones. */
    method Cap(threshold: nat, all: set<Tx>, locals: set<Address>) returns (drop: seq<Tx>)
      requires Tracks(all)
      modifies this
      ensures Valid() && multiset(items) + multiset(drop) <= multiset(old(items))
      ensures forall t :: t in drop <==> t in all && Remote(t, locals) && t.price < threshold
      ensures forall t :: t in all && t !in drop ==> t in items
      ensures stales == old(stales) - (|old(items)| - |items| - |drop|)
    {
      hide IsHeap, StrictWeak;
      PriceOrder();
      drop := [];
      var save := [];
      while items != []
        invariant stales == old(stales) - (|old(items)| - |items| - |save| - |drop|)
        invariant Valid() && multiset(items) + multiset(save) + multiset(drop) <= multiset(old(items))
        invariant forall t :: t in drop ==> t in all && Remote(t, locals) && t.price < threshold
        invariant forall t :: t in save ==> t in all && !Remote(t, locals)
        invariant forall t :: t in all ==> t in items || t in save || t in drop
        decreases |items|
      {
        var was := items;
        var tx;
        items, tx := Pop(items, PriceLess);
        PopMembers(was, items, tx);
        SameSize(was, items + [tx]);
        if tx !in all {
          stales := stales - 1;
        } else if tx.price >= threshold {
          save := save + [tx];
          forall t | t in all && Remote(t, locals) && t.price < threshold ensures t in drop {
            assert t in was ==> !PriceLess(t, tx);
          }
          break;
        } else if tx.sender in locals {
          save := save + [tx];
        } else {
          drop := drop + [tx];
        }
      }
      PutAll(save);
    }

    /** Whether no pooled transaction is cheaper than `tx`; stale roots are dropped on the way. */
    method Underpriced(tx: Tx, all: set<Tx>, locals: set<Address>) returns (b: bool)
      requires Tracks(all)
      modifies this
      ensures Tracks(all) && multiset(items) <= multiset(old(items))
      ensures stales == old(stales) - (|old(items)| - |items|)
      ensures tx.sender in locals ==> !b
      ensures Remote(tx, locals) && all != {} ==> (b <==> forall t :: t in all ==> tx.price <= t.price)
      ensures all == {} ==> !b
    {
      hide IsHeap, StrictWeak;
      PriceOrder();
      if tx.sender in locals {
        return false;
      }
      while items != [] && items[0] !in all
        invariant Tracks(all) && multiset(items) <= multiset(old(items))
        invariant stales == old(stales) - (|old(items)| - |items|)
        decreases |items|
      {
        var was := items;
        var head;
        items, head := Pop(items, PriceLess);
        PopMembers(was, items, head);
        SameSize(was, items + [head]);
        stales := stales - 1;
      }
      if items == [] {
        return false;
      }
      LeastOfAll(items, PriceLess);
      var cheapest := items[0];
      assert forall t :: t in all ==> !PriceLess(t, cheapest);
      b := cheapest.price >= tx.price;
    }

    /** Take the `count` cheapest remote transactions off the heap. */
    method Discard(count: nat, all: set<Tx>, locals: set<Address>) returns (drop: seq<Tx>)
      requires Tracks(all)
      modifies this
      ensures Valid() && multiset(items) + multiset(drop) <= multiset(old(items)) && |drop| <= count
      ensures forall t :: t in drop ==> t in all && Remote(t, locals)
      ensures forall t :: t in all && t !in drop ==> t in items
      ensures forall d, t :: d in drop && t in all && Remote(t, locals) && t !in drop ==> !PriceLess(t, d)
      ensures |drop| == count || forall t :: t in all && Remote(t, locals) ==> t in drop
      ensures forall t :: t in all && Remote(t, locals) ==>
                multiset(items)[t] + multiset(drop)[t] == multiset(old(items))[t]
      ensures forall d, t :: d in drop && t in items && t in all && Remote(t, locals) ==> !PriceLess(t, d)
      ensures stales == old(stales) - (|old(items)| - |items| - |drop|)
    {
      hide IsHeap, StrictWeak;
      PriceOrder();
      drop := [];
      var save, left := [], count;
      while items != [] && left > 0
        invariant Valid() && multiset(items) + multiset(save) + multiset(drop) <= multiset(old(items))
        invariant 0 <= left && |drop| + left == count
        invariant stales == old(stales) - (|old(items)| - |items| - |save| - |drop|)
        invariant forall t :: t in drop ==> t in all && Remote(t, locals)
        invariant forall t :: t in save ==> t in all && !Remote(t, locals)
        invariant forall t :: t in all ==> t in items || t in save || t in drop
        invariant forall d, t :: d in drop && t in items ==> !PriceLess(t, d)
        invariant forall t :: t in all && Remote(t, locals) ==>
                    multiset(items)[t] + multiset(drop)[t] == multiset(old(items))[t]
        decreases |items|
      {
        var was := items;
        var tx;
        items, tx := Pop(items, PriceLess);
        PopMembers(was, items, tx);
        SameSize(was, items + [tx]);
        if tx !in all {
          stales := stales - 1;
        } else if tx.sender in locals {
          save := save + [tx];
        } else {
          drop := drop + [tx];
          left := left - 1;
        }
      }
      PutAll(save);
    }
  }

  /** `Discard` frees the room asked for, or all there is, exactly if it takes nothing twice or everything. */
  lemma DiscardFrees(drop: seq<Tx>, count: nat, all: set<Tx>, locals: set<Address>)
    requires |drop| <= count && forall t :: t in drop ==> t in all && Remote(t, locals)
    requires |drop| == count || forall t :: t in all && Remote(t, locals) ==> t in drop
    ensures
      var remote := set t | t in all && Remote(t, locals);
      |set t | t in drop| == (if |remote| < count then |remote| else count) <==>
      NoRepeats(drop) || forall t :: t in all && Remote(t, locals) ==> t in drop
  {
    var remote, gone := set t | t in all && Remote(t, locals), set t | t in drop;
    DistinctSize(drop);
    assert gone <= remote;
    SubsetSize(gone, remote);
    if gone == remote {
      assert forall t :: t in all && Remote(t, locals) ==> t in remote;
    } else {
      assert remote == gone + (remote - gone);
      assert exists t :: t in remote && t !in gone;
    }
  }

  /**
   Why repetitions matter. The cheapest transaction leaves and comes back while its stale entry is still in the
   heap; asked for two, `Discard` takes it off twice and frees one place.
   */
  method LeaveAndReturn(l: TxPricedList, t: Tx, all: set<Tx>) returns (drop: seq<Tx>)
    requires l.Tracks(all) && NoRepeats(l.items) && l.stales + 1 <= |l.items| / 4
    requires |all| > 2 && t in all && forall x :: x in all && x != t ==> PriceLess(t, x)
    modifies l
    ensures drop == [t, t]
  {
    hide IsHeap, PriceLess;
    l.Removed(all - {t});
    l.Put(t);
    assert multiset(l.items)[t] == 2;
    drop := l.Discard(2, all, {});
    TakenTwice(drop, l.items, t, all);
  }

  /** It happens to the cheapest of five. */
  method RepeatedEntry() returns (drop: seq<Tx>)
    ensures |drop| == 2 && drop[0] == drop[1]
  {
    hide IsHeap, PriceLess, NoRepeats;
    var t, a, b := Tx(0, 0, 0, 1, 0, 0), Tx(1, 1, 0, 2, 0, 0), Tx(2, 2, 0, 2, 0, 0);
    var c, d := Tx(3, 3, 0, 2, 0, 0), Tx(4, 4, 0, 2, 0, 0);
    var l := new TxPricedList();
    l.PutAll([t, a, b, c, d]);
    CheapestOfFive(t, a, b, c, d, l.items);
    drop := LeaveAndReturn(l, t, {t, a, b, c, d});
  }

  lemma CheapestOfFive(t: Tx, a: Tx, b: Tx, c: Tx, d: Tx, heap: seq<Tx>)
    requires t.price < a.price && t.price < b.price && t.price < c.price && t.price < d.price
    requires a.hash < b.hash < c.hash < d.hash && multiset(heap) == multiset([t, a, b, c, d])
    ensures |heap| == 5 && NoRepeats(heap)
    ensures |{t, a, b, c, d}| == 5 && forall x :: x in {t, a, b, c, d} && x != t ==> PriceLess(t, x)
  {
    assert |heap| == |multiset(heap)|;
    assert {t, a, b, c, d} == {t} + ({a} + ({b} + ({c} + {d})));
  }

  /** Two entries are taken off, and none that is dearer than `t` while `t` is still there. */
  lemma TakenTwice(drop: seq<Tx>, left: seq<Tx>, t: Tx, all: set<Tx>)
    requires |all| > 2 && |drop| <= 2 && (|drop| == 2 || forall x :: x in all ==> x in drop)
    requires multiset(left)[t] + multiset(drop)[t] == 2
    requires forall d, x :: d in drop && x in left && x in all ==> !PriceLess(x, d)
    requires forall d :: d in drop ==> d in all
    requires t in all && forall x :: x in all && x != t ==> PriceLess(t, x)
    ensures drop == [t, t]
  {
    if |drop| < 2 {
      Covered(drop, all);
    }
    forall i | 0 <= i < 2 ensures drop[i] == t {
      if t in left {
        assert !PriceLess(t, drop[i]);
      } else {
        assert drop == [drop[0], drop[1]];
      }
    }
  }

  lemma {:induction false} Covered(s: seq<Tx>, all: set<Tx>)
    requires forall x :: x in all ==> x in s
    ensures |all| <= |s|
  {
    if s == [] {
      assert all == {};
    } else {
      Covered(s[1..], all - {s[0]});
    }
  }

  lemma {:induction false} DistinctSize(s: seq<Tx>)
    ensures |set t | t in s| <= |s| && (|set t | t in s| == |s| <==> NoRepeats(s))
  {
    if s != [] {
      var r := s[1..];
      DistinctSize(r);
      assert s == [s[0]] + r;
      assert (set t | t in s) == (set t | t in r) + {s[0]};
      if s[0] in r {
        assert multiset(s)[s[0]] >= 2;
      } else {
        assert forall t :: multiset(s)[t] == multiset(r)[t] + if t == s[0] then 1 else 0;
        assert multiset(r)[s[0]] == 0;
      }
    }
  }

  lemma PriceOrder()
    ensures StrictWeak(PriceLess)
  {
  }

  lemma SameSize(a: seq<Tx>, b: seq<Tx>)
    requires multiset(a) == multiset(b)
    ensures |a| == |b|
  {
    assert |multiset(a)| == |a| && |multiset(b)| == |b|;
  }

  lemma Members(a: seq<Tx>, b: seq<Tx>)
    requires multiset(a) == multiset(b)
    ensures forall t :: t in a <==> t in b
  {
    forall t ensures t in a <==> t in b {
      assert t in multiset(a) <==> t in multiset(b);
    }
  }

  lemma PopMembers(was: seq<Tx>, now: seq<Tx>, tx: Tx)
    requires multiset(was) == multiset(now) + multiset{tx}
    ensures forall t :: t in was <==> t in now || t == tx
  {
    Members(was, now + [tx]);
  }
}
