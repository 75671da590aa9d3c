/** What the global queue limit leaves of the queued transactions, and in which order accounts pay for it. */
module QueueCut {
  import opened Transactions
  import opened TxListSpec
  import opened PoolState
  import opened Fairness
  import opened Heap
  import opened Sequences
  import opened Sorting

  datatype AddressByHeartbeat = AddressByHeartbeat(address: Address, heartbeat: nat)

  predicate Earlier(x: AddressByHeartbeat, y: AddressByHeartbeat) {
    x.heartbeat < y.heartbeat
  }

  lemma EarlierOrder()
    ensures StrictWeak(Earlier)
  {
  }

  /** The heartbeat of an account as a time; the zero time, before every clock, when it has none. */
  function Beat(beats: map<Address, nat>, a: Address): nat {
    if a in beats then beats[a] + 1 else 0
  }

  /** The remote accounts with queued transactions, by increasing heartbeat. */
  ghost predicate ByHeartbeat(order: seq<AddressByHeartbeat>, q: Lists, locals: set<Address>,
                              beats: map<Address, nat>) {
    && (forall i :: 0 <= i < |order| ==> order[i].address in q && order[i].address !in locals
                                         && order[i].heartbeat == Beat(beats, order[i].address))
    && (forall i, j :: 0 <= i < j < |order| ==>
          order[i].address != order[j].address && order[i].heartbeat <= order[j].heartbeat)
    && (forall a :: a in q && a !in locals ==> AddressByHeartbeat(a, Beat(beats, a)) in order)
  }

  lemma RemoteAt(order: seq<AddressByHeartbeat>, q: Lists, locals: set<Address>, beats: map<Address, nat>, i: nat)
    requires ByHeartbeat(order, q, locals, beats) && i < |order|
    ensures order[i].address !in locals
  {
  }

  /** `order[i..]` has been dealt with: everything dropped, but for `order[i]` which may keep its lowest nonces. */
  ghost predicate Trimming(q0: Lists, q: Lists, order: seq<AddressByHeartbeat>, i: nat, drop: nat) {
    && i <= |order|
    && (forall j :: 0 <= j < i ==> ItemsOf(q, order[j].address) == ItemsOf(q0, order[j].address))
    && (forall j :: i < j < |order| ==> ItemsOf(q, order[j].address) == map[])
    && (i < |order| ==> var m, m0 := ItemsOf(q, order[i].address), ItemsOf(q0, order[i].address);
                        m == Capped(m0, |m|) && (drop > 0 ==> m == map[]))
    && (forall a :: (forall j :: 0 <= j < |order| ==> order[j].address != a) ==> ItemsOf(q, a) == ItemsOf(q0, a))
  }

  /** The outcome of the cut. */
  ghost predicate Trimmed(q0: Lists, q: Lists, locals: set<Address>, beats: map<Address, nat>) {
    && (forall a :: ItemsOf(q, a) == Capped(ItemsOf(q0, a), |ItemsOf(q, a)|))
    && (forall a :: a in locals ==> ItemsOf(q, a) == ItemsOf(q0, a))
    && (forall a, b :: a != b && a !in locals && b !in locals && CutAt(q0, q, a) && ItemsOf(q, b) != map[] ==>
          Beat(beats, b) <= Beat(beats, a) && (CutAt(q0, q, b) ==> ItemsOf(q, a) == map[]))
  }

  ghost predicate CutAt(q0: Lists, q: Lists, a: Address) {
    ItemsOf(q, a) != ItemsOf(q0, a)
  }

  /**
   Who pays for the queue limit: while a remote account keeps something queued, no other remote account with an
   earlier heartbeat, or none, loses anything.
   */
  ghost predicate LatestPayFirst(q0: Lists, q: Lists, locals: set<Address>, beats: map<Address, nat>) {
    forall a, b :: a !in locals && b !in locals && ItemsOf(q, a) != map[] && Before(beats, b, a) ==>
      ItemsOf(q, b) == ItemsOf(q0, b)
  }

  ghost predicate Before(beats: map<Address, nat>, b: Address, a: Address) {
    a in beats && (b in beats ==> beats[b] < beats[a])
  }

  lemma NobodyPays(q: Lists, locals: set<Address>, beats: map<Address, nat>)
    ensures LatestPayFirst(q, q, locals, beats)
  {
  }

  lemma TrimmedLatest(q0: Lists, q: Lists, locals: set<Address>, beats: map<Address, nat>)
    requires Trimmed(q0, q, locals, beats)
    ensures LatestPayFirst(q0, q, locals, beats)
  {
    hide Trimmed;
    forall a, b | a !in locals && b !in locals && ItemsOf(q, a) != map[] && Before(beats, b, a)
      ensures ItemsOf(q, b) == ItemsOf(q0, b)
    {
      TrimmedPair(q0, q, locals, beats, b, a);
    }
  }

  lemma TrimmedPair(q0: Lists, q: Lists, locals: set<Address>, beats: map<Address, nat>, a: Address, b: Address)
    requires Trimmed(q0, q, locals, beats) && a != b && a !in locals && b !in locals && ItemsOf(q, b) != map[]
    ensures ItemsOf(q, a) == ItemsOf(q0, a) || Beat(beats, b) <= Beat(beats, a)
  {
    hide Capped;
    if CutAt(q0, q, a) {
    }
  }

  lemma CappedSelf(m: Items)
    ensures Capped(m, |m|) == m && Capped(m, 0) == map[]
  {
  }

  /** `c` is the `k` lowest nonces of `m`. */
  ghost predicate IsCap(c: Items, m: Items, k: nat) {
    c == Capped(m, k)
  }

  lemma CapStart(m: Items)
    ensures IsCap(m, m, |m|)
  {
  }

  lemma CapDown(c: Items, m: Items, k: nat)
    requires IsCap(c, m, k) && 0 < k <= |m|
    ensures c != map[] && IsCap(c - {MaxKey(c)}, m, k - 1)
  {
    CapWithoutHighest(m, k);
  }

  lemma TrimmingStart(q: Lists, order: seq<AddressByHeartbeat>, drop: nat)
    ensures Trimming(q, q, order, |order|, drop)
  {
  }

  lemma OthersStay(q: Lists, q': Lists, a: Address)
    requires SameBut(q, q', a)
    ensures forall b :: b != a ==> ItemsOf(q', b) == ItemsOf(q, b)
  {
  }

  lemma AtOnePlace(order: seq<AddressByHeartbeat>, q0: Lists, locals: set<Address>, beats: map<Address, nat>, i: nat)
    requires ByHeartbeat(order, q0, locals, beats) && i < |order|
    ensures forall j :: 0 <= j < |order| && j != i ==> order[j].address != order[i].address
  {
  }

  lemma TrimmingStep(q0: Lists, q: Lists, q': Lists, locals: set<Address>, beats: map<Address, nat>,
                     order: seq<AddressByHeartbeat>, i: nat, drop: nat, drop': nat)
    requires ByHeartbeat(order, q0, locals, beats) && Trimming(q0, q, order, i, drop) && i > 0 && drop > 0
    requires SameBut(q, q', order[i - 1].address)
    requires var m := ItemsOf(q', order[i - 1].address);
             m == Capped(ItemsOf(q, order[i - 1].address), |m|) && (drop' > 0 ==> m == map[])
    ensures Trimming(q0, q', order, i - 1, drop')
  {
    hide Capped, ItemsOf, ByHeartbeat;
    var a := order[i - 1].address;
    OthersStay(q, q', a);
    AtOnePlace(order, q0, locals, beats, i - 1);
  }

  lemma TrimmingDone(q0: Lists, q: Lists, locals: set<Address>, beats: map<Address, nat>,
                     order: seq<AddressByHeartbeat>, i: nat, drop: nat)
    requires ByHeartbeat(order, q0, locals, beats) && Trimming(q0, q, order, i, drop)
    ensures Trimmed(q0, q, locals, beats)
  {
    hide Capped, Trimming, ByHeartbeat, CutAt, ItemsOf, Beat;
    forall a ensures ItemsOf(q, a) == Capped(ItemsOf(q0, a), |ItemsOf(q, a)|) {
      KeepsLowest(q0, q, order, i, drop, a);
    }
    forall a | a in locals ensures ItemsOf(q, a) == ItemsOf(q0, a) {
      LocalKept(q0, q, locals, beats, order, i, drop, a);
    }
    forall a, b | a != b && a !in locals && b !in locals && CutAt(q0, q, a) && ItemsOf(q, b) != map[]
      ensures Beat(beats, b) <= Beat(beats, a) && (CutAt(q0, q, b) ==> ItemsOf(q, a) == map[])
    {
      LaterPays(q0, q, locals, beats, order, i, drop, a, b);
    }
  }

  /** With something left to drop after the last account, no remote account has anything queued. */
  lemma NoRemoteLeft(q0: Lists, q: Lists, locals: set<Address>, beats: map<Address, nat>,
                     order: seq<AddressByHeartbeat>, drop: nat)
    requires ByHeartbeat(order, q0, locals, beats) && Trimming(q0, q, order, 0, drop) && drop > 0
    ensures forall a :: ItemsOf(q, a) != map[] ==> a in locals
  {
    hide Capped, Trimming, ByHeartbeat, ItemsOf;
    forall a | ItemsOf(q, a) != map[] ensures a in locals {
      if a !in locals {
        var k := Survivor(q0, q, locals, beats, order, 0, drop, a);
      }
    }
  }

  lemma KeepsLowest(q0: Lists, q: Lists, order: seq<AddressByHeartbeat>, i: nat, drop: nat, a: Address)
    requires Trimming(q0, q, order, i, drop)
    ensures ItemsOf(q, a) == Capped(ItemsOf(q0, a), |ItemsOf(q, a)|)
  {
  }

  lemma LocalKept(q0: Lists, q: Lists, locals: set<Address>, beats: map<Address, nat>,
                  order: seq<AddressByHeartbeat>, i: nat, drop: nat, a: Address)
    requires ByHeartbeat(order, q0, locals, beats) && Trimming(q0, q, order, i, drop) && a in locals
    ensures ItemsOf(q, a) == ItemsOf(q0, a)
  {
  }

  lemma LaterPays(q0: Lists, q: Lists, locals: set<Address>, beats: map<Address, nat>,
                  order: seq<AddressByHeartbeat>, i: nat, drop: nat, a: Address, b: Address)
    requires ByHeartbeat(order, q0, locals, beats) && Trimming(q0, q, order, i, drop)
    requires a != b && b !in locals && CutAt(q0, q, a) && ItemsOf(q, b) != map[]
    ensures Beat(beats, b) <= Beat(beats, a) && (CutAt(q0, q, b) ==> ItemsOf(q, a) == map[])
  {
  }

  lemma Survivor(q0: Lists, q: Lists, locals: set<Address>, beats: map<Address, nat>,
                 order: seq<AddressByHeartbeat>, i: nat, drop: nat, b: Address) returns (k: nat)
    requires ByHeartbeat(order, q0, locals, beats) && Trimming(q0, q, order, i, drop)
    requires b !in locals && ItemsOf(q, b) != map[]
    ensures k <= i && k < |order| && order[k].address == b && (drop > 0 ==> k < i)
  {
    hide Capped;
    k :| 0 <= k < |order| && order[k].address == b;
    assert !(i < k < |order|);
  }

  /** The total follows the one list that changes. */
  lemma TotalStep(q: Lists, q': Lists, a: Address)
    requires SameBut(q, q', a)
    ensures Total(Sizes(q')) + |ItemsOf(q, a)| == Total(Sizes(q)) + |ItemsOf(q', a)|
  {
    hide Total;
    TotalBut(q, a);
    TotalBut(q', a);
    assert Sizes(q) - {a} == Sizes(q') - {a};
  }

  lemma TotalBut(q: Lists, a: Address)
    ensures Total(Sizes(q)) == |ItemsOf(q, a)| + Total(Sizes(q) - {a})
  {
    hide Total;
    if a in q {
      TotalWithout(Sizes(q), a);
    } else {
      assert Sizes(q) - {a} == Sizes(q);
    }
  }

  /** Collect the remote accounts and sort them by heartbeat. */
  method Collect(q: Lists, locals: set<Address>, beats: map<Address, nat>) returns (order: seq<AddressByHeartbeat>)
    ensures ByHeartbeat(order, q, locals, beats)
  {
    var found: seq<AddressByHeartbeat>, rest := [], q.Keys;
    while rest != {}
      invariant rest <= q.Keys
      invariant forall i :: 0 <= i < |found| ==> Listed(found[i], q, locals, beats) && found[i].address !in rest
      invariant forall i, j :: 0 <= i < j < |found| ==> found[i].address != found[j].address
      invariant forall a :: a in q && a !in rest && a !in locals ==> AddressByHeartbeat(a, Beat(beats, a)) in found
      decreases |rest|
    {
      var a :| a in rest;
      if a !in locals {
        found := found + [AddressByHeartbeat(a, Beat(beats, a))];
      }
      rest := rest - {a};
    }
    EarlierOrder();
    order := Sort(found, Earlier);
    SortedListed(found, order, q, locals, beats);
  }

  ghost predicate Listed(x: AddressByHeartbeat, q: Lists, locals: set<Address>, beats: map<Address, nat>) {
    x.address in q && x.address !in locals && x.heartbeat == Beat(beats, x.address)
  }

  lemma SortedListed(found: seq<AddressByHeartbeat>, order: seq<AddressByHeartbeat>, q: Lists, locals: set<Address>,
                     beats: map<Address, nat>)
    requires forall i :: 0 <= i < |found| ==> Listed(found[i], q, locals, beats)
    requires forall i, j :: 0 <= i < j < |found| ==> found[i].address != found[j].address
    requires forall a :: a in q && a !in locals ==> AddressByHeartbeat(a, Beat(beats, a)) in found
    requires SortedBy(order, Earlier) && multiset(order) == multiset(found)
    ensures ByHeartbeat(order, q, locals, beats)
  {
    forall x ensures x in order <==> x in found {
      assert x in multiset(order) <==> x in multiset(found);
    }
    forall i | 0 <= i < |order| ensures Listed(order[i], q, locals, beats) {
      assert order[i] in found;
    }
    forall i, j | 0 <= i < j < |order|
      ensures order[i].address != order[j].address && order[i].heartbeat <= order[j].heartbeat
    {
      assert !Earlier(order[j], order[i]);
      if order[i].address == order[j].address {
        assert order[i] == order[j];
        TwiceInMultiset(order, i, j);
        Once(found, order[i]);
      }
    }
  }

  lemma {:induction false} Once(s: seq<AddressByHeartbeat>, x: AddressByHeartbeat)
    requires forall i, j :: 0 <= i < j < |s| ==> s[i].address != s[j].address
    ensures multiset(s)[x] <= 1
  {
    if s != [] {
      Once(s[1..], x);
      assert s == [s[0]] + s[1..];
      assert forall j :: 0 <= j < |s[1..]| ==> s[1..][j].address != s[0].address;
    }
  }

  /** Trimming a queue only removes from it. */
  lemma TrimmedKeeps(q0: Lists, q: Lists, locals: set<Address>, beats: map<Address, nat>, pn: map<Address, nat>,
                     state: ChainState, maxGas: nat)
    requires Trimmed(q0, q, locals, beats)
    ensures AllDone(q0, pn, state, {}) ==> AllDone(q, pn, state, {})
    ensures ListsPayable(q0, state, maxGas, {}) ==> ListsPayable(q, state, maxGas, {})
  {
  }
}
