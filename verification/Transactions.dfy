/**
 Transactions as the pool sees them, and the nonce-indexed collections of one account.
 Hashes are collision free, so a transaction stands for its own hash.
 */
module Transactions {

  type Address = nat

  /** `cost` is value plus gas limit times gas price. */
  datatype Tx = Tx(hash: nat, sender: Address, nonce: nat, price: nat, gas: nat, cost: nat)

  datatype Option<+T> = None | Some(value: T)

  /** The `items` of a txSortedMap. */
  type Items = map<nat, Tx>

  /** Every transaction is filed under its own nonce. */
  ghost predicate Filed(m: Items) {
    forall n :: n in m ==> m[n].nonce == n
  }

  ghost predicate Submap(sub: Items, m: Items) {
    forall n :: n in sub ==> n in m && sub[n] == m[n]
  }

  /** Every nonce of `lo` is below every nonce of `hi`. */
  ghost predicate Below(lo: Items, hi: Items) {
    forall a, b :: a in lo && b in hi ==> a < b
  }

  lemma SizeWithout(m: Items, n: nat)
    requires n in m
    ensures |m - {n}| == |m| - 1
  {
  }

  // ----- the least and the greatest nonce -----

  lemma {:induction false} Least(s: set<nat>) returns (k: nat)
    requires s != {}
    ensures k in s && forall n :: n in s ==> k <= n
  {
    k :| k in s;
    var rest := s - {k};
    assert forall n :: n in s ==> n == k || n in rest;
    if rest != {} {
      var y := Least(rest);
      k := if k < y then k else y;
    }
  }

  lemma HasMin(s: set<nat>)
    requires s != {}
    ensures exists k :: k in s && forall n :: n in s ==> k <= n
  {
    var k := Least(s);
  }

  lemma {:induction false} Greatest(s: set<nat>) returns (k: nat)
    requires s != {}
    ensures k in s && forall n :: n in s ==> n <= k
  {
    k :| k in s;
    var rest := s - {k};
    assert forall n :: n in s ==> n == k || n in rest;
    if rest != {} {
      var y := Greatest(rest);
      k := if k < y then y else k;
    }
  }

  lemma HasMax(s: set<nat>)
    requires s != {}
    ensures exists k :: k in s && forall n :: n in s ==> n <= k
  {
    var k := Greatest(s);
  }

  function MinKey(m: Items): (k: nat)
    requires m != map[]
    ensures k in m && forall n :: n in m ==> k <= n
  {
    HasMin(m.Keys);
    var k :| k in m.Keys && forall n :: n in m.Keys ==> k <= n;
    k
  }

  function MaxKey(m: Items): (k: nat)
    requires m != map[]
    ensures k in m && forall n :: n in m ==> n <= k
  {
    HasMax(m.Keys);
    var k :| k in m.Keys && forall n :: n in m.Keys ==> n <= k;
    k
  }

  // ----- listing a collection in nonce order -----

  /** `s` is the contents of `m` in increasing nonce order. */
  ghost predicate IsListing(s: seq<Tx>, m: Items) {
    && (forall i :: 0 <= i < |s| ==> s[i].nonce in m && m[s[i].nonce] == s[i])
    && (forall i, j :: 0 <= i < j < |s| ==> s[i].nonce < s[j].nonce)
    && (forall n :: n in m ==> m[n] in s)
  }

  lemma {:induction false} ListingUnique(s: seq<Tx>, t: seq<Tx>, m: Items)
    requires Filed(m) && IsListing(s, m) && IsListing(t, m)
    ensures s == t
    decreases |s|
  {
    if s == [] {
      ListingLength(s, m);
      ListingLength(t, m);
    } else {
      ListingHead(s, m);
      assert m[s[0].nonce] in t;
      ListingHead(t, m);
      var m' := m - {s[0].nonce};
      ListingTail(s, m);
      ListingTail(t, m);
      ListingUnique(s[1..], t[1..], m');
      assert s == [s[0]] + s[1..] && t == [t[0]] + t[1..];
    }
  }

  lemma ListingHead(s: seq<Tx>, m: Items)
    requires Filed(m) && IsListing(s, m) && s != []
    ensures forall n :: n in m ==> s[0].nonce <= n
  {
  }

  lemma ListingTail(s: seq<Tx>, m: Items)
    requires Filed(m) && IsListing(s, m) && s != []
    ensures IsListing(s[1..], m - {s[0].nonce})
  {
  }

  /** Concatenating the listings of a lower and an upper part lists the whole. */
  lemma ListingConcat(s: seq<Tx>, lo: Items, t: seq<Tx>, hi: Items, m: Items)
    requires IsListing(s, lo) && IsListing(t, hi) && Below(lo, hi)
    requires Submap(lo, m) && Submap(hi, m) && m.Keys == lo.Keys + hi.Keys
    ensures IsListing(s + t, m)
  {
  }

  /** The two ends of a listing list the two parts of a split. */
  lemma ListingSplit(s: seq<Tx>, m: Items, lo: Items, hi: Items, k: nat)
    requires Filed(m) && IsListing(s, m) && Below(lo, hi) && k <= |s|
    requires Submap(lo, m) && Submap(hi, m) && m.Keys == lo.Keys + hi.Keys
    requires k == |lo|
    ensures IsListing(s[..k], lo) && IsListing(s[k..], hi)
  {
    ListingExists(lo);
    var a :| IsListing(a, lo);
    ListingExists(hi);
    var b :| IsListing(b, hi);
    ListingConcat(a, lo, b, hi, m);
    ListingUnique(s, a + b, m);
    ListingLength(a, lo);
    assert s[..k] == a && s[k..] == b;
  }

  lemma {:induction false} ListingExists(m: Items)
    requires Filed(m)
    ensures exists s :: IsListing(s, m)
    decreases |m|
  {
    if m == map[] {
      assert IsListing([], m);
    } else {
      var k := MinKey(m);
      var m' := m - {k};
      SizeWithout(m, k);
      ListingExists(m');
      var s :| IsListing(s, m');
      var one := map[k := m[k]];
      assert IsListing([m[k]], one);
      ListingConcat([m[k]], one, s, m', m);
    }
  }

  lemma {:induction false} ListingLength(s: seq<Tx>, m: Items)
    requires Filed(m) && IsListing(s, m)
    ensures |s| == |m|
    decreases |s|
  {
    if s == [] {
      assert m == map[];
    } else {
      ListingTail(s, m);
      ListingLength(s[1..], m - {s[0].nonce});
      SizeWithout(m, s[0].nonce);
    }
  }
}
