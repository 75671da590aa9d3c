/** The three walks to a common ancestor: of block reorganisation, of the pool reset and of the light pool. */
module Forks {
  import opened Transactions
  import opened ChainTree

  /** core/blockchain.go, `reorg`: lower the higher head, then both. */
  method ReorgWalk(t: Tree, g: Hash, oldHead: Hash, newHead: Hash)
    returns (common: Hash, oldChain: seq<Hash>, newChain: seq<Hash>)
    requires WellFormed(t, g) && oldHead in t && newHead in t
    ensures Fork(t, g, oldHead, newHead, common, oldChain, newChain)
  {
    hide Path, Walking, Fork, WellFormed;
    oldChain, newChain := [], [];
    var a, b := oldHead, newHead;
    WalkStart(t, g, oldHead, newHead);
    if t[a].number > t[b].number {
      while t[a].number != t[b].number
        invariant Walking(t, g, oldHead, newHead, a, b, oldChain, newChain)
        invariant a in t && b in t && t[a].number >= t[b].number
        decreases t[a].number
      {
        WalkLeft(t, g, oldHead, newHead, a, b, oldChain, newChain);
        oldChain, a := oldChain + [a], t[a].parent;
      }
    } else {
      while t[b].number != t[a].number
        invariant Walking(t, g, oldHead, newHead, a, b, oldChain, newChain)
        invariant a in t && b in t && t[b].number >= t[a].number
        decreases t[b].number
      {
        WalkRight(t, g, oldHead, newHead, a, b, oldChain, newChain);
        newChain, b := newChain + [b], t[b].parent;
      }
    }
    while a != b
      invariant Walking(t, g, oldHead, newHead, a, b, oldChain, newChain)
      invariant a in t && b in t && t[a].number == t[b].number
      decreases t[a].number
    {
      WalkBoth(t, g, oldHead, newHead, a, b, oldChain, newChain);
      oldChain, newChain := oldChain + [a], newChain + [b];
      a, b := t[a].parent, t[b].parent;
    }
    WalkDone(t, g, oldHead, newHead, a, oldChain, newChain);
    common := a;
  }

  /** light/txpool.go, `reorgOnNewHead`: one loop that lowers whichever head is not the lower one. */
  method LightWalk(t: Tree, g: Hash, oldHead: Hash, newHead: Hash)
    returns (common: Hash, oldHashes: seq<Hash>, newHashes: seq<Hash>)
    requires WellFormed(t, g) && oldHead in t && newHead in t
    ensures Fork(t, g, oldHead, newHead, common, oldHashes, newHashes)
  {
    hide Path, Walking, Fork, WellFormed;
    oldHashes, newHashes := [], [];
    var a, b := oldHead, newHead;
    WalkStart(t, g, oldHead, newHead);
    while a != b
      invariant a in t && b in t && Walking(t, g, oldHead, newHead, a, b, oldHashes, newHashes)
      decreases t[a].number + t[b].number
    {
      if t[a].number == t[b].number {
        WalkBoth(t, g, oldHead, newHead, a, b, oldHashes, newHashes);
      } else if t[a].number > t[b].number {
        WalkLeft(t, g, oldHead, newHead, a, b, oldHashes, newHashes);
      } else {
        WalkRight(t, g, oldHead, newHead, a, b, oldHashes, newHashes);
      }
      if t[a].number >= t[b].number {
        oldHashes, a := oldHashes + [a], t[a].parent;
      }
      if t[a].number < t[b].number {
        newHashes, b := newHashes + [b], t[b].parent;
      }
    }
    WalkDone(t, g, oldHead, newHead, a, oldHashes, newHashes);
    common := a;
  }

  /** The transactions of the blocks `hs`, in order. */
  function TxsAlong(t: Tree, hs: seq<Hash>): seq<Tx>
    requires forall i :: 0 <= i < |hs| ==> hs[i] in t
  {
    if hs == [] then [] else TxsAlong(t, hs[..|hs| - 1]) + t[hs[|hs| - 1]].txs
  }

  lemma TxsAlongStep(t: Tree, hs: seq<Hash>, h: Hash)
    requires h in t && forall i :: 0 <= i < |hs| ==> hs[i] in t
    ensures TxsAlong(t, hs + [h]) == TxsAlong(t, hs) + t[h].txs
  {
  }

  /** The blocks of a branch belong to the tree. */
  ghost predicate Known(t: Tree, hs: seq<Hash>) {
    forall i :: 0 <= i < |hs| ==> hs[i] in t
  }

  /** core/tx_pool.go, `reset`: collect the transactions of both branches on the way. */
  method ResetWalk(t: Tree, g: Hash, oldHead: Hash, newHead: Hash)
    returns (discarded: seq<Tx>, included: seq<Tx>, ghost common: Hash, ghost xs: seq<Hash>, ghost ys: seq<Hash>)
    requires WellFormed(t, g) && oldHead in t && newHead in t
    ensures Fork(t, g, oldHead, newHead, common, xs, ys) && Known(t, xs) && Known(t, ys)
    ensures discarded == TxsAlong(t, xs) && included == TxsAlong(t, ys)
  {
    hide Path, Walking, Fork, WellFormed, TxsAlong;
    discarded, included, xs, ys := [], [], [], [];
    var rem, add := oldHead, newHead;
    WalkStart(t, g, oldHead, newHead);
    NoTxsAlong(t);
    while t[rem].number > t[add].number
      invariant Walking(t, g, oldHead, newHead, rem, add, xs, ys) && rem in t && add in t && ys == []
      invariant Known(t, xs) && discarded == TxsAlong(t, xs)
      decreases t[rem].number
    {
      WalkLeft(t, g, oldHead, newHead, rem, add, xs, ys);
      TxsAlongStep(t, xs, rem);
      discarded, xs, rem := discarded + t[rem].txs, xs + [rem], t[rem].parent;
    }
    while t[add].number > t[rem].number
      invariant Walking(t, g, oldHead, newHead, rem, add, xs, ys) && rem in t && add in t
      invariant t[rem].number <= t[add].number
      invariant Known(t, xs) && Known(t, ys) && discarded == TxsAlong(t, xs) && included == TxsAlong(t, ys)
      decreases t[add].number
    {
      WalkRight(t, g, oldHead, newHead, rem, add, xs, ys);
      TxsAlongStep(t, ys, add);
      included, ys, add := included + t[add].txs, ys + [add], t[add].parent;
    }
    while rem != add
      invariant Walking(t, g, oldHead, newHead, rem, add, xs, ys) && rem in t && add in t
      invariant t[rem].number == t[add].number
      invariant Known(t, xs) && Known(t, ys) && discarded == TxsAlong(t, xs) && included == TxsAlong(t, ys)
      decreases t[rem].number
    {
      WalkBoth(t, g, oldHead, newHead, rem, add, xs, ys);
      TxsAlongStep(t, xs, rem);
      TxsAlongStep(t, ys, add);
      discarded, xs, rem := discarded + t[rem].txs, xs + [rem], t[rem].parent;
      included, ys, add := included + t[add].txs, ys + [add], t[add].parent;
    }
    WalkDone(t, g, oldHead, newHead, rem, xs, ys);
    common := rem;
  }

  lemma NoTxsAlong(t: Tree)
    ensures TxsAlong(t, []) == []
  {
  }

  /** What `TxDifference` keeps: the transactions of `a` that are not in `b`, in order. */
  function Difference(a: seq<Tx>, b: seq<Tx>): (r: seq<Tx>)
    ensures forall tx :: tx in r <==> tx in a && tx !in b
  {
    if a == [] then []
    else
      var r := Difference(a[..|a| - 1], b);
      assert a == a[..|a| - 1] + [a[|a| - 1]];
      if a[|a| - 1] in b then r else r + [a[|a| - 1]]
  }

  /** core/types/transaction.go, `TxDifference`. */
  method TxDifference(a: seq<Tx>, b: seq<Tx>) returns (keep: seq<Tx>)
    ensures keep == Difference(a, b)
  {
    var remove := {};
    for i := 0 to |b|
      invariant forall tx :: tx in remove <==> tx in b[..i]
    {
      assert b[..i + 1] == b[..i] + [b[i]];
      remove := remove + {b[i]};
    }
    assert b[..|b|] == b;
    keep := [];
    for i := 0 to |a|
      invariant keep == Difference(a[..i], b)
    {
      assert a[..i + 1][..i] == a[..i];
      if a[i] !in remove {
        keep := keep + [a[i]];
      }
    }
    assert a[..|a|] == a;
  }

  /** Reorganisations deeper than this reinject nothing. */
  predicate Deep(x: nat, y: nat) {
    (if x < y then y - x else x - y) > 64
  }

  /** What the abandoned branch holds and the adopted one does not, in order; nothing after a deep change. */
  ghost predicate Abandoned(t: Tree, g: Hash, oldHead: Hash, newHead: Hash, reinject: seq<Tx>)
    requires WellFormed(t, g) && oldHead in t && newHead in t
  {
    if oldHead == t[newHead].parent || Deep(t[oldHead].number, t[newHead].number) then reinject == []
    else exists common, xs, ys ::
        && Fork(t, g, oldHead, newHead, common, xs, ys) && Known(t, xs) && Known(t, ys)
        && reinject == Difference(TxsAlong(t, xs), TxsAlong(t, ys))
  }

  /** Some block on the path of `x` and not on that of `y` holds `tx`. */
  ghost predicate OnlyOn(t: Tree, g: Hash, x: Hash, y: Hash, tx: Tx)
    requires WellFormed(t, g) && x in t && y in t
  {
    exists h :: h in t && h in Path(t, g, x) && h !in Path(t, g, y) && tx in t[h].txs
  }

  /**
   The pool's reinjection, by the heights of the heads: up to 64 blocks apart, exactly what blocks of the old path
   hold that are not on the new one, and no block of the new path that is not on the old one; else nothing.
   */
  method Reinjected(t: Tree, g: Hash, oldHead: Hash, newHead: Hash) returns (reinject: seq<Tx>)
    requires WellFormed(t, g) && oldHead in t && newHead in t
    ensures Abandoned(t, g, oldHead, newHead, reinject)
    ensures oldHead in Path(t, g, newHead) ==> reinject == []
    ensures
      var x, y := t[oldHead].number, t[newHead].number;
      if oldHead == t[newHead].parent || x > y + 64 || y > x + 64 then reinject == []
      else forall tx :: tx in reinject <==> OnlyOn(t, g, oldHead, newHead, tx) && !OnlyOn(t, g, newHead, oldHead, tx)
  {
    hide Path, Fork, WellFormed, TxsAlong, OnlyOn;
    if oldHead == t[newHead].parent || Deep(t[oldHead].number, t[newHead].number) {
      return [];
    }
    ghost var common, xs, ys;
    var discarded, included;
    discarded, included, common, xs, ys := ResetWalk(t, g, oldHead, newHead);
    reinject := TxDifference(discarded, included);
    AbandonedMeans(t, g, oldHead, newHead, reinject);
    if oldHead in Path(t, g, newHead) {
      NothingAbandoned(t, g, oldHead, newHead, common, xs, ys);
      NoTxsAlong(t);
    }
  }

  /** What is abandoned, said of blocks and heights. */
  lemma AbandonedMeans(t: Tree, g: Hash, oldHead: Hash, newHead: Hash, reinject: seq<Tx>)
    requires WellFormed(t, g) && oldHead in t && newHead in t && Abandoned(t, g, oldHead, newHead, reinject)
    ensures
      var x, y := t[oldHead].number, t[newHead].number;
      if oldHead == t[newHead].parent || x > y + 64 || y > x + 64 then reinject == []
      else forall tx :: tx in reinject <==> OnlyOn(t, g, oldHead, newHead, tx) && !OnlyOn(t, g, newHead, oldHead, tx)
  {
    hide Path, Fork, WellFormed, TxsAlong, OnlyOn;
    if oldHead != t[newHead].parent && !Deep(t[oldHead].number, t[newHead].number) {
      var c, xs, ys :| Fork(t, g, oldHead, newHead, c, xs, ys) && Known(t, xs) && Known(t, ys)
                       && reinject == Difference(TxsAlong(t, xs), TxsAlong(t, ys));
      ForkSame(t, g, oldHead, newHead, c, xs, ys);
      forall tx ensures tx in reinject <==>
                        OnlyOn(t, g, oldHead, newHead, tx) && !OnlyOn(t, g, newHead, oldHead, tx) {
        BranchHolds(t, g, oldHead, newHead, c, xs, ys, tx);
        BranchHolds(t, g, newHead, oldHead, c, ys, xs, tx);
      }
    }
  }

  /** A fork seen from the other side. */
  lemma ForkSame(t: Tree, g: Hash, x: Hash, y: Hash, c: Hash, xs: seq<Hash>, ys: seq<Hash>)
    requires WellFormed(t, g) && x in t && y in t && Fork(t, g, x, y, c, xs, ys)
    ensures Fork(t, g, y, x, c, ys, xs)
  {
    hide Path, WellFormed;
    var k := ForkAt(t, g, x, y, c, xs, ys);
    assert Common(Path(t, g, y), Path(t, g, x), k);
  }

  /** The transactions of a branch are those of the blocks on one path only. */
  lemma BranchHolds(t: Tree, g: Hash, x: Hash, y: Hash, c: Hash, xs: seq<Hash>, ys: seq<Hash>, tx: Tx)
    requires WellFormed(t, g) && x in t && y in t && Fork(t, g, x, y, c, xs, ys) && Known(t, xs)
    ensures tx in TxsAlong(t, xs) <==> OnlyOn(t, g, x, y, tx)
  {
    hide Path, Fork, WellFormed, TxsAlong;
    if tx in TxsAlong(t, xs) {
      var i := BlockWith(t, xs, tx);
      BranchBlock(t, g, x, y, c, xs, ys, xs[i]);
    }
    if OnlyOn(t, g, x, y, tx) {
      var h :| h in t && h in Path(t, g, x) && h !in Path(t, g, y) && tx in t[h].txs;
      BranchBlock(t, g, x, y, c, xs, ys, h);
      var i :| 0 <= i < |xs| && xs[i] == h;
      TxsOfBlock(t, xs, i, tx);
    }
  }

  /** The blocks of a branch are those on one path only. */
  lemma BranchBlock(t: Tree, g: Hash, x: Hash, y: Hash, c: Hash, xs: seq<Hash>, ys: seq<Hash>, h: Hash)
    requires WellFormed(t, g) && x in t && y in t && Fork(t, g, x, y, c, xs, ys)
    ensures h in xs <==> h in Path(t, g, x) && h !in Path(t, g, y)
  {
    hide Path, Fork, WellFormed, Down;
    var k := ForkAt(t, g, x, y, c, xs, ys);
    var p, q := Path(t, g, x), Path(t, g, y);
    if h in p {
      var i :| 0 <= i < |p| && p[i] == h;
      PathIn(t, g, x, i);
      if h in q {
        var j :| 0 <= j < |q| && q[j] == h;
        PathIn(t, g, y, j);
        MeetBelow(t, g, x, y, i);
        assert i < k;
      } else if i >= k {
        assert xs[|p| - 1 - i] == h;
      }
      if h in xs {
        var m :| 0 <= m < |xs| && xs[m] == h;
        PathIn(t, g, x, |p| - 1 - m);
      }
    }
  }

  lemma {:induction false} TxsOfBlock(t: Tree, hs: seq<Hash>, i: nat, tx: Tx)
    requires Known(t, hs) && i < |hs| && tx in t[hs[i]].txs
    ensures tx in TxsAlong(t, hs)
  {
    if i < |hs| - 1 {
      TxsOfBlock(t, hs[..|hs| - 1], i, tx);
    }
  }

  lemma {:induction false} BlockWith(t: Tree, hs: seq<Hash>, tx: Tx) returns (i: nat)
    requires Known(t, hs) && tx in TxsAlong(t, hs)
    ensures i < |hs| && tx in t[hs[i]].txs
  {
    i := |hs| - 1;
    if tx !in t[hs[i]].txs {
      i := BlockWith(t, hs[..i], tx);
    }
  }

  /** Below a descendant there is nothing to abandon. */
  lemma NothingAbandoned(t: Tree, g: Hash, x: Hash, y: Hash, c: Hash, xs: seq<Hash>, ys: seq<Hash>)
    requires WellFormed(t, g) && x in t && y in t && Fork(t, g, x, y, c, xs, ys) && x in Path(t, g, y)
    ensures xs == []
  {
    hide Path, Fork, WellFormed;
    var j :| 0 <= j < |Path(t, g, y)| && Path(t, g, y)[j] == x;
    ForkIsLowest(t, g, x, y, c, xs, ys, t[x].number, j);
    var k := ForkAt(t, g, x, y, c, xs, ys);
    PathIn(t, g, x, k - 1);
  }

  /** What is abandoned is determined by the two heads. */
  lemma AbandonedUnique(t: Tree, g: Hash, oldHead: Hash, newHead: Hash, a: seq<Tx>, b: seq<Tx>)
    requires WellFormed(t, g) && oldHead in t && newHead in t
    requires Abandoned(t, g, oldHead, newHead, a) && Abandoned(t, g, oldHead, newHead, b)
    ensures a == b
  {
    hide Path, Fork, WellFormed, TxsAlong, Difference;
    if oldHead != t[newHead].parent && !Deep(t[oldHead].number, t[newHead].number) {
      var c, xs, ys :| Fork(t, g, oldHead, newHead, c, xs, ys) && Known(t, xs) && Known(t, ys)
                       && a == Difference(TxsAlong(t, xs), TxsAlong(t, ys));
      var d, us, vs :| Fork(t, g, oldHead, newHead, d, us, vs) && Known(t, us) && Known(t, vs)
                       && b == Difference(TxsAlong(t, us), TxsAlong(t, vs));
      ForkUnique(t, g, oldHead, newHead, c, xs, ys, d, us, vs);
    }
  }

  /** The new head descends from the old one: nothing is abandoned. */
  lemma NoneAbandoned(t: Tree, g: Hash, oldHead: Hash, newHead: Hash)
    requires WellFormed(t, g) && oldHead in t && newHead in t && oldHead in Path(t, g, newHead)
    ensures Abandoned(t, g, oldHead, newHead, [])
  {
    hide Path, WellFormed, TxsAlong;
    var p, q, k := Path(t, g, oldHead), Path(t, g, newHead), t[oldHead].number + 1;
    var j :| 0 <= j < |q| && q[j] == oldHead;
    PathIn(t, g, newHead, j);
    PathPrefix(t, g, newHead, j);
    assert p == q[..k];
    var ys := Down(q, k);
    assert Fork(t, g, oldHead, newHead, oldHead, [], ys) by {
      assert Common(p, q, k) && Down(p, k) == [];
    }
    forall i | 0 <= i < |ys| ensures ys[i] in t {
      PathIn(t, g, newHead, |q| - 1 - i);
    }
    NoTxsAlong(t);
    assert Difference([], TxsAlong(t, ys)) == [];
  }
}
