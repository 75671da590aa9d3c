/** core/blockchain.go: which block becomes the head, and the indices a reorganisation rewrites. */
module BlockChains {
  import opened Transactions
  import opened ChainTree
  import opened HeaderChains
  import opened TxLookup
  import Forks

  /** `canon` is `was` with heights `k` to `m` taken from the path. */
  ghost predicate Rewritten(q: seq<Hash>, k: nat, m: nat, was: map<nat, Hash>, canon: map<nat, Hash>)
    requires m <= |q|
  {
    && (forall i :: k <= i < m ==> i in canon && canon[i] == q[i])
    && (forall i :: i < k || m <= i ==> (i in canon <==> i in was) && (i in canon ==> canon[i] == was[i]))
  }

  lemma RewrittenCovers(p: seq<Hash>, q: seq<Hash>, k: nat, was: map<nat, Hash>, canon: map<nat, Hash>)
    requires Common(p, q, k) && Covers(was, p) && Rewritten(q, k, |q|, was, canon)
    ensures Covers(canon, q) && forall i :: i >= |q| ==> (i in canon <==> i in was)
  {
  }

  /** Whether numbers above the head are left assigned: exactly when the new head is lower. */
  lemma StaleNumbers(p: seq<Hash>, q: seq<Hash>, was: map<nat, Hash>, canon: map<nat, Hash>)
    requires IndexOf(was, p) && Covers(canon, q) && forall i :: i >= |q| ==> (i in canon <==> i in was)
    ensures IndexOf(canon, q) <==> |q| >= |p|
  {
    if |q| < |p| {
      assert |q| in was;
    }
  }

  lemma PathKnown(t: Tree, g: Hash, h: Hash)
    requires WellFormed(t, g) && h in t
    ensures Forks.Known(t, Path(t, g, h))
  {
    hide Path;
    forall i | 0 <= i <= t[h].number ensures Path(t, g, h)[i] in t {
      PathIn(t, g, h, i);
    }
  }

  lemma MovedOver(t: Tree, g: Hash, x: Hash, y: Hash, k: nat, was: Lookup, lookup: Lookup, added: seq<Tx>,
                  diff: seq<Tx>)
    requires WellFormed(t, g) && x in t && y in t && Common(Path(t, g, x), Path(t, g, y), k)
    requires Unrepeated(t, Path(t, g, y))
    requires Scanned(t, Path(t, g, x), was) && Wrote(t, Path(t, g, y), k, |Path(t, g, y)|, was, lookup, added)
    requires Forks.Known(t, Down(Path(t, g, x), k))
    requires diff == Forks.Difference(Forks.TxsAlong(t, Down(Path(t, g, x), k)), added)
    ensures Scanned(t, Path(t, g, y), lookup - (set tx | tx in diff))
  {
    hide Path, Down, Scanned, Wrote, Unrepeated;
    var p, q := Path(t, g, x), Path(t, g, y);
    PathKnown(t, g, x);
    BranchTxs(t, p, k);
    assert p[..k] == q[..k];
    Moved(t, p, q, k, was, lookup, added, Forks.TxsAlong(t, Down(p, k)), lookup - (set tx | tx in diff));
  }

  /** The scan of a path extended by one block, and the same block entered once more. */
  lemma EnteredLast(t: Tree, g: Hash, h: Hash, was: Lookup, lookup: Lookup)
    requires WellFormed(t, g) && h in t && t[h].number > 0 && Unrepeated(t, Path(t, g, h))
    requires t[h].parent in t && (Scanned(t, Path(t, g, t[h].parent), was) || Scanned(t, Path(t, g, h), was))
    requires Entered(t[h], h, was, lookup)
    ensures Scanned(t, Path(t, g, h), lookup)
  {
    hide Scanned, Wrote, Unrepeated, Entered;
    var q, m := Path(t, g, h), t[h].number;
    var x := if Scanned(t, q, was) then h else t[h].parent;
    var p := Path(t, g, x);
    PathKnown(t, g, x);
    ParentOf(t, g, h);
    assert q == Path(t, g, t[h].parent) + [h];
    assert p[..m] == q[..m];
    WroteNone(t, q, m, was);
    WroteStep(t, q, m, m, was, was, [], lookup);
    BranchTxs(t, p, m);
    LastTxs(t, p, q, m, h);
    Moved(t, p, q, m, was, lookup, [] + t[h].txs, Forks.TxsAlong(t, Down(p, m)), lookup);
  }

  lemma LastTxs(t: Tree, p: seq<Hash>, q: seq<Hash>, m: nat, h: Hash)
    requires |q| == m + 1 && q[m] == h && h in t && Forks.Known(t, p) && m <= |p| && (p == q || |p| == m)
    ensures Forks.Known(t, Down(p, m)) && forall tx :: tx in Forks.TxsAlong(t, Down(p, m)) ==> tx in t[h].txs
  {
  }

  class BlockChain {
    const genesis: Hash
    var blocks: Tree
    var tds: map<Hash, nat>
    var canon: map<nat, Hash>
    var lookup: Lookup
    var current: Hash

    ghost predicate Valid()
      reads this
    {
      && WellFormed(blocks, genesis) && Stored(blocks, genesis, tds) && Heaviest(tds, current)
      && current in blocks && Covers(canon, Path(blocks, genesis, current))
      && Scanned(blocks, Path(blocks, genesis, current), lookup)
    }

    constructor (genesis: Hash, block: Block)
      requires block.number == 0 && block.txs == []
      ensures Valid() && this.genesis == genesis && blocks == map[genesis := block] && current == genesis
      ensures IndexOf(canon, Path(blocks, genesis, current))
    {
      this.genesis := genesis;
      blocks, tds := map[genesis := block], map[genesis := block.difficulty];
      canon, current := map[0 := genesis], genesis;
      lookup := map[];
    }

    /** `insert`: put the block into the number index and make it the head. */
    method Insert(h: Hash)
      requires h in blocks
      modifies this`canon, this`current
      ensures canon == old(canon)[blocks[h].number := h] && current == h
    {
      canon, current := canon[blocks[h].number := h], h;
    }

    /** `reorg`: adopt the branch of `newHead`, then drop the lookup entries only the old branch had. */
    method Reorg(oldHead: Hash, newHead: Hash)
      requires WellFormed(blocks, genesis) && oldHead in blocks && newHead in blocks
      requires Covers(canon, Path(blocks, genesis, oldHead)) && Scanned(blocks, Path(blocks, genesis, oldHead), lookup)
      requires Unrepeated(blocks, Path(blocks, genesis, newHead))
      modifies this`canon, this`current, this`lookup
      ensures Covers(canon, Path(blocks, genesis, newHead)) && Scanned(blocks, Path(blocks, genesis, newHead), lookup)
      ensures forall i :: i > blocks[newHead].number ==> (i in canon <==> i in old(canon))
    {
      hide Path, WellFormed, Down, Scanned, Wrote, Unrepeated, Entered, Fork, Covers, Rewritten, Common;
      ghost var p, q := Path(blocks, genesis, oldHead), Path(blocks, genesis, newHead);
      var common, oldChain, newChain := Forks.ReorgWalk(blocks, genesis, oldHead, newHead);
      ghost var k := ForkAt(blocks, genesis, oldHead, newHead, common, oldChain, newChain);
      PathKnown(blocks, genesis, oldHead);
      BranchTxs(blocks, p, k);
      var deleted := Forks.TxsAlong(blocks, oldChain);
      var added: seq<Tx> := [];
      var i := |newChain|;
      ForkSizes(p, q, k);
      WroteNone(blocks, q, k, lookup);
      RewrittenNone(q, k, canon);
      while i > 0
        invariant 0 <= i <= |newChain|
        invariant Wrote(blocks, q, k, |q| - i, old(lookup), lookup, added)
        invariant Rewritten(q, k, |q| - i, old(canon), canon)
      {
        i := i - 1;
        ghost var m := |q| - 1 - i;
        PathIn(blocks, genesis, newHead, m);
        RewrittenStep(q, k, m, old(canon), canon);
        Insert(newChain[i]);
        var entries := WriteTxLookupEntries(lookup, newChain[i], blocks[newChain[i]]);
        WroteStep(blocks, q, k, m, old(lookup), lookup, added, entries);
        lookup, added := entries, added + blocks[newChain[i]].txs;
      }
      var diff := Forks.TxDifference(deleted, added);
      MovedOver(blocks, genesis, oldHead, newHead, k, old(lookup), lookup, added, diff);
      lookup := lookup - (set tx | tx in diff);
      RewrittenCovers(p, q, k, old(canon), canon);
    }

    /**
     `writeBlockWithState`: store the block, and make it the head if its chain is heavier, or as
     heavy and shorter, or as heavy and long and preferred by `shouldPreserve` or the coin.
     */
    method WriteBlock(hash: Hash, block: Block, currentPreserve: bool, blockPreserve: bool, coin: bool)
      returns (status: Status)
      requires Valid()
      requires block.parent in blocks ==> block.number == blocks[block.parent].number + 1
      requires hash in blocks ==> blocks[hash] == block
      requires block.parent in blocks ==> Fresh(blocks, genesis, hash, block)
      modifies this`blocks, this`tds, this`canon, this`current, this`lookup
      ensures Valid()
      ensures status == NonStat <==> block.parent !in old(blocks)
      ensures status == NonStat ==> blocks == old(blocks) && current == old(current)
      ensures status != NonStat ==> blocks == old(blocks)[hash := block]
      ensures status == Canon ==> current == hash
      ensures status == Side ==> current == old(current) && canon == old(canon) && lookup == old(lookup)
      ensures status != NonStat ==>
                var extern, local := old(tds)[block.parent] + block.difficulty, old(tds)[old(current)];
                var height := old(blocks)[old(current)].number;
                && (extern > local ==> status == Canon) && (extern < local ==> status == Side)
                && (extern == local && block.number < height ==> status == Canon)
                && (extern == local && block.number > height ==> status == Side)
                && (extern == local && block.number == height ==>
                      (status == Canon <==> !currentPreserve && (blockPreserve || coin)))
      ensures old(IndexOf(canon, Path(blocks, genesis, current))) ==>
                (IndexOf(canon, Path(blocks, genesis, current)) <==>
                 status != Canon || block.number >= old(blocks[current].number))
    {
      hide Path, WellFormed, TotalDifficulty, Stored, Covers, Scanned, Unrepeated, Entered, IndexOf;
      ghost var p := Path(blocks, genesis, current);
      StoredKeys(blocks, genesis, tds);
      if block.parent !in tds {
        return NonStat;
      }
      var localTd, externTd := tds[current], block.difficulty + tds[block.parent];
      StoreOne(blocks, genesis, tds, hash, block);
      ScanGrows(blocks, blocks[hash := block], p, lookup, genesis, current);
      tds, blocks := tds[hash := externTd], blocks[hash := block];
      var reorg := externTd > localTd;
      if !reorg && externTd == localTd {
        if block.number < blocks[current].number {
          reorg := true;
        } else if block.number == blocks[current].number {
          reorg := !currentPreserve && (blockPreserve || coin);
        }
      }
      if reorg {
        ParentIs(blocks, genesis, hash);
        if block.parent != current {
          Reorg(current, hash);
        }
        var entries := WriteTxLookupEntries(lookup, hash, block);
        EnteredLast(blocks, genesis, hash, lookup, entries);
        CoversLast(blocks, genesis, hash, canon);
        lookup := entries;
        Insert(hash);
        status := Canon;
        if old(IndexOf(canon, p)) {
          StaleNumbers(p, Path(blocks, genesis, hash), old(canon), canon);
        }
      } else {
        status := Side;
      }
    }

    /** Any run of writes, of blocks in any order; `world` says which block each hash stands for. */
    method WriteAll(hashes: seq<Hash>, prefs: seq<(bool, bool, bool)>, world: Tree)
      requires Valid() && |prefs| == |hashes|
      requires WellFormed(world, genesis) && world[genesis].parent !in world
      requires forall h :: h in world ==> Unrepeated(world, Path(world, genesis, h))
      requires forall h :: h in blocks ==> h in world && world[h] == blocks[h]
      requires forall h :: h in hashes ==> h in world
      modifies this`blocks, this`tds, this`canon, this`current, this`lookup
      ensures Valid()
      ensures forall h :: h in blocks ==> h in world && blocks[h] == world[h] && (h in old(blocks) || h in hashes)
      ensures forall i :: 0 <= i < |hashes| && world[hashes[i]].parent in old(blocks) ==> hashes[i] in blocks
      ensures forall h :: h in old(blocks) ==> h in blocks
    {
      hide Valid, Path, WellFormed, Unrepeated, Fresh, IndexOf;
      for i := 0 to |hashes|
        invariant Valid()
        invariant forall h :: h in blocks ==> h in world && blocks[h] == world[h] && (h in old(blocks) || h in hashes)
        invariant forall j :: 0 <= j < i && world[hashes[j]].parent in old(blocks) ==> hashes[j] in blocks
        invariant forall h :: h in old(blocks) ==> h in blocks
      {
        var h := hashes[i];
        Basic();
        if world[h].parent in blocks {
          FreshIn(blocks, world, genesis, h);
        }
        var _ := WriteBlock(h, world[h], prefs[i].0, prefs[i].1, prefs[i].2);
      }
    }

    /** The invariant in plain terms: sums, heaviest head, linked numbers, and a lookup of just the canonical blocks. */
    lemma Plain()
      requires Valid()
      ensures tds.Keys == blocks.Keys && tds[genesis] == blocks[genesis].difficulty
      ensures forall h :: h in blocks && h != genesis ==>
                blocks[h].parent in blocks && tds[h] == tds[blocks[h].parent] + blocks[h].difficulty
      ensures current in blocks && forall h :: h in blocks ==> tds[h] <= tds[current]
      ensures
        var n := blocks[current].number;
        && (forall i :: 0 <= i <= n ==> i in canon && canon[i] in blocks && blocks[canon[i]].number == i)
        && canon[0] == genesis && canon[n] == current
        && (forall i :: 0 < i <= n ==> blocks[canon[i]].parent == canon[i - 1])
        && (forall tx :: tx in lookup ==>
              var l := lookup[tx];
              l.number <= n && canon[l.number] == l.block && l.index < |blocks[l.block].txs|
              && blocks[l.block].txs[l.index] == tx)
        && (forall i, tx :: 0 <= i <= n && tx in blocks[canon[i]].txs ==> tx in lookup && lookup[tx].number == i)
    {
      hide Path, TotalDifficulty, WellFormed;
      PlainChain(blocks, genesis, tds, current, canon);
      var p := Path(blocks, genesis, current);
      forall i, tx | 0 <= i < |p| && tx in blocks[canon[i]].txs ensures tx in lookup && lookup[tx].number == i {
        var j :| 0 <= j < |blocks[p[i]].txs| && blocks[p[i]].txs[j] == tx;
        assert At(blocks, p, i, j, tx);
      }
    }

    lemma Basic()
      requires Valid()
      ensures WellFormed(blocks, genesis)
    {
    }
  }

  lemma FreshIn(t: Tree, world: Tree, g: Hash, h: Hash)
    requires WellFormed(t, g) && WellFormed(world, g) && h in world && world[h].parent in t && h != g
    requires forall x :: x in t ==> x in world && world[x] == t[x]
    requires Unrepeated(world, Path(world, g, h))
    ensures world[h].number == t[world[h].parent].number + 1 && Fresh(t, g, h, world[h])
  {
    hide Path;
    assert Linked(world, h);
    var t' := t[h := world[h]];
    Grown(t, g, h, world[h]);
    PathGrows(t', world, g, h);
    var p := Path(t', g, h);
    forall i, j, k, l, tx | At(t', p, i, j, tx) && At(t', p, k, l, tx) ensures i == k && j == l {
      assert At(world, p, i, j, tx) && At(world, p, k, l, tx);
    }
  }

  /** No transaction repeats on the path of a new block. */
  ghost predicate Fresh(t: Tree, g: Hash, h: Hash, b: Block)
    requires WellFormed(t, g) && b.parent in t && b.number == t[b.parent].number + 1 && (h in t ==> t[h] == b)
  {
    Grown(t, g, h, b);
    Unrepeated(t[h := b], Path(t[h := b], g, h))
  }

  lemma ScanGrows(t: Tree, t': Tree, p: seq<Hash>, lookup: Lookup, g: Hash, h: Hash)
    requires WellFormed(t, g) && h in t && p == Path(t, g, h) && Scanned(t, p, lookup)
    requires forall x :: x in t ==> x in t' && t'[x] == t[x]
    ensures Scanned(t', p, lookup)
  {
    PathKnown(t, g, h);
    forall i, j, tx ensures At(t', p, i, j, tx) <==> At(t, p, i, j, tx) {
    }
  }

  lemma ParentIs(t: Tree, g: Hash, h: Hash)
    requires WellFormed(t, g) && h in t && t[h].number > 0
    ensures t[h].parent in t && Path(t, g, h) == Path(t, g, t[h].parent) + [h]
  {
    ParentOf(t, g, h);
  }

  lemma CoversLast(t: Tree, g: Hash, h: Hash, canon: map<nat, Hash>)
    requires WellFormed(t, g) && h in t && t[h].number > 0 && t[h].parent in t
    requires Covers(canon, Path(t, g, t[h].parent)) || Covers(canon, Path(t, g, h))
    ensures Covers(canon[t[h].number := h], Path(t, g, h))
  {
  }

  lemma RewrittenStep(q: seq<Hash>, k: nat, m: nat, was: map<nat, Hash>, canon: map<nat, Hash>)
    requires k <= m < |q| && Rewritten(q, k, m, was, canon)
    ensures Rewritten(q, k, m + 1, was, canon[m := q[m]])
  {
  }

  lemma ForkSizes(p: seq<Hash>, q: seq<Hash>, k: nat)
    requires Common(p, q, k)
    ensures k <= |p| && k <= |q|
  {
  }

  lemma RewrittenNone(q: seq<Hash>, k: nat, was: map<nat, Hash>)
    requires k <= |q|
    ensures Rewritten(q, k, k, was, was)
  {
  }
}
