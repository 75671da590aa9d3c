/** light/txpool.go: which local transactions are pending and which are mined, across head changes. */
module LightPool {
  import opened Sequences
  import opened Transactions
  import opened ChainTree
  import Forks

  /** `txStateChanges`: true for recently mined, false for recently rolled back. */
  type Changes = map<Tx, bool>

  /** `setState`. */
  function SetState(txc: Changes, tx: Tx, mined: bool): Changes {
    if tx in txc && txc[tx] != mined then txc - {tx} else txc[tx := mined]
  }

  /** The changes are the net difference between two pending sets. */
  ghost predicate Net(txc: Changes, was: set<Tx>, now: set<Tx>) {
    forall tx ::
      && (tx in txc && txc[tx] <==> tx in was && tx !in now)
      && (tx in txc && !txc[tx] <==> tx !in was && tx in now)
  }

  lemma NetMined(txc: Changes, was: set<Tx>, now: set<Tx>, tx: Tx)
    requires Net(txc, was, now) && tx in now
    ensures Net(SetState(txc, tx, true), was, now - {tx})
  {
  }

  lemma NetRolledBack(txc: Changes, was: set<Tx>, now: set<Tx>, tx: Tx)
    requires Net(txc, was, now) && tx !in now
    ensures Net(SetState(txc, tx, false), was, now + {tx})
  {
  }

  /** Pending and mined are disjoint, and a transaction is mined in one block only. */
  ghost predicate Apart(pending: set<Tx>, mined: map<Hash, seq<Tx>>) {
    && (forall h :: h in mined ==> Distinct(mined[h]))
    && (forall h, tx :: h in mined && tx in mined[h] ==> tx !in pending)
    && (forall h, k, tx :: h in mined && k in mined && tx in mined[h] && tx in mined[k] ==> h == k)
  }

  /** Mined transactions are only remembered for blocks on the path. */
  ghost predicate OnPath(mined: map<Hash, seq<Tx>>, p: seq<Hash>) {
    forall h :: h in mined ==> h in p
  }

  /** What is remembered as mined in a block is in it. */
  ghost predicate Truthful(mined: map<Hash, seq<Tx>>, t: Tree) {
    forall h :: h in mined ==> h in t && forall tx :: tx in mined[h] ==> tx in t[h].txs
  }

  ghost predicate Mined(mined: map<Hash, seq<Tx>>, tx: Tx) {
    exists h :: h in mined && tx in mined[h]
  }

  ghost predicate InPool(pending: set<Tx>, mined: map<Hash, seq<Tx>>, tx: Tx) {
    tx in pending || Mined(mined, tx)
  }

  /** No transaction is lost or made up. */
  ghost predicate Same(pending: set<Tx>, mined: map<Hash, seq<Tx>>, pending': set<Tx>, mined': map<Hash, seq<Tx>>) {
    forall tx :: InPool(pending, mined, tx) <==> InPool(pending', mined', tx)
  }

  const TX_PERMANENT: nat := 500

  /** `list` holds exactly the pending transactions of a block, each once. */
  ghost predicate Local(list: seq<Tx>, txs: seq<Tx>, pending: set<Tx>) {
    Distinct(list) && forall tx :: tx in list <==> tx in txs && tx in pending
  }

  datatype AddError = Known | Invalid

  /** Which blocks and receipts can be retrieved on demand. */
  datatype Odr = Odr(block: Hash -> bool, receipts: Hash -> bool)

  /** The block after `head` on the path, or its receipts, cannot be retrieved. */
  ghost predicate Blocked(t: Tree, q: seq<Hash>, head: Hash, odr: Odr) {
    && head in t && t[head].number + 1 < |q| && q[t[head].number] == head
    && var next := q[t[head].number + 1]; !odr.block(next) || !odr.receipts(next)
  }

  /** What the pool lock serialises: `valid` is the verdict of `validateTx`, `t` the headers known by then. */
  datatype Op =
    | OpAdd(tx: Tx, valid: bool)
    | OpHead(t: Tree, newHead: Hash, canon: map<nat, Hash>, odr: Odr)

  /** The headers known after `n` operations. */
  function TreeAfter(t: Tree, ops: seq<Op>, n: nat): Tree
    requires n <= |ops|
  {
    if n == 0 then t else if ops[n - 1].OpHead? then ops[n - 1].t else TreeAfter(t, ops, n - 1)
  }

  ghost predicate Grows(t: Tree, t': Tree) {
    forall x :: x in t ==> x in t' && t'[x] == t[x]
  }

  /** A new head is known, with a number index that lists blocks under their number; headers are never forgotten. */
  ghost predicate HeadKnown(t: Tree, g: Hash, op: Op) {
    op.OpHead? ==>
      && WellFormed(op.t, g) && Grows(t, op.t) && op.newHead in op.t && Numbered(op.t, op.canon)
      && forall h :: h in op.t ==> Distinct(op.t[h].txs)
  }

  /** `tx` was taken in by one of the first `n` operations. */
  ghost predicate Taken(ops: seq<Op>, n: nat, tx: Tx) {
    exists i :: 0 <= i < n <= |ops| && ops[i] == OpAdd(tx, true)
  }

  /** `tx` was far below the head at one of the first `n` operations. */
  ghost predicate EverBuried(ops: seq<Op>, n: nat, tx: Tx) {
    exists i :: 0 <= i < n <= |ops| && ops[i].OpHead? && Buried(ops[i].t, ops[i].newHead, tx)
  }

  /** The pool holds what it held and what it has taken in, but for what is buried. */
  ghost predicate Accounted(p0: set<Tx>, m0: map<Hash, seq<Tx>>, ops: seq<Op>, n: nat, p: set<Tx>,
                            m: map<Hash, seq<Tx>>) {
    && (forall tx :: InPool(p, m, tx) ==> InPool(p0, m0, tx) || Taken(ops, n, tx))
    && (forall tx :: (InPool(p0, m0, tx) || Taken(ops, n, tx)) && !InPool(p, m, tx) ==> EverBuried(ops, n, tx))
  }

  class TxPool {
    var pending: set<Tx>
    var mined: map<Hash, seq<Tx>>
    var head: Hash
    var clearIdx: nat

    ghost predicate Valid(t: Tree, g: Hash)
      reads this
    {
      && WellFormed(t, g) && head in t && Apart(pending, mined) && OnPath(mined, Path(t, g, head)) && Truthful(mined, t)
    }

    constructor (t: Tree, g: Hash, head: Hash)
      requires WellFormed(t, g) && head in t
      ensures Valid(t, g) && pending == {} && mined == map[] && this.head == head && clearIdx == t[head].number
    {
      pending, mined, this.head, clearIdx := {}, map[], head, t[head].number;
    }

    /**
     `add`. Only pending transactions are known to it: one remembered as mined is taken in again if the state that
     validates it does not include its block, and then it is in the pool twice.
     */
    method Add(tx: Tx, valid: bool, ghost t: Tree, ghost g: Hash) returns (err: Option<AddError>)
      requires Valid(t, g)
      modifies this`pending
      ensures err == if tx in old(pending) then Some(Known) else if !valid then Some(Invalid) else None
      ensures pending == if err.None? then old(pending) + {tx} else old(pending)
      ensures Valid(t, g) <==> err.Some? || !Mined(mined, tx)
    {
      if tx in pending {
        return Some(Known);
      }
      if !valid {
        return Some(Invalid);
      }
      pending := pending + {tx};
      err := None;
    }

    /** `rollbackTxs`. */
    method RollbackTxs(h: Hash, was: Changes, ghost before: set<Tx>) returns (txc: Changes)
      requires Apart(pending, mined) && Net(was, before, pending)
      modifies this`pending, this`mined
      ensures Apart(pending, mined) && Net(txc, before, pending) && mined == old(mined) - {h}
      ensures Same(old(pending), old(mined), pending, mined)
    {
      txc := was;
      if h in mined {
        var list := mined[h];
        for i := 0 to |list|
          invariant mined == old(mined) && Net(txc, before, pending)
          invariant forall tx :: tx in pending <==> tx in old(pending) || tx in list[..i]
        {
          assert list[..i + 1] == list[..i] + [list[i]] && list[i] in list;
          NetRolledBack(txc, before, pending, list[i]);
          pending, txc := pending + {list[i]}, SetState(txc, list[i], false);
        }
        assert list[..|list|] == list;
        mined := mined - {h};
        SameRolledBack(old(pending), old(mined), pending, h);
      }
    }

    /** `checkMinedTxs`: nothing changes unless the block and its receipts can be retrieved. */
    method CheckMinedTxs(h: Hash, txs: seq<Tx>, retrieved: bool, received: bool, was: Changes, ghost before: set<Tx>)
      returns (txc: Changes, ok: bool)
      requires Apart(pending, mined) && Net(was, before, pending) && h !in mined && Distinct(txs)
      modifies this`pending, this`mined
      ensures Apart(pending, mined) && Net(txc, before, pending)
      ensures ok <==> old(pending) == {} || (retrieved && (received || forall tx :: tx in txs ==> tx !in old(pending)))
      ensures !ok ==> pending == old(pending) && mined == old(mined) && txc == was
      ensures ok ==> exists list :: Local(list, txs, old(pending)) && mined == Remembered(old(mined), h, list)
      ensures ok ==> forall tx :: tx in pending <==> tx in old(pending) && tx !in txs
      ensures Same(old(pending), old(mined), pending, mined)
    {
      txc := was;
      if pending == {} {
        assert Local([], txs, pending);
        return txc, true;
      }
      if !retrieved {
        return txc, false;
      }
      var list: seq<Tx> := [];
      for i := 0 to |txs|
        invariant Local(list, txs[..i], pending)
      {
        assert txs[..i + 1] == txs[..i] + [txs[i]];
        if txs[i] in pending {
          list := list + [txs[i]];
        }
      }
      assert txs[..|txs|] == txs;
      if list != [] {
        assert list[0] in list;
        if !received {
          return txc, false;
        }
        txc := Confirm(h, list, txc, before);
      }
      ok := true;
    }

    /** The pending transactions in `list` turn out to be mined in block `h`. */
    method Confirm(h: Hash, list: seq<Tx>, was: Changes, ghost before: set<Tx>) returns (txc: Changes)
      requires Apart(pending, mined) && Net(was, before, pending) && h !in mined
      requires Distinct(list) && forall tx :: tx in list ==> tx in pending
      modifies this`pending, this`mined
      ensures Apart(pending, mined) && Net(txc, before, pending) && mined == old(mined)[h := list]
      ensures forall tx :: tx in pending <==> tx in old(pending) && tx !in list
      ensures Same(old(pending), old(mined), pending, mined)
    {
      txc := was;
      for i := 0 to |list|
        invariant mined == old(mined) && Net(txc, before, pending)
        invariant forall tx :: tx in pending <==> tx in old(pending) && tx !in list[..i]
      {
        assert list[..i + 1] == list[..i] + [list[i]] && list[i] in list;
        NetMined(txc, before, pending, list[i]);
        pending, txc := pending - {list[i]}, SetState(txc, list[i], true);
      }
      assert list[..|list|] == list;
      mined := mined[h := list];
      SameMined(old(pending), old(mined), pending, h, list);
    }

    method RollbackAll(hashes: seq<Hash>, ghost p: seq<Hash>, ghost k: nat) returns (txc: Changes)
      requires Apart(pending, mined) && OnPath(mined, p) && k <= |p| && hashes == Down(p, k)
      modifies this`pending, this`mined
      ensures Apart(pending, mined) && Net(txc, old(pending), pending) && OnPath(mined, p[..k])
      ensures Within(mined, old(mined)) && Same(old(pending), old(mined), pending, mined)
    {
      hide Net, Apart, OnPath, Same, InPool;
      SameSelf(pending, mined);
      txc := map[];
      NetNone(pending);
      assert p[..|p|] == p;
      for i := 0 to |hashes|
        invariant Apart(pending, mined) && Net(txc, old(pending), pending) && OnPath(mined, p[..|p| - i])
        invariant Within(mined, old(mined)) && Same(old(pending), old(mined), pending, mined)
      {
        OnShorter(mined, p, |p| - i);
        ghost var pending0, mined0 := pending, mined;
        txc := RollbackTxs(hashes[i], txc, old(pending));
        SameTrans(old(pending), old(mined), pending0, mined0, pending, mined);
      }
    }

    /** Check the blocks from height `k` of the new path upwards, as far as they can be retrieved. */
    method CheckAll(t: Tree, g: Hash, newHead: Hash, hashes: seq<Hash>, odr: Odr, ghost k: nat, was: Changes,
                    ghost before: set<Tx>)
      returns (txc: Changes, ok: bool)
      requires WellFormed(t, g) && newHead in t && forall h :: h in t ==> Distinct(t[h].txs)
      requires 0 < k <= |Path(t, g, newHead)| && hashes == Down(Path(t, g, newHead), k)
      requires head == Path(t, g, newHead)[k - 1]
      requires Apart(pending, mined) && Net(was, before, pending) && OnPath(mined, Path(t, g, newHead)[..k])
      requires Truthful(mined, t)
      modifies this`pending, this`mined, this`head
      ensures Valid(t, g) && Net(txc, before, pending) && head in Path(t, g, newHead) && (ok ==> head == newHead)
      ensures !ok ==> Blocked(t, Path(t, g, newHead), head, odr)
      ensures forall h :: h in mined ==> h in old(mined) || (h in t && t[h].number >= k)
      ensures Same(old(pending), old(mined), pending, mined)
      ensures ok ==> NonePending(t, Path(t, g, newHead), k, t[newHead].number + 1, pending)
    {
      hide Path, WellFormed, Net, Apart, OnPath, Down, Truthful, Same, InPool, NonePending;
      SameSelf(pending, mined);
      NoneYet(t, Path(t, g, newHead), k, pending);
      ghost var q := Path(t, g, newHead);
      txc := was;
      var i := |hashes|;
      while i > 0
        invariant 0 <= i <= |hashes| && head == q[|q| - i - 1] && OnPath(mined, q[..|q| - i])
        invariant Apart(pending, mined) && Net(txc, before, pending)
        invariant forall h :: h in mined ==> h in old(mined) || (h in t && t[h].number >= k)
        invariant Truthful(mined, t) && Same(old(pending), old(mined), pending, mined)
        invariant NonePending(t, q, k, |q| - i, pending)
      {
        i := i - 1;
        ghost var m := |q| - 1 - i;
        OnLonger(t, g, newHead, mined, m);
        var h := hashes[i];
        assert h == q[m];
        ghost var pending0, mined0 := pending, mined;
        txc, ok := CheckMinedTxs(h, t[h].txs, odr.block(h), odr.receipts(h), txc, before);
        SameTrans(old(pending), old(mined), pending0, mined0, pending, mined);
        if !ok {
          AtHeight(t, g, newHead, m - 1);
          PathIn(t, g, newHead, m - 1);
          return;
        }
        TruthfulMore(t, mined0, h, pending0, mined);
        OneMore(t, q, k, m, pending0, pending);
        head := h;
      }
      AtHeight(t, g, newHead, |q| - 1);
      ok := true;
    }

    /** Forget what was mined in canonical blocks from `clearIdx` to `end`. */
    method Clear(end: nat, canon: map<nat, Hash>)
      requires Apart(pending, mined)
      modifies this`mined
      ensures Apart(pending, mined) && Within(mined, old(mined))
      ensures forall i :: clearIdx <= i < end && i in canon ==> canon[i] !in mined
      ensures forall h :: h in old(mined) && h !in mined ==>
                exists i :: clearIdx <= i < end && i in canon && canon[i] == h
    {
      var i := clearIdx;
      while i < end
        invariant Within(mined, old(mined)) && clearIdx <= i && (i <= end || i == clearIdx)
        invariant forall j :: clearIdx <= j < i && j in canon ==> canon[j] !in mined
        invariant forall h :: h in old(mined) && h !in mined ==>
                  exists j :: clearIdx <= j < i && j in canon && canon[j] == h
      {
        if i in canon && canon[i] in mined {
          mined := mined - {canon[i]};
        }
        i := i + 1;
      }
    }

    /**
     `reorgOnNewHead`: roll back to the common ancestor, then check the new branch upwards. When a
     block cannot be retrieved the pool stays at the last block checked, with the changes so far.
     */
    method ReorgOnNewHead(t: Tree, g: Hash, newHead: Hash, canon: map<nat, Hash>, odr: Odr)
      returns (txc: Changes, ok: bool)
      requires Valid(t, g) && newHead in t && Numbered(t, canon) && forall h :: h in t ==> Distinct(t[h].txs)
      modifies this
      ensures Valid(t, g) && Net(txc, old(pending), pending)
      ensures head in Path(t, g, newHead) && (ok ==> head == newHead)
      ensures !ok ==> Blocked(t, Path(t, g, newHead), head, odr)
      ensures ok ==> forall h, tx ::
                h in Path(t, g, newHead) && h !in old(Path(t, g, head)) && h in t && tx in t[h].txs ==> tx !in pending
      ensures forall tx :: InPool(pending, mined, tx) ==> InPool(old(pending), old(mined), tx)
      ensures forall tx :: InPool(old(pending), old(mined), tx) && !InPool(pending, mined, tx) ==>
                Buried(t, newHead, tx)
      ensures old(Recent(t, mined, clearIdx)) && Covers(canon, Path(t, g, newHead)) ==> Recent(t, mined, clearIdx)
      ensures ok && old(Recent(t, mined, clearIdx)) && Covers(canon, Path(t, g, newHead)) ==>
                forall h :: h in mined ==> h in t && t[h].number + 500 >= t[newHead].number
      ensures forall tx :: InPool(old(pending), old(mined), tx) && !InPool(pending, mined, tx) ==>
                exists h :: h in t && t[h].number + 500 < t[newHead].number && tx in t[h].txs
    {
      hide Path, WellFormed, Net, Apart, OnPath, Fork, Down, Recent, Covers, Within, Truthful, Same, InPool,
        NonePending, Buried, Numbered;
      ghost var x := head;
      BuriedMeans(t, newHead);
      var common, oldHashes, newHashes := Forks.LightWalk(t, g, head, newHead);
      ghost var k := ForkAt(t, g, x, newHead, common, oldHashes, newHashes);
      PathIn(t, g, x, k - 1);
      if t[common].number < clearIdx {
        clearIdx := t[common].number;
      }
      txc := RollbackAll(oldHashes, Path(t, g, x), k);
      head := common;
      TruthfulWithin(t, mined, old(mined));
      WithinKeys(mined, old(mined));
      ghost var pending0, mined0 := pending, mined;
      CommonPrefix(t, g, x, newHead, k);
      txc, ok := CheckAll(t, g, newHead, newHashes, odr, k, txc, old(pending));
      RecentMore(t, old(mined), mined, old(clearIdx), clearIdx, k);
      SameTrans(old(pending), old(mined), pending0, mined0, pending, mined);
      SamePool(old(pending), old(mined), pending, mined);
      if !ok {
        return;
      }
      BranchChecked(t, g, x, newHead, k, pending);
      if t[newHead].number > clearIdx + TX_PERMANENT {
        var end := t[newHead].number - TX_PERMANENT;
        ghost var was := mined;
        if mined != map[] {
          Clear(end, canon);
        } else {
          Itself(mined);
        }
        OnPathWithin(mined, was, Path(t, g, newHead));
        TruthfulWithin(t, mined, was);
        LostOnlyOld(t, g, newHead, canon, pending, was, mined, clearIdx, end);
        Cleared(t, g, newHead, canon, mined, was, clearIdx, end);
        clearIdx := end;
      }
      RecentMeans(t, mined, clearIdx);
    }

    /**
     Any run of additions and head changes, up to the first addition of a transaction remembered as mined: the
     invariant holds at the end of the runs without one, and is broken right after it in the others.
     */
    method Run(t: Tree, g: Hash, ops: seq<Op>) returns (done: nat, sound: bool)
      requires Valid(t, g) && forall i :: 0 <= i < |ops| ==> HeadKnown(TreeAfter(t, ops, i), g, ops[i])
      modifies this
      ensures done <= |ops| && (sound ==> done == |ops|)
      ensures sound <==> Valid(TreeAfter(t, ops, done), g)
      ensures !sound ==>
                0 < done && ops[done - 1].OpAdd? && ops[done - 1].tx in pending && Mined(mined, ops[done - 1].tx)
      ensures Accounted(old(pending), old(mined), ops, done, pending, mined)
    {
      hide Valid, Accounted, InPool, HeadKnown;
      done, sound := 0, true;
      AccountedNone(pending, mined, ops);
      while sound && done < |ops|
        invariant done <= |ops| && (sound <==> Valid(TreeAfter(t, ops, done), g))
        invariant !sound ==>
                  0 < done && ops[done - 1].OpAdd? && ops[done - 1].tx in pending && Mined(mined, ops[done - 1].tx)
        invariant Accounted(old(pending), old(mined), ops, done, pending, mined)
        decreases if sound then |ops| - done + 1 else 0
      {
        ghost var p, m := pending, mined;
        var op := ops[done];
        done := done + 1;
        if op.OpAdd? {
          var err := Add(op.tx, op.valid, TreeAfter(t, ops, done - 1), g);
          sound := err.Some? || forall h :: h in mined ==> op.tx !in mined[h];
          AccountedAdd(old(pending), old(mined), ops, done, p, pending, mined);
        } else {
          HeadGrows(TreeAfter(t, ops, done - 1), g, op);
          var txc, ok := ReorgOnNewHead(op.t, g, op.newHead, op.canon, op.odr);
          AccountedHead(old(pending), old(mined), ops, done, p, m, pending, mined);
        }
      }
    }

    lemma HeadGrows(t: Tree, g: Hash, op: Op)
      requires Valid(t, g) && op.OpHead? && HeadKnown(t, g, op)
      ensures Valid(op.t, g) && op.newHead in op.t && Numbered(op.t, op.canon)
      ensures forall h :: h in op.t ==> Distinct(op.t[h].txs)
    {
      ValidGrows(this, t, op.t, g);
    }
  }

  lemma AccountedNone(p: set<Tx>, m: map<Hash, seq<Tx>>, ops: seq<Op>)
    ensures Accounted(p, m, ops, 0, p, m)
  {
    hide InPool;
  }

  lemma TakenMore(ops: seq<Op>, n: nat, tx: Tx)
    requires 0 < n <= |ops|
    ensures Taken(ops, n, tx) <==> Taken(ops, n - 1, tx) || ops[n - 1] == OpAdd(tx, true)
    ensures EverBuried(ops, n - 1, tx) ==> EverBuried(ops, n, tx)
  {
  }

  lemma AccountedAdd(p0: set<Tx>, m0: map<Hash, seq<Tx>>, ops: seq<Op>, n: nat, p: set<Tx>, p': set<Tx>,
                     m: map<Hash, seq<Tx>>)
    requires 0 < n <= |ops| && ops[n - 1].OpAdd? && Accounted(p0, m0, ops, n - 1, p, m)
    requires p' == if ops[n - 1].valid then p + {ops[n - 1].tx} else p
    ensures Accounted(p0, m0, ops, n, p', m)
  {
    hide Mined, Taken, EverBuried;
    forall tx ensures (Taken(ops, n, tx) <==> Taken(ops, n - 1, tx) || ops[n - 1] == OpAdd(tx, true)) &&
                      (EverBuried(ops, n - 1, tx) ==> EverBuried(ops, n, tx)) {
      TakenMore(ops, n, tx);
    }
  }

  lemma AccountedHead(p0: set<Tx>, m0: map<Hash, seq<Tx>>, ops: seq<Op>, n: nat, p: set<Tx>, m: map<Hash, seq<Tx>>,
                      p': set<Tx>, m': map<Hash, seq<Tx>>)
    requires 0 < n <= |ops| && ops[n - 1].OpHead? && Accounted(p0, m0, ops, n - 1, p, m)
    requires forall tx :: InPool(p', m', tx) ==> InPool(p, m, tx)
    requires forall tx :: InPool(p, m, tx) && !InPool(p', m', tx) ==> Buried(ops[n - 1].t, ops[n - 1].newHead, tx)
    ensures Accounted(p0, m0, ops, n, p', m')
  {
    hide InPool, Taken, Buried;
    forall tx ensures (Taken(ops, n, tx) <==> Taken(ops, n - 1, tx)) &&
                      (EverBuried(ops, n - 1, tx) ==> EverBuried(ops, n, tx)) {
      TakenMore(ops, n, tx);
    }
  }

  /**
   A transaction is added, mined in the first block, and added again while the state that validates it is still
   that of the genesis: it ends up both pending and mined.
   */
  method MinedAndPending() returns (pending: bool, mined: bool)
    ensures pending && mined
  {
    hide Path, WellFormed, Apart, OnPath, Truthful, Net, Recent, Covers;
    var tx := Tx(1, 1, 0, 1, 1, 1);
    var t: Tree := map[0 := Block(0, 0, 1, []), 1 := Block(0, 1, 1, [tx])];
    OneBlock(t, tx);
    var pool := new TxPool(t, 0, 0);
    var err := pool.Add(tx, true, t, 0);
    assert InPool(pool.pending, pool.mined, tx);
    var txc, ok := pool.ReorgOnNewHead(t, 0, 1, map[0 := 0, 1 := 1], Odr(_ => true, _ => true));
    err := pool.Add(tx, true, t, 0);
    pending, mined := tx in pool.pending, exists h :: h in pool.mined && tx in pool.mined[h];
  }

  lemma OneBlock(t: Tree, tx: Tx)
    requires t == map[0 := Block(0, 0, 1, []), 1 := Block(0, 1, 1, [tx])]
    ensures WellFormed(t, 0) && Path(t, 0, 0) == [0] && Path(t, 0, 1) == [0, 1]
    ensures Numbered(t, map[0 := 0, 1 := 1]) && !Buried(t, 1, tx)
    ensures forall h :: h in t ==> Distinct(t[h].txs)
  {
    assert Linked(t, 1);
    assert Path(t, 0, 1) == Path(t, 0, 0) + [1];
  }

  /** What is known of a pool stays true when more headers arrive. */
  lemma ValidGrows(pool: TxPool, t: Tree, t': Tree, g: Hash)
    requires pool.Valid(t, g) && WellFormed(t', g) && Grows(t, t')
    ensures pool.Valid(t', g)
  {
    hide Path, WellFormed;
    PathGrows(t, t', g, pool.head);
  }

  /** No remembered block lies below `idx`. */
  ghost predicate Recent(t: Tree, mined: map<Hash, seq<Tx>>, idx: nat) {
    forall h :: h in mined ==> h in t && t[h].number >= idx
  }

  lemma RecentMeans(t: Tree, mined: map<Hash, seq<Tx>>, idx: nat)
    ensures Recent(t, mined, idx) ==> forall h :: h in mined ==> h in t && t[h].number >= idx
  {
  }

  lemma BuriedMeans(t: Tree, head: Hash)
    requires head in t
    ensures forall tx :: Buried(t, head, tx) ==>
              exists h :: h in t && t[h].number + 500 < t[head].number && tx in t[h].txs
  {
  }

  /** The canonical index lists blocks under their own number. */
  ghost predicate Numbered(t: Tree, canon: map<nat, Hash>) {
    forall i :: i in canon && canon[i] in t ==> t[canon[i]].number == i
  }

  ghost predicate Within(mined: map<Hash, seq<Tx>>, was: map<Hash, seq<Tx>>) {
    forall h :: h in mined ==> h in was && mined[h] == was[h]
  }

  /** No transaction of blocks `k` to `m` of the path is pending. */
  ghost predicate NonePending(t: Tree, q: seq<Hash>, k: nat, m: nat, pending: set<Tx>) {
    forall i, tx :: k <= i < m && i < |q| && q[i] in t && tx in t[q[i]].txs ==> tx !in pending
  }

  /** The transaction is in a block so far below the head that it is permanent. */
  ghost predicate Buried(t: Tree, head: Hash, tx: Tx) {
    exists h :: h in t && head in t && t[h].number + TX_PERMANENT < t[head].number && tx in t[h].txs
  }

  lemma SameSelf(pending: set<Tx>, mined: map<Hash, seq<Tx>>)
    ensures Same(pending, mined, pending, mined)
  {
  }

  lemma SameTrans(p0: set<Tx>, m0: map<Hash, seq<Tx>>, p1: set<Tx>, m1: map<Hash, seq<Tx>>, p2: set<Tx>,
                  m2: map<Hash, seq<Tx>>)
    requires Same(p0, m0, p1, m1) && Same(p1, m1, p2, m2)
    ensures Same(p0, m0, p2, m2)
  {
  }

  lemma SamePool(p0: set<Tx>, m0: map<Hash, seq<Tx>>, p1: set<Tx>, m1: map<Hash, seq<Tx>>)
    requires Same(p0, m0, p1, m1)
    ensures forall tx :: InPool(p0, m0, tx) <==> InPool(p1, m1, tx)
  {
  }

  lemma SameRolledBack(p0: set<Tx>, m0: map<Hash, seq<Tx>>, p1: set<Tx>, h: Hash)
    requires h in m0 && forall tx :: tx in p1 <==> tx in p0 || tx in m0[h]
    ensures Same(p0, m0, p1, m0 - {h})
  {
    forall tx | InPool(p0, m0, tx) ensures InPool(p1, m0 - {h}, tx) {
      if tx !in p1 {
        var k :| k in m0 && tx in m0[k];
        assert k in m0 - {h} && tx in (m0 - {h})[k];
      }
    }
  }

  lemma SameMined(p0: set<Tx>, m0: map<Hash, seq<Tx>>, p1: set<Tx>, h: Hash, list: seq<Tx>)
    requires h !in m0 && forall tx :: tx in p0 <==> tx in p1 || (tx in list && tx in p0)
    requires forall tx :: tx in list ==> tx in p0
    ensures Same(p0, m0, p1, m0[h := list])
  {
    var m1 := m0[h := list];
    forall tx | InPool(p0, m0, tx) ensures InPool(p1, m1, tx) {
      if tx in list {
        assert tx in m1[h];
      } else if tx !in p1 {
        var k :| k in m0 && tx in m0[k];
        assert tx in m1[k];
      }
    }
  }

  lemma TruthfulMore(t: Tree, was: map<Hash, seq<Tx>>, h: Hash, pending: set<Tx>, mined: map<Hash, seq<Tx>>)
    requires Truthful(was, t) && h in t
    requires exists list :: Local(list, t[h].txs, pending) && mined == Remembered(was, h, list)
    ensures Truthful(mined, t)
  {
  }

  lemma TruthfulWithin(t: Tree, mined: map<Hash, seq<Tx>>, was: map<Hash, seq<Tx>>)
    requires Truthful(was, t) && Within(mined, was)
    ensures Truthful(mined, t)
  {
  }

  lemma WithinKeys(mined: map<Hash, seq<Tx>>, was: map<Hash, seq<Tx>>)
    requires Within(mined, was)
    ensures forall h :: h in mined ==> h in was
  {
  }

  lemma NoneYet(t: Tree, q: seq<Hash>, k: nat, pending: set<Tx>)
    ensures NonePending(t, q, k, k, pending)
  {
  }

  lemma OneMore(t: Tree, q: seq<Hash>, k: nat, m: nat, was: set<Tx>, pending: set<Tx>)
    requires NonePending(t, q, k, m, was) && m < |q| && q[m] in t
    requires forall tx :: tx in pending <==> tx in was && tx !in t[q[m]].txs
    ensures NonePending(t, q, k, m + 1, pending)
  {
  }

  lemma BranchChecked(t: Tree, g: Hash, x: Hash, y: Hash, k: nat, pending: set<Tx>)
    requires WellFormed(t, g) && x in t && y in t && Common(Path(t, g, x), Path(t, g, y), k)
    requires NonePending(t, Path(t, g, y), k, t[y].number + 1, pending)
    ensures forall h, tx :: h in Path(t, g, y) && h !in Path(t, g, x) && h in t && tx in t[h].txs ==> tx !in pending
  {
  }

  lemma LostOnlyOld(t: Tree, g: Hash, y: Hash, canon: map<nat, Hash>, pending: set<Tx>, was: map<Hash, seq<Tx>>,
                    mined: map<Hash, seq<Tx>>, idx: nat, end: nat)
    requires WellFormed(t, g) && y in t && t[y].number > TX_PERMANENT && end == t[y].number - TX_PERMANENT
    requires Truthful(was, t) && Within(mined, was) && Numbered(t, canon)
    requires forall h :: h in was && h !in mined ==> exists i :: idx <= i < end && i in canon && canon[i] == h
    ensures forall tx :: InPool(pending, mined, tx) ==> InPool(pending, was, tx)
    ensures forall tx :: InPool(pending, was, tx) && !InPool(pending, mined, tx) ==> Buried(t, y, tx)
  {
  }

  lemma NetNone(now: set<Tx>)
    ensures Net(map[], now, now)
  {
  }

  lemma Itself(mined: map<Hash, seq<Tx>>)
    ensures Within(mined, mined)
  {
  }

  lemma OnShorter(mined: map<Hash, seq<Tx>>, p: seq<Hash>, m: nat)
    requires 0 < m <= |p| && OnPath(mined, p[..m])
    ensures OnPath(mined - {p[m - 1]}, p[..m - 1])
  {
  }

  /** The next block up is new, and remembering it keeps to the path. */
  lemma OnLonger(t: Tree, g: Hash, y: Hash, mined: map<Hash, seq<Tx>>, m: nat)
    requires WellFormed(t, g) && y in t && m <= t[y].number && OnPath(mined, Path(t, g, y)[..m])
    ensures Path(t, g, y)[m] in t && t[Path(t, g, y)[m]].number == m && Path(t, g, y)[m] !in mined
    ensures forall list :: OnPath(Remembered(mined, Path(t, g, y)[m], list), Path(t, g, y)[..m + 1])
  {
    hide Path;
    var q := Path(t, g, y);
    PathIn(t, g, y, m);
    assert q[..m + 1] == q[..m] + [q[m]];
    if q[m] in q[..m] {
      var j :| 0 <= j < m && q[..m][j] == q[m];
      PathIn(t, g, y, j);
    }
  }

  lemma AtHeight(t: Tree, g: Hash, y: Hash, m: nat)
    requires WellFormed(t, g) && y in t && m <= t[y].number
    ensures Path(t, g, y)[m] in t && Path(t, g, Path(t, g, y)[m]) == Path(t, g, y)[..m + 1]
    ensures Path(t, g, y)[m] in Path(t, g, y)
  {
    PathIn(t, g, y, m);
    PathPrefix(t, g, y, m);
  }

  lemma CommonPrefix(t: Tree, g: Hash, x: Hash, y: Hash, k: nat)
    requires WellFormed(t, g) && x in t && y in t && Common(Path(t, g, x), Path(t, g, y), k)
    ensures Path(t, g, x)[..k] == Path(t, g, y)[..k]
  {
  }

  lemma RecentMore(t: Tree, was: map<Hash, seq<Tx>>, mined: map<Hash, seq<Tx>>, wasIdx: nat, idx: nat, k: nat)
    requires idx <= wasIdx && idx <= k
    requires forall h :: h in mined ==> h in was || (h in t && t[h].number >= k)
    ensures Recent(t, was, wasIdx) ==> Recent(t, mined, idx)
  {
  }

  lemma OnPathWithin(mined: map<Hash, seq<Tx>>, was: map<Hash, seq<Tx>>, p: seq<Hash>)
    requires OnPath(was, p) && Within(mined, was)
    ensures OnPath(mined, p)
  {
  }

  lemma Cleared(t: Tree, g: Hash, y: Hash, canon: map<nat, Hash>, mined: map<Hash, seq<Tx>>, was: map<Hash, seq<Tx>>,
                idx: nat, end: nat)
    requires WellFormed(t, g) && y in t && end <= t[y].number && OnPath(mined, Path(t, g, y)) && Within(mined, was)
    requires was != map[] ==> forall i :: idx <= i < end && i in canon ==> canon[i] !in mined
    ensures Recent(t, was, idx) && Covers(canon, Path(t, g, y)) ==> Recent(t, mined, end)
  {
    hide Path;
    if Recent(t, was, idx) && Covers(canon, Path(t, g, y)) {
      var q := Path(t, g, y);
      forall h | h in mined ensures h in t && t[h].number >= end {
        var i :| 0 <= i < |q| && q[i] == h;
        PathIn(t, g, y, i);
        assert canon[i] == h;
      }
    }
  }

  function Remembered(mined: map<Hash, seq<Tx>>, h: Hash, list: seq<Tx>): map<Hash, seq<Tx>> {
    if list == [] then mined else mined[h := list]
  }
}
