/**
 core/tx_pool.go: the transaction pool. Every operation under the pool lock is one method.
 Lists are held as the views that the list operations are proved to compute.
 */
module TxPools {
  import opened Numbers
  import opened Sequences
  import opened Transactions
  import opened TxListSpec
  import opened PoolState
  import opened TxPricedLists
  import opened Heap
  import opened Fairness
  import opened QueueCut
  import opened PoolPasses
  import opened PoolAdds
  import ChainTree
  import Forks

  const DEFAULT_CONFIG := Config(1, 10, 16, 4096, 64, 1024)

  function OrDefault(n: nat, d: nat): nat {
    if n < 1 then d else n
  }

  /** `TxPoolConfig.sanitize`: unusable values fall back to their defaults, others are kept. */
  function Sanitize(c: Config): (r: Config)
    ensures r.Sane() && (c.Sane() ==> r == c)
    ensures r.priceLimit == (if c.priceLimit == 0 then 1 else c.priceLimit)
    ensures r.priceBump == (if c.priceBump == 0 then 10 else c.priceBump)
    ensures r.accountSlots == (if c.accountSlots == 0 then 16 else c.accountSlots)
    ensures r.globalSlots == (if c.globalSlots == 0 then 4096 else c.globalSlots)
    ensures r.accountQueue == (if c.accountQueue == 0 then 64 else c.accountQueue)
    ensures r.globalQueue == (if c.globalQueue == 0 then 1024 else c.globalQueue)
  {
    Config(OrDefault(c.priceLimit, DEFAULT_CONFIG.priceLimit), OrDefault(c.priceBump, DEFAULT_CONFIG.priceBump),
           OrDefault(c.accountSlots, DEFAULT_CONFIG.accountSlots), OrDefault(c.globalSlots, DEFAULT_CONFIG.globalSlots),
           OrDefault(c.accountQueue, DEFAULT_CONFIG.accountQueue), OrDefault(c.globalQueue, DEFAULT_CONFIG.globalQueue))
  }

  /** The operations the pool lock serialises. */
  datatype Op =
    | OpAdd(tx: Tx, local: bool, checks: TxChecks)
    | OpAddMany(txs: seq<(Tx, TxChecks)>, local: bool)
    | OpReset(t: ChainTree.Tree, g: ChainTree.Hash, oldHead: Option<ChainTree.Hash>, newHead: ChainTree.Hash,
              check: Tx -> TxChecks, newState: Option<ChainState>, newMaxGas: nat)
    | OpSetGasPrice(price: nat)
    | OpEvict(lifetime: nat)

  class TxPool {
    const config: Config
    const priced: TxPricedList
    var state: ChainState
    var maxGas: nat
    var gasPrice: nat
    var pnonce: map<Address, nat>
    var locals: set<Address>
    var pending: Lists
    var queue: Lists
    var beats: map<Address, nat>
    var all: set<Tx>

    // ----- invariants -----

    ghost predicate Core()
      reads this, priced
    {
      Coherent(all, pending, queue) && Shaped(pending, true) && Shaped(queue, false) && priced.Tracks(all)
    }

    function PendingNonce(a: Address): nat
      reads this`pnonce, this`state
    {
      NonceOf(pnonce, state, a)
    }

    /** The pending nonces of `a` are exactly those from the state nonce up to the virtual nonce. */
    ghost predicate Runs(a: Address)
      reads this
    {
      RunAt(pending, pnonce, state, a)
    }

    /** Nothing of `a` that could be executed next is left in the queue. */
    ghost predicate Exhausted(a: Address)
      reads this
    {
      DoneAt(queue, pnonce, state, a)
    }

    ghost function View(): Snapshot
      reads this
    {
      Snapshot(all, pending, queue, pnonce, locals)
    }

    function Rules(): Env
      reads this
    {
      Env(config, state, maxGas, gasPrice)
    }

    /** What holds of the pool between any two operations. */
    ghost predicate Valid()
      reads this, priced
    {
      && config.Sane() && Core() && NoEmptyList(pending) && NoEmptyList(queue)
      && Payable(all, state, maxGas) && Bounded(all, locals, Limit(config))
    }

    /** Pending nonces run gaplessly from the state nonce, and nothing executable is left queued. */
    ghost predicate Live()
      reads this
    {
      AllRun(pending, pnonce, state) && AllDone(queue, pnonce, state, {})
    }

    /** The invariants in plain terms: where each transaction is, what it can pay, and which nonces are pending. */
    lemma Plain()
      requires Valid()
      ensures forall a, n :: n in ItemsOf(pending, a) ==>
                var t := ItemsOf(pending, a)[n];
                t in all && t.sender == a && t.nonce == n && n !in ItemsOf(queue, a)
      ensures forall a, n :: n in ItemsOf(queue, a) ==>
                var t := ItemsOf(queue, a)[n]; t in all && t.sender == a && t.nonce == n
      ensures forall t :: t in all ==>
                && (In(ItemsOf(pending, t.sender), t) || In(ItemsOf(queue, t.sender), t)) && t in priced.items
                && state.nonce(t.sender) <= t.nonce && t.cost <= state.balance(t.sender) && t.gas <= maxGas
      ensures forall a :: a in pending ==> pending[a].items != map[]
      ensures forall a :: a in queue ==> queue[a].items != map[]
      ensures |all| <= config.globalSlots + config.globalQueue ||
              forall t, u :: t in all && u in all && t.sender !in locals && u.sender !in locals ==> t == u
      ensures Live() ==> forall a ::
                var next := if a in pnonce then pnonce[a] else state.nonce(a);
                && (forall n :: n in ItemsOf(pending, a) <==> state.nonce(a) <= n < next)
                && (forall n :: n in ItemsOf(queue, a) ==> next < n)
    {
      hide Shaped, IsHeap;
      PlainLists(all, pending, queue);
      if Live() {
        PlainRuns(pending, queue, pnonce, state);
      }
    }

    /** `NewTxPool`, with the state of the current head. */
    constructor (config: Config, locals: set<Address>, state: ChainState, maxGas: nat)
      ensures Valid() && Live() && fresh(priced)
      ensures View() == Snapshot({}, map[], map[], map[], locals) && beats == map[]
      ensures this.config == Sanitize(config)
      ensures Rules() == Env(Sanitize(config), state, maxGas, Sanitize(config).priceLimit)
    {
      this.config, this.gasPrice := Sanitize(config), Sanitize(config).priceLimit;
      this.locals, this.state, this.maxGas := locals, state, maxGas;
      pnonce, pending, queue, beats, all := map[], map[], map[], map[], {};
      priced := new TxPricedList();
    }

    // ----- moves -----

    /** Remove transactions from the lookup, notifying the price heap of each. */
    method Forget(m: Items)
      requires priced.Tracks(all)
      modifies this`all, priced
      ensures all == old(all) - TxsOf(m) && priced.Tracks(all)
    {
      hide Left, TxsOf;
      JoinNone(m, m);
      var rest, gone := m, {};
      while rest != map[]
        invariant Left(gone, m, rest) && priced.Tracks(all) && all == old(all) - gone
        decreases |rest|
      {
        var n := MinKey(rest);
        LeaveOne(gone, m, rest, n);
        gone := gone + {rest[n]};
        all := all - {rest[n]};
        priced.Removed(all);
        rest := rest - {n};
      }
      LeaveAll(gone, m, rest);
    }

    /** `enqueueTx`. */
    method EnqueueTx(tx: Tx) returns (ok: bool, replaced: bool)
      requires Shaped(queue, false)
      requires priced.Tracks(all) || (tx in all && tx.nonce !in ItemsOf(queue, tx.sender))
      modifies this`queue, this`all, priced
      ensures
        var q := ItemsOf(old(queue), tx.sender);
        && (ok <==> (tx.nonce in q ==> Outbids(tx, q[tx.nonce], config.priceBump)))
        && (replaced <==> ok && tx.nonce in q)
        && (ok ==> tx.sender in queue && queue[tx.sender].items == q[tx.nonce := tx])
        && (ok ==> all == (if tx.nonce in q then old(all) - {q[tx.nonce]} else old(all)) + {tx})
        && (tx in old(all) && tx.nonce !in q ==> all == old(all) && unchanged(priced))
      ensures !ok ==> queue == old(queue) && all == old(all) && unchanged(priced)
      ensures SameBut(old(queue), queue, tx.sender) && Shaped(queue, false)
      ensures old(priced.Tracks(all)) ==> priced.Tracks(all)
    {
      hide Outbids, IsHeap, Shaped, SameBut;
      var from := tx.sender;
      ShapedAdd(queue, false, from, tx);
      SameButTrans(queue, queue, queue, from);
      if from !in queue {
        queue := queue[from := Empty(false)];
      }
      var l := queue[from];
      if !Admits(l, tx, config.priceBump) {
        return false, false;
      }
      queue := queue[from := Added(l, tx)];
      assert queue == old(queue)[from := Added(l, tx)];
      replaced := tx.nonce in l.items;
      if replaced {
        all := all - {l.items[tx.nonce]};
        priced.Removed(all);
      }
      if tx !in all {
        all := all + {tx};
        priced.Put(tx);
      }
      ok := true;
    }

    /** Hand stranded pending transactions back to the queue; none is rejected, none is lost. */
    method Demote(a: Address, m: Items)
      requires CoherentBut(all, pending, queue, a, m) && Shaped(queue, false)
      modifies this`queue, this`all, priced
      ensures all == old(all) && unchanged(priced) && Coherent(all, pending, queue) && Shaped(queue, false)
      ensures SameBut(old(queue), queue, a) && ItemsOf(queue, a) == ItemsOf(old(queue), a) + m
      ensures a in queue ==> a in old(queue) || m != map[]
    {
      hide CoherentBut, Coherent, Shaped, SameBut, Joined, Outbids;
      JoinNone(ItemsOf(queue, a), m);
      SameButTrans(queue, queue, queue, a);
      var rest := m;
      while rest != map[]
        invariant CoherentBut(all, pending, queue, a, rest)
        invariant all == old(all) && unchanged(priced) && Shaped(queue, false) && SameBut(old(queue), queue, a)
        invariant Joined(ItemsOf(queue, a), ItemsOf(old(queue), a), m, rest)
        invariant a in queue ==> a in old(queue) || m != map[]
        decreases |rest|
      {
        var n := MinKey(rest);
        ghost var q := queue;
        Floating(all, pending, q, a, rest, n);
        JoinOne(ItemsOf(q, a), ItemsOf(old(queue), a), m, rest, n);
        var ok, replaced := EnqueueTx(rest[n]);
        SameButTrans(old(queue), q, queue, a);
        LandInQueue(all, pending, q, queue, a, rest, n);
        rest := rest - {n};
      }
      JoinAll(ItemsOf(queue, a), ItemsOf(old(queue), a), m, rest);
      CoherentIsBut(all, pending, queue, a);
    }

    /** Shrink the queue of `a` to `kept` and forget what falls out. */
    method DropQueued(a: Address, kept: TxListView, drops: Items)
      requires Core() && a in queue && Splits(queue[a].items, kept.items, drops) && !kept.strict && CapsCover(kept)
      modifies this`queue, this`all, priced
      ensures Core() && SameBut(old(queue), queue, a) && a in queue && queue[a] == kept
      ensures all == old(all) - TxsOf(drops)
    {
      hide Coherent, Shaped, TxsOf, CapsCover, Splits, SameBut;
      SameButUpdate(queue, a, kept);
      DropFromQueue(all, pending, queue, a, kept, drops);
      ShapedUpdate(queue, false, a, kept);
      queue := queue[a := kept];
      Forget(drops);
    }

    /** Shrink the pending list of `a`: forget `gone`, queue `rest` again. */
    method DropPending(a: Address, kept: TxListView, ghost out: Items, gone: Items, rest: Items)
      requires Core() && a in pending && kept.strict && CapsCover(kept)
      requires Splits(pending[a].items, kept.items, out) && Splits(out, rest, gone)
      modifies this`pending, this`queue, this`all, priced
      ensures Core() && SameBut(old(pending), pending, a) && a in pending && pending[a] == kept
      ensures all == old(all) - TxsOf(gone)
      ensures SameBut(old(queue), queue, a) && ItemsOf(queue, a) == ItemsOf(old(queue), a) + rest
      ensures a in queue ==> a in old(queue) || rest != map[]
    {
      hide Coherent, CoherentBut, Shaped, TxsOf, CapsCover, Splits, SameBut;
      DropFromPending(all, pending, queue, a, kept, out, gone, rest);
      ShapedUpdate(pending, true, a, kept);
      SameButUpdate(pending, a, kept);
      pending := pending[a := kept];
      Forget(gone);
      Demote(a, rest);
    }

    /** `promoteTx`. */
    method PromoteTx(a: Address, tx: Tx, now: nat) returns (ok: bool)
      requires Shaped(pending, true) && priced.Tracks(all)
      modifies this`pending, this`all, this`beats, this`pnonce, priced
      ensures
        var p := ItemsOf(old(pending), a);
        && (ok <==> (tx.nonce in p ==> Outbids(tx, p[tx.nonce], config.priceBump)))
        && (ok ==> a in pending && pending[a].items == p[tx.nonce := tx])
        && (ok ==> all == (if tx.nonce in p then old(all) - {p[tx.nonce]} else old(all)) + {tx})
        && (tx in old(all) && tx.nonce !in p ==> all == old(all))
      ensures ok ==> PendingNonce(a) == tx.nonce + 1 && beats == old(beats)[a := now]
      ensures !ok ==> pending == old(pending) && all == old(all) - {tx} && pnonce == old(pnonce) && beats == old(beats)
      ensures SameBut(old(pending), pending, a) && SameNonces(old(pnonce), pnonce, a)
      ensures Shaped(pending, true) && priced.Tracks(all)
    {
      hide Outbids, IsHeap, Shaped, SameBut;
      ShapedAdd(pending, true, a, tx);
      SameButTrans(pending, pending, pending, a);
      if a !in pending {
        pending := pending[a := Empty(true)];
      }
      var l := pending[a];
      if !Admits(l, tx, config.priceBump) {
        all := all - {tx};
        priced.Removed(all);
        return false;
      }
      pending := pending[a := Added(l, tx)];
      assert pending == old(pending)[a := Added(l, tx)];
      Register(tx, if tx.nonce in l.items then Some(l.items[tx.nonce]) else None);
      beats := beats[a := now];
      pnonce := pnonce[a := tx.nonce + 1];
      ok := true;
    }

    /** Put a transaction into the index and the price list, in place of the one it replaces. */
    method Register(tx: Tx, rival: Option<Tx>)
      requires priced.Tracks(all)
      modifies this`all, priced
      ensures all == (if rival.Some? then old(all) - {rival.value} else old(all)) + {tx} && priced.Tracks(all)
    {
      if rival.Some? {
        all := all - {rival.value};
        priced.Removed(all);
      }
      if tx !in all {
        all := all + {tx};
        priced.Put(tx);
      }
    }

    /** Promote transactions taken off the queue, in nonce order; none meets a rival. */
    method PromoteReady(a: Address, ready: Items, now: nat)
      requires CoherentBut(all, pending, queue, a, ready) && Shaped(pending, true) && priced.Tracks(all)
      modifies this`pending, this`all, this`beats, this`pnonce, priced
      ensures all == old(all) && Coherent(all, pending, queue) && Shaped(pending, true) && priced.Tracks(all)
      ensures SameBut(old(pending), pending, a) && ItemsOf(pending, a) == ItemsOf(old(pending), a) + ready
      ensures ready == map[] ==> pending == old(pending) && pnonce == old(pnonce)
      ensures ready != map[] ==> a in pending && PendingNonce(a) == MaxKey(ready) + 1
      ensures SameNonces(old(pnonce), pnonce, a)
      ensures ready != map[] && old(Runs(a)) && RunOf(ready, old(PendingNonce(a)), MaxKey(ready) + 1) ==> Runs(a)
    {
      hide Promoting, CoherentBut, Coherent, Shaped, SameBut, SameNonces, RunOf, Outbids;
      PromotingStart(all, pending, queue, pnonce, state, a, ready);
      var rest := ready;
      while rest != map[]
        invariant Promoting(all, old(pending), pending, queue, old(pnonce), pnonce, state, a, ready, rest)
        invariant all == old(all) && Shaped(pending, true) && priced.Tracks(all)
        decreases |rest|
      {
        var n := MinKey(rest);
        ghost var p, pn := pending, pnonce;
        PromotingFloat(all, old(pending), p, queue, old(pnonce), pn, state, a, ready, rest, n);
        var ok := PromoteTx(a, rest[n], now);
        PromotingStep(all, old(pending), p, pending, queue, old(pnonce), pn, pnonce, state, a, ready, rest, n);
        rest := rest - {n};
      }
      PromotingDone(all, old(pending), pending, queue, old(pnonce), pnonce, state, a, ready);
    }

    /** Drop the queued transactions that are too old or unpayable. */
    method CleanQueue(a: Address)
      requires Core() && a in queue
      modifies this`queue, this`all, priced
      ensures Core() && SameBut(old(queue), queue, a) && a in queue && all <= old(all)
      ensures SparesAll(old(all), all, state, maxGas)
      ensures ItemsPayable(queue[a].items, state, maxGas)
      ensures queue[a].items == PayableItems(old(queue)[a].items, state, maxGas)
    {
      hide Coherent, Shaped, SameBut, Splits, CapsCover, TxsOf, Filter, SparesAll, TxPayable, ItemsPayable,
        PayableItems;
      var l0 := queue[a];
      var l1 := Forwarded(l0, state.nonce(a));
      ShapedAt(queue, false, a);
      QueueFiled(all, pending, queue, a);
      CleanedQueue(l0, state, maxGas, a);
      CleanedGone(l0, state, maxGas, a);
      SparesAllItems(all, Under(l0.items, state.nonce(a)), state, maxGas);
      DropQueued(a, l1, Under(l0.items, state.nonce(a)));
      ghost var q, txs := queue, all;
      var f := Filter(l1, state.balance(a), maxGas);
      SparesAllItems(all, f.removed, state, maxGas);
      DropQueued(a, f.list, f.removed);
      SparesAllTrans(old(all), txs, all, state, maxGas);
      SameButTrans(old(queue), q, queue, a);
    }

    /** Promote what the queue of `a` has ready. */
    method PromoteQueue(a: Address, now: nat)
      requires Core() && a in queue && ItemsPayable(queue[a].items, state, maxGas) && NoEmptyList(pending)
      modifies this`pending, this`queue, this`all, this`beats, this`pnonce, priced
      ensures Core() && a in queue && SameBut(old(queue), queue, a) && all == old(all) && NoEmptyList(pending)
      ensures SameBut(old(pending), pending, a) && SameNonces(old(pnonce), pnonce, a)
      ensures ItemsPayable(queue[a].items, state, maxGas) && Submap(queue[a].items, old(queue)[a].items)
      ensures
        var m := old(queue)[a].items;
        var e := ReadyEnd(m, old(PendingNonce(a)));
        && queue[a].items == AtLeast(m, e) && ItemsOf(pending, a) == ItemsOf(old(pending), a) + Under(m, e)
        && PendingNonce(a) == if Under(m, e) == map[] then old(PendingNonce(a)) else MaxKey(Under(m, e)) + 1
      ensures ItemsPayable(ItemsOf(old(pending), a), state, maxGas) ==> ItemsPayable(ItemsOf(pending, a), state, maxGas)
      ensures old(Runs(a)) ==> Runs(a) && Exhausted(a)
    {
      hide Coherent, CoherentBut, Shaped, SameBut, SameNonces, RunOf, NoEmptyList, AllAbove, ItemsPayable, Submap,
        Under, AtLeast, ReadyEnd;
      var l, start := queue[a], PendingNonce(a);
      var ready := Under(l.items, ReadyEnd(l.items, start));
      TakeReady(all, pending, queue, state, maxGas, a, start);
      queue := queue[a := ReadyList(l, start)];
      PromoteReady(a, ready, now);
      ReadyGiven(old(pending), pending, state, maxGas, a, ready);
    }

    /** Enforce the account limit on the queue of `a` and drop the list once it is empty. */
    method CapAccountQueue(a: Address)
      requires Core() && a in queue && NoEmptyBut(queue, a)
      modifies this`queue, this`all, priced
      ensures Core() && SameBut(old(queue), queue, a) && all <= old(all) && NoEmptyList(queue)
      ensures Spares(old(all), all, locals, state, maxGas)
      ensures
        var m := old(queue)[a].items;
        ItemsOf(queue, a) == if a in locals then m else Capped(m, config.accountQueue)
    {
      hide Coherent, Shaped, SameBut, NoEmptyList, NoEmptyBut, Splits, CapsCover, TxsOf, Capped, Submap, Spares,
        OnlyFrom, OfAccount;
      var l := queue[a];
      SparesTrans(all, all, all, locals, state, maxGas);
      SameButTrans(queue, queue, queue, a);
      if a !in locals {
        var kept := CappedList(l, config.accountQueue);
        CapSplits(l.items, config.accountQueue);
        ShapedAt(queue, false, a);
        CapsSub(l, kept);
        QueueFiled(all, pending, queue, a);
        OnlyPart(all, l.items, kept.items.Keys, a);
        SparesOther(all, all - TxsOf(l.items - kept.items.Keys), a, locals, state, maxGas);
        DropQueued(a, kept, l.items - kept.items.Keys);
      }
      if queue[a].items == map[] {
        ghost var q := queue;
        WithoutList(all, pending, queue, queue, false, a);
        queue := queue - {a};
        SameButTrans(old(queue), q, queue, a);
      }
      NoEmptyStep(old(queue), queue, a);
    }

    /** Clean the queue of `a` and promote what it has ready. */
    method CleanAndPromote(a: Address, now: nat)
      requires Core() && NoEmptyList(pending) && NoEmptyList(queue) && a in queue
      modifies this`pending, this`queue, this`all, this`beats, this`pnonce, priced
      ensures Core() && NoEmptyList(pending) && NoEmptyBut(queue, a) && a in queue && all <= old(all)
      ensures SameBut(old(pending), pending, a) && SameBut(old(queue), queue, a) && SameNonces(old(pnonce), pnonce, a)
      ensures
        var m, start := old(queue)[a].items, old(PendingNonce(a));
        var ready := ReadyPart(m, start, state, maxGas);
        && ItemsOf(pending, a) == ItemsOf(old(pending), a) + ready
        && queue[a].items == WaitingPart(m, start, state, maxGas)
        && PendingNonce(a) == if ready == map[] then start else MaxKey(ready) + 1
      ensures ItemsPayable(queue[a].items, state, maxGas) && Submap(queue[a].items, old(queue)[a].items)
      ensures ItemsPayable(ItemsOf(old(pending), a), state, maxGas) ==> ItemsPayable(ItemsOf(pending, a), state, maxGas)
      ensures old(Runs(a)) ==> Runs(a) && Exhausted(a)
      ensures SparesAll(old(all), all, state, maxGas)
    {
      hide Coherent, Shaped, SameBut, SameNonces, RunOf, NoEmptyList, NoEmptyBut, AllAbove, ItemsPayable, Submap,
        SparesAll, PayableItems, ReadyEnd, ReadyPart, WaitingPart, TxPayable, AtLeast, Under, NonceOf, MaxKey;
      NoEmptyAll(queue, a);
      PartsAre(queue[a].items, PendingNonce(a), state, maxGas);
      CleanQueue(a);
      ghost var q := queue;
      PromoteQueue(a, now);
      SameButTrans(old(queue), q, queue, a);
      NoEmptyStep(old(queue), queue, a);
      PayablePart(old(queue)[a].items, state, maxGas);
      SubmapTrans(queue[a].items, q[a].items, old(queue)[a].items);
    }

    /** One round of the promotion loop: clean, promote and cap the queue of `a`. */
    method PromoteAccount(a: Address, now: nat)
      requires Core() && NoEmptyList(pending) && NoEmptyList(queue)
      modifies this`pending, this`queue, this`all, this`beats, this`pnonce, priced
      ensures Core() && NoEmptyList(pending) && NoEmptyList(queue)
      ensures SameBut(old(pending), pending, a) && SameBut(old(queue), queue, a) && SameNonces(old(pnonce), pnonce, a)
      ensures old(Runs(a)) ==> Runs(a) && Exhausted(a)
      ensures ItemsPayable(ItemsOf(queue, a), state, maxGas) && Submap(ItemsOf(queue, a), ItemsOf(old(queue), a))
      ensures ItemsPayable(ItemsOf(old(pending), a), state, maxGas) ==> ItemsPayable(ItemsOf(pending, a), state, maxGas)
      ensures PromotedAt(old(View()), View(), state, maxGas, locals, config.accountQueue, a)
      ensures a !in locals ==> |ItemsOf(queue, a)| <= config.accountQueue
      ensures all <= old(all) && Spares(old(all), all, locals, state, maxGas)
    {
      hide Coherent, Shaped, SameBut, SameNonces, RunOf, NoEmptyList, NoEmptyBut, AllAbove, ItemsPayable, Submap,
        Spares, SparesAll, ReadyPart, WaitingPart, Capped, PromotedAt, NonceOf, MaxKey;
      SparesTrans(all, all, all, locals, state, maxGas);
      SameButTrans(queue, queue, queue, a);
      SameButTrans(pending, pending, pending, a);
      SameNoncesTrans(pnonce, pnonce, pnonce, a);
      if a !in queue {
        PayableNone(state, maxGas);
        NothingQueued(View(), state, maxGas, locals, config.accountQueue, a);
        return;
      }
      CleanAndPromote(a, now);
      ghost var q, m, txs := queue, queue[a].items, all;
      SparesFromAll(old(all), txs, locals, state, maxGas);
      CapAccountQueue(a);
      SparesTrans(old(all), txs, all, locals, state, maxGas);
      SameButTrans(old(queue), q, queue, a);
      PromotedParts(old(View()), View(), state, maxGas, locals, config.accountQueue, a);
      LeftQueued(m, ItemsOf(queue, a), old(queue)[a].items, PendingNonce(a), state, maxGas, config.accountQueue,
                 a in locals);
    }

    /** Take a pending transaction off its list, with everything it strands. */
    method TakePending(tx: Tx) returns (invalids: Items)
      requires Coherent(all + {tx}, pending, queue) && tx !in all && tx.nonce in ItemsOf(pending, tx.sender)
      requires Shaped(pending, true) && NoEmptyList(pending)
      modifies this`pending, this`beats
      ensures CoherentBut(all, pending, queue, tx.sender, invalids) && Shaped(pending, true) && NoEmptyList(pending)
      ensures SameBut(old(pending), pending, tx.sender)
      ensures ItemsOf(pending, tx.sender) == RemovedList(old(pending)[tx.sender], tx.nonce).items
      ensures invalids == Stranded(old(pending)[tx.sender], tx.nonce)
    {
      hide Coherent, CoherentBut, Shaped, SameBut, NoEmptyList, NoEmptyBut, CapsCover, RemovedList, Stranded;
      var a := tx.sender;
      var l := pending[a];
      var l' := RemovedList(l, tx.nonce);
      invalids := Stranded(l, tx.nonce);
      RemovePendingSplit(all + {tx}, pending, queue, tx);
      assert all + {tx} - {tx} == all;
      ShapedAt(pending, true, a);
      RemovedCaps(l, tx.nonce);
      ShapedUpdate(pending, true, a, l');
      SameButUpdate(pending, a, l');
      NoEmptyAll(pending, a);
      pending := pending[a := l'];
      if l'.items == map[] {
        ghost var p := pending;
        DropEmptyPending(a, invalids);
        SameButTrans(old(pending), p, pending, a);
      }
      NoEmptyStep(old(pending), pending, a);
    }

    /** The pending half of `removeTx`: what the removal strands goes back to the queue. */
    method RemovePending(tx: Tx)
      requires Coherent(all + {tx}, pending, queue) && tx !in all && tx.nonce in ItemsOf(pending, tx.sender)
      requires Shaped(pending, true) && Shaped(queue, false) && NoEmptyList(pending)
      modifies this`pending, this`queue, this`all, this`beats, this`pnonce, priced
      ensures Coherent(all, pending, queue) && Shaped(pending, true) && Shaped(queue, false) && NoEmptyList(pending)
      ensures all == old(all) && unchanged(priced)
      ensures SameBut(old(pending), pending, tx.sender) && SameBut(old(queue), queue, tx.sender)
      ensures SameNonces(old(pnonce), pnonce, tx.sender)
      ensures ItemsOf(pending, tx.sender) == RemovedList(old(pending)[tx.sender], tx.nonce).items
      ensures ItemsOf(queue, tx.sender) == ItemsOf(old(queue), tx.sender) + Stranded(old(pending)[tx.sender], tx.nonce)
      ensures PendingNonce(tx.sender) == Min(old(PendingNonce(tx.sender)), tx.nonce)
      ensures old(NoEmptyList(queue)) ==> NoEmptyList(queue)
      ensures old(Runs(tx.sender)) ==> Runs(tx.sender)
      ensures old(Exhausted(tx.sender)) ==> Exhausted(tx.sender)
    {
      hide Coherent, CoherentBut, Shaped, SameBut, SameNonces, RunOf, NoEmptyList, AllAbove, Filed, RemovedList,
        Stranded, NonceOf;
      var a, nonce := tx.sender, tx.nonce;
      FiledOnce(all + {tx}, pending, queue, tx);
      ShapedAt(pending, true, a);
      RemovedRun(pending[a], nonce, state.nonce(a), PendingNonce(a), ItemsOf(queue, a));
      SameNoncesTrans(pnonce, pnonce, pnonce, a);
      SetNonce(pnonce, state, a, nonce);
      var invalids := TakePending(tx);
      Demote(a, invalids);
      if old(NoEmptyList(queue)) {
        NoEmptyJoin(old(queue), queue, a, invalids);
      }
      if PendingNonce(a) > nonce {
        pnonce := pnonce[a := nonce];
      }
    }

    /** Delete the pending list of `a` once it is empty. */
    method DropEmptyPending(a: Address, ghost f: Items)
      requires a in pending && pending[a].items == map[] && CoherentBut(all, pending, queue, a, f)
      requires Shaped(pending, true)
      modifies this`pending, this`beats
      ensures CoherentBut(all, pending, queue, a, f) && Shaped(pending, true) && a !in pending
      ensures SameBut(old(pending), pending, a)
    {
      SameItems(all, pending, pending - {a}, queue, queue, a, f);
      pending, beats := pending - {a}, beats - {a};
    }

    /** The queue half of `removeTx`. */
    method RemoveQueued(tx: Tx)
      requires Coherent(all + {tx}, pending, queue) && tx !in all && tx.nonce !in ItemsOf(pending, tx.sender)
      requires Shaped(queue, false)
      modifies this`queue
      ensures Coherent(all, pending, queue) && Shaped(queue, false)
      ensures SameBut(old(queue), queue, tx.sender)
      ensures ItemsOf(queue, tx.sender) == ItemsOf(old(queue), tx.sender) - {tx.nonce}
      ensures old(NoEmptyList(queue)) ==> NoEmptyList(queue)
      ensures old(Exhausted(tx.sender)) ==> Exhausted(tx.sender)
    {
      hide Coherent, Shaped, SameBut, NoEmptyList, NoEmptyBut, CapsCover;
      var a := tx.sender;
      RemoveQueuedSplit(all + {tx}, pending, queue, tx);
      assert all + {tx} - {tx} == all;
      var l' := queue[a].(items := queue[a].items - {tx.nonce});
      ShapedAt(queue, false, a);
      RemovedCaps(queue[a], tx.nonce);
      assert l' == RemovedList(queue[a], tx.nonce);
      ShapedUpdate(queue, false, a, l');
      SameButUpdate(queue, a, l');
      queue := queue[a := l'];
      if l'.items == map[] {
        ghost var q := queue;
        WithoutList(all, pending, queue, queue, false, a);
        queue := queue - {a};
        SameButTrans(old(queue), q, queue, a);
      }
      if old(NoEmptyList(queue)) {
        NoEmptyAll(old(queue), a);
        NoEmptyStep(old(queue), queue, a);
      }
    }

    /** `removeTx`; the heap may still owe the removal of transactions it has popped. */
    method RemoveTx(tx: Tx, outofbound: bool, ghost owed: set<Tx>)
      requires Coherent(all, pending, queue) && Shaped(pending, true) && Shaped(queue, false)
      requires NoEmptyList(pending) && NoEmptyList(queue)
      requires priced.Tracks(all - owed) && (outofbound ==> owed == {})
      modifies this`pending, this`queue, this`all, this`beats, this`pnonce, priced
      ensures Coherent(all, pending, queue) && Shaped(pending, true) && Shaped(queue, false)
      ensures NoEmptyList(pending) && NoEmptyList(queue)
      ensures priced.Tracks(all - owed) && all == old(all) - {tx}
      ensures SameBut(old(pending), pending, tx.sender) && SameBut(old(queue), queue, tx.sender)
      ensures SameNonces(old(pnonce), pnonce, tx.sender)
      ensures old(Runs(tx.sender)) ==> Runs(tx.sender)
      ensures old(Exhausted(tx.sender)) ==> Exhausted(tx.sender)
      ensures tx in old(all) && tx.nonce in ItemsOf(old(pending), tx.sender) ==>
                var a := tx.sender;
                && ItemsOf(pending, a) == RemovedList(old(pending)[a], tx.nonce).items
                && ItemsOf(queue, a) == ItemsOf(old(queue), a) + Stranded(old(pending)[a], tx.nonce)
                && PendingNonce(a) == Min(old(PendingNonce(a)), tx.nonce)
      ensures tx !in old(all) ==> pending == old(pending) && queue == old(queue) && pnonce == old(pnonce)
      ensures tx.nonce !in ItemsOf(old(pending), tx.sender) ==>
                && pending == old(pending) && pnonce == old(pnonce) && beats == old(beats)
                && (tx in old(all) ==> ItemsOf(queue, tx.sender) == ItemsOf(old(queue), tx.sender) - {tx.nonce})
    {
      hide Coherent, Shaped, SameBut, SameNonces, RunOf, NoEmptyList, AllAbove, IsHeap, RemovedList, Stranded;
      SameButTrans(queue, queue, queue, tx.sender);
      SameButTrans(pending, pending, pending, tx.sender);
      SameNoncesTrans(pnonce, pnonce, pnonce, tx.sender);
      if tx !in all {
        return;
      }
      all := all - {tx};
      assert all + {tx} == old(all);
      if outofbound {
        priced.Removed(all);
      }
      if tx.sender in pending && tx.nonce in pending[tx.sender].items {
        RemovePending(tx);
      } else {
        RemoveQueued(tx);
      }
    }

    /** The promotion loop over a set of accounts, in any order. */
    method PromoteAccounts(accounts: set<Address>, now: nat)
      requires Core() && NoEmptyList(pending) && NoEmptyList(queue)
      modifies this`pending, this`queue, this`all, this`beats, this`pnonce, priced
      ensures Promoted(old(View()), View(), state, maxGas, locals, config.accountQueue, accounts)
      ensures Core() && NoEmptyList(pending) && NoEmptyList(queue) && all <= old(all)
      ensures Spares(old(all), all, locals, state, maxGas)
      ensures old(AllRun(pending, pnonce, state)) ==> AllRun(pending, pnonce, state)
      ensures old(AllRun(pending, pnonce, state) && AllDone(queue, pnonce, state, accounts)) ==>
                AllDone(queue, pnonce, state, {})
      ensures old(ListsPayable(pending, state, maxGas, {})) ==> ListsPayable(pending, state, maxGas, {})
      ensures old(ListsPayable(queue, state, maxGas, accounts)) ==> ListsPayable(queue, state, maxGas, {})
    {
      hide Coherent, Shaped, SameBut, SameNonces, RunAt, DoneAt, AllRun, AllDone, NoEmptyList, ItemsPayable,
        ListsPayable, Submap, IsHeap, Spares, PromotedAt, Promoted;
      SparesTrans(all, all, all, locals, state, maxGas);
      PromotedStart(View(), state, maxGas, locals, config.accountQueue);
      var rest := accounts;
      ghost var done := {};
      while rest != {}
        invariant rest <= accounts && done == accounts - rest
        invariant Promoted(old(View()), View(), state, maxGas, locals, config.accountQueue, done)
        invariant Core() && NoEmptyList(pending) && NoEmptyList(queue) && all <= old(all)
        invariant Spares(old(all), all, locals, state, maxGas)
        invariant old(AllRun(pending, pnonce, state)) ==> AllRun(pending, pnonce, state)
        invariant old(AllRun(pending, pnonce, state) && AllDone(queue, pnonce, state, accounts)) ==>
                  AllDone(queue, pnonce, state, rest)
        invariant old(ListsPayable(pending, state, maxGas, {})) ==> ListsPayable(pending, state, maxGas, {})
        invariant old(ListsPayable(queue, state, maxGas, accounts)) ==> ListsPayable(queue, state, maxGas, rest)
        decreases |rest|
      {
        var a :| a in rest;
        ghost var p, q, pn, txs, view := pending, queue, pnonce, all, View();
        PromoteAccount(a, now);
        PromotedStep(old(View()), view, View(), state, maxGas, locals, config.accountQueue, done, a);
        done := done + {a};
        SparesTrans(old(all), txs, all, locals, state, maxGas);
        if old(AllRun(pending, pnonce, state)) {
          RunEach(p, pn, state, a);
          RunStep(p, pending, pn, pnonce, state, a);
          if old(AllDone(queue, pnonce, state, accounts)) {
            DoneStep(q, queue, pn, pnonce, state, a, rest, rest - {a});
          }
        }
        if old(ListsPayable(pending, state, maxGas, {})) {
          PayableEach(p, state, maxGas, a);
          PayableStep(p, pending, state, maxGas, a, {}, {});
        }
        if old(ListsPayable(queue, state, maxGas, accounts)) {
          PayableStep(q, queue, state, maxGas, a, rest, rest - {a});
        }
        rest := rest - {a};
      }
      assert done == accounts;
    }

    // ----- the capacity cut of pending transactions -----

    /** Cap the list of an offender by one. */
    method CutOne(a: Address)
      requires Core() && NoEmptyList(pending) && a in pending && |pending[a].items| > 1
      modifies this`pending, this`all, this`pnonce, priced
      ensures Core() && NoEmptyList(pending) && all <= old(all) && OnlyFrom(old(all), all, a)
      ensures SameBut(old(pending), pending, a) && a in pending
      ensures pending[a] == CappedList(old(pending)[a], |old(pending)[a].items| - 1)
      ensures Kept(old(pending), old(pnonce), pending, pnonce, queue, state, maxGas)
    {
      hide Coherent, Shaped, SameBut, NoEmptyList, TxsOf, Capped, Kept, OnlyFrom;
      var l := pending[a];
      var n, kept := MaxKey(l.items), CappedList(l, |l.items| - 1);
      CapByOne(all, pending, queue, pnonce, state, maxGas, a);
      pending := pending[a := kept];
      Forget(map[n := l.items[n]]);
      if PendingNonce(a) > n {
        pnonce := pnonce[a := n];
      }
    }

    /** Half way through the cut that started from `p0`: `count` transactions are pending. */
    ghost predicate Cutting(p0: Lists, pn0: map<Address, nat>, all0: set<Tx>, count: nat)
      reads this, priced
    {
      && Core() && NoEmptyList(pending) && IsCutOf(p0, pending) && count == Total(Sizes(pending)) && all <= all0
      && Spares(all0, all, locals, state, maxGas) && Kept(p0, pn0, pending, pnonce, queue, state, maxGas)
    }

    /** One round: every given account gives up its highest nonce. */
    method CutRound(offs: seq<Address>, count: nat, ghost p0: Lists, ghost pn0: map<Address, nat>, ghost all0: set<Tx>)
      returns (left: nat)
      requires Cutting(p0, pn0, all0, count) && Distinct(offs)
      requires forall i :: 0 <= i < |offs| ==> offs[i] in pending && offs[i] !in locals && |pending[offs[i]].items| > 1
      modifies this`pending, this`all, this`pnonce, priced
      ensures Cutting(p0, pn0, all0, left) && Dec(Sizes(old(pending)), Sizes(pending), offs)
    {
      hide Coherent, Shaped, SameBut, NoEmptyList, Capped, Kept, IsCutOf, Dec, Distinct, Total, IsHeap, Spares,
        OnlyFrom;
      left := count;
      ghost var k := Sizes(pending);
      DecNone(k);
      for i := 0 to |offs|
        invariant Cutting(p0, pn0, all0, left) && Dec(k, Sizes(pending), offs[..i])
      {
        var a := offs[i];
        ghost var p, pn, txs := pending, pnonce, all;
        SizeAt(old(pending), a);
        DecOne(k, Sizes(p), offs, i);
        SizeAt(p, a);
        TotalPositive(Sizes(p), a);
        CutOne(a);
        CutStep(p0, p, pending, a, |p[a].items| - 1);
        TotalUpdate(Sizes(p), a, |p[a].items| - 1);
        KeptTrans(p0, pn0, p, pn, pending, pnonce, queue, state, maxGas);
        SparesOther(txs, all, a, locals, state, maxGas);
        SparesTrans(all0, txs, all, locals, state, maxGas);
        left := left - 1;
      }
      assert offs[..|offs|] == offs;
    }

    /** The offenders, queued by the length of their pending lists. */
    method FindSpammers() returns (spammers: Counts)
      ensures Spammers(Sizes(pending), locals, config.accountSlots, spammers)
    {
      spammers := map[];
      var rest := pending.Keys;
      while rest != {}
        invariant rest <= pending.Keys
        invariant forall a :: a in spammers <==>
                    a in pending && a !in rest && a !in locals && |pending[a].items| > config.accountSlots
        invariant forall a :: a in spammers ==> spammers[a] == |pending[a].items|
        decreases |rest|
      {
        var a :| a in rest;
        if a !in locals && |pending[a].items| > config.accountSlots {
          spammers := spammers[a := |pending[a].items|];
        }
        rest := rest - {a};
      }
    }

    /** Cut the earlier offenders down towards the last one. */
    method Equalize(offenders: seq<Address>, count: nat, ghost p0: Lists, ghost pn0: map<Address, nat>,
                    ghost all0: set<Tx>, ghost spammers: Counts, ghost level0: nat)
      returns (left: nat, ghost level: nat)
      requires Cutting(p0, pn0, all0, count) && config.Sane()
      requires |offenders| > 1 && OverAt(Sizes(p0), locals, config.globalSlots, level0)
      requires Offence(Sizes(p0), Sizes(pending), locals, config.accountSlots, offenders, spammers, level0)
      modifies this`pending, this`all, this`pnonce, priced
      ensures Cutting(p0, pn0, all0, left)
      ensures Offence(Sizes(p0), Sizes(pending), locals, config.accountSlots, offenders, spammers, level)
      ensures OverAt(Sizes(p0), locals, config.globalSlots, level) && config.accountSlots <= level
      ensures left > config.globalSlots ==>
                offenders[|offenders| - 1] in Sizes(p0) && Sizes(p0)[offenders[|offenders| - 1]] == level
    {
      hide Cutting, Dec, Distinct, Total, Offence, OverAt, Levelled, Sizes;
      left, level := count, level0;
      ghost var k0 := Sizes(p0);
      var last, second := offenders[|offenders| - 1], offenders[|offenders| - 2];
      OffenceSizes(k0, Sizes(pending), locals, config.accountSlots, offenders, spammers, level);
      SizeAt(pending, last);
      var threshold := |pending[last].items|;
      SizeAt(pending, second);
      while left > config.globalSlots && |pending[second].items| > threshold
        invariant Cutting(p0, pn0, all0, left)
        invariant Offence(k0, Sizes(pending), locals, config.accountSlots, offenders, spammers, level)
        invariant OverAt(k0, locals, config.globalSlots, level)
        invariant last in k0 && threshold == k0[last] && config.accountSlots < threshold <= level
        invariant second in pending && |pending[second].items| == level
        decreases level
      {
        ghost var p := pending;
        var offs := offenders[..|offenders| - 1];
        RoundReady(k0, Sizes(pending), locals, config.accountSlots, offenders, spammers, level);
        OverNow(k0, Sizes(pending), locals, config.globalSlots, level) by { CuttingCount(p0, pn0, all0, left); }
        forall i | 0 <= i < |offs| ensures offs[i] in pending && offs[i] !in locals && |pending[offs[i]].items| > 1 {
          SizeAt(pending, offs[i]);
        }
        left := CutRound(offs, left, p0, pn0, all0);
        OffenceRound(k0, Sizes(p), Sizes(pending), locals, config.accountSlots, offenders, spammers, level);
        level := level - 1;
        OffenceSizes(k0, Sizes(pending), locals, config.accountSlots, offenders, spammers, level);
        SizeAt(pending, second);
      }
    }

    lemma CuttingCount(p0: Lists, pn0: map<Address, nat>, all0: set<Tx>, count: nat)
      requires Cutting(p0, pn0, all0, count)
      ensures count == Total(Sizes(pending))
    {
    }

    /** Cut all offenders together until the limit or their guarantee is reached. */
    method CutTogether(offenders: seq<Address>, count: nat, ghost p0: Lists, ghost pn0: map<Address, nat>,
                       ghost all0: set<Tx>, ghost level0: nat)
      returns (left: nat, ghost level: nat)
      requires Cutting(p0, pn0, all0, count) && config.Sane()
      requires offenders != [] && OverAt(Sizes(p0), locals, config.globalSlots, level0)
      requires LastStage(Sizes(p0), Sizes(pending), locals, config.accountSlots, offenders, level0)
      modifies this`pending, this`all, this`pnonce, priced
      ensures Cutting(p0, pn0, all0, left) && Levelled(Sizes(p0), Sizes(pending), locals, level)
      ensures FairLevel(Sizes(p0), locals, config.globalSlots, config.accountSlots, level)
    {
      hide Cutting, Dec, Distinct, Total, LastStage, OverAt, Levelled, Sizes, FairLevel;
      left, level := count, level0;
      ghost var k0 := Sizes(p0);
      var last := offenders[|offenders| - 1];
      LastStageSizes(k0, Sizes(pending), locals, config.accountSlots, offenders, level);
      SizeAt(pending, last);
      while left > config.globalSlots && |pending[last].items| > config.accountSlots
        invariant Cutting(p0, pn0, all0, left)
        invariant LastStage(k0, Sizes(pending), locals, config.accountSlots, offenders, level)
        invariant OverAt(k0, locals, config.globalSlots, level) && config.accountSlots <= level
        invariant last in pending && |pending[last].items| == level
        decreases level
      {
        ghost var p := pending;
        LastStageSizes(k0, Sizes(pending), locals, config.accountSlots, offenders, level);
        OverNow(k0, Sizes(pending), locals, config.globalSlots, level) by { CuttingCount(p0, pn0, all0, left); }
        forall i | 0 <= i < |offenders|
          ensures offenders[i] in pending && offenders[i] !in locals && |pending[offenders[i]].items| > 1
        {
          SizeAt(pending, offenders[i]);
        }
        left := CutRound(offenders, left, p0, pn0, all0);
        LastStageRound(k0, Sizes(p), Sizes(pending), locals, config.accountSlots, offenders, level);
        level := level - 1;
        LastStageSizes(k0, Sizes(pending), locals, config.accountSlots, offenders, level);
        SizeAt(pending, last);
      }
      LastStageSizes(k0, Sizes(pending), locals, config.accountSlots, offenders, level);
      FairNow(k0, Sizes(pending), locals, config.globalSlots, config.accountSlots, level) by {
        CuttingCount(p0, pn0, all0, left);
      }
    }

    /** How far the offenders have been punished, and what that says about the level. */
    ghost predicate Punishing(p0: Lists, pn0: map<Address, nat>, all0: set<Tx>, count: nat,
                              offenders: seq<Address>, spammers: Counts, level: nat)
      reads this, priced
    {
      && Cutting(p0, pn0, all0, count)
      && Offence(Sizes(p0), Sizes(pending), locals, config.accountSlots, offenders, spammers, level)
      && (offenders == [] ==> count > config.globalSlots)
      && (offenders != [] ==> OverAt(Sizes(p0), locals, config.globalSlots, level) && config.accountSlots <= level)
      && (offenders != [] && count > config.globalSlots ==>
            offenders[|offenders| - 1] in Sizes(p0) && Sizes(p0)[offenders[|offenders| - 1]] == level)
    }

    /** Pop the next offender and level the earlier ones with it. */
    method PunishNext(offenders: seq<Address>, spammers: Counts, count: nat,
                      ghost p0: Lists, ghost pn0: map<Address, nat>, ghost all0: set<Tx>, ghost level: nat)
      returns (offenders': seq<Address>, spammers': Counts, count': nat, ghost level': nat)
      requires Punishing(p0, pn0, all0, count, offenders, spammers, level) && config.Sane()
      requires count > config.globalSlots && spammers != map[]
      modifies this`pending, this`all, this`pnonce, priced
      ensures Punishing(p0, pn0, all0, count', offenders', spammers', level')
      ensures offenders' != [] && |spammers'| < |spammers|
    {
      hide Cutting, Total, Offence, OverAt, Sizes, PoppedLevel;
      ghost var k0 := Sizes(p0);
      var offender;
      offender, spammers' := PopLargest(spammers);
      CuttingCount(p0, pn0, all0, count);
      PopStage(k0, Sizes(pending), locals, config.accountSlots, config.globalSlots, offenders, spammers, level,
               offender);
      offenders', count', level' := offenders + [offender], count, PoppedLevel(k0, offenders, level, offender);
      if |offenders'| > 1 {
        count', level' := Equalize(offenders', count, p0, pn0, all0, spammers', level');
      }
    }

    /** Pop the offenders, largest first, levelling them one after the other. */
    method PunishOffenders(total: nat, ghost p0: Lists, ghost pn0: map<Address, nat>, ghost all0: set<Tx>)
      returns (count: nat, offenders: seq<Address>, ghost level: nat)
      requires Cutting(p0, pn0, all0, total) && config.Sane() && p0 == pending && total > config.globalSlots
      modifies this`pending, this`all, this`pnonce, priced
      ensures exists spammers ::
                && Punishing(p0, pn0, all0, count, offenders, spammers, level)
                && (count > config.globalSlots ==> spammers == map[])
    {
      hide Cutting, Total, Offence, OverAt, Sizes, Spammers, Punishing;
      var spammers := FindSpammers();
      OffenceStart(Sizes(p0), locals, config.accountSlots, spammers);
      count, level, offenders := total, Total(Sizes(p0)) + config.accountSlots, [];
      PunishingStart(p0, pn0, all0, count, spammers, level);
      while count > config.globalSlots && spammers != map[]
        invariant Punishing(p0, pn0, all0, count, offenders, spammers, level)
        decreases |spammers|
      {
        offenders, spammers, count, level := PunishNext(offenders, spammers, count, p0, pn0, all0, level);
      }
    }

    lemma PunishingStart(p0: Lists, pn0: map<Address, nat>, all0: set<Tx>, count: nat, spammers: Counts, level: nat)
      requires Cutting(p0, pn0, all0, count) && count > config.globalSlots
      requires Offence(Sizes(p0), Sizes(pending), locals, config.accountSlots, [], spammers, level)
      ensures Punishing(p0, pn0, all0, count, [], spammers, level)
    {
    }

    /** The pending half of the capacity limits: cut the remote accounts to their fair share. */
    method CapPending() returns (ghost level: nat)
      requires Core() && NoEmptyList(pending) && config.Sane()
      modifies this`pending, this`all, this`pnonce, priced
      ensures Core() && NoEmptyList(pending) && all <= old(all)
      ensures Kept(old(pending), old(pnonce), pending, pnonce, queue, state, maxGas)
      ensures Spares(old(all), all, locals, state, maxGas)
      ensures CutFairly(old(pending), pending, locals, config.globalSlots, config.accountSlots, level)
      ensures Total(Sizes(old(pending))) <= config.globalSlots ==> pnonce == old(pnonce)
    {
      hide Coherent, Shaped, NoEmptyList, Kept, IsCutOf, Total, IsHeap, Offence, LastStage, OverAt, Levelled, Sizes,
        FairLevel, Spares;
      SparesTrans(all, all, all, locals, state, maxGas);
      level := 0;
      KeptSelf(pending, pnonce, queue, state, maxGas);
      CutSelf(pending);
      ghost var p0, pn0, all0, k0 := pending, pnonce, all, Sizes(pending);
      var count := CountTxs(pending);
      if count <= config.globalSlots {
        return;
      }
      var offenders;
      count, offenders, level := PunishOffenders(count, p0, pn0, all0);
      ghost var spammers :|
        && Punishing(p0, pn0, all0, count, offenders, spammers, level)
        && (count > config.globalSlots ==> spammers == map[]);
      if count > config.globalSlots && |offenders| > 0 {
        LastStageStart(k0, Sizes(pending), locals, config.accountSlots, offenders, spammers, level);
        count, level := CutTogether(offenders, count, p0, pn0, all0, level);
      } else if |offenders| > 0 {
        OffenceLevelled(k0, Sizes(pending), locals, config.accountSlots, offenders, spammers, level);
        FairNow(k0, Sizes(pending), locals, config.globalSlots, config.accountSlots, level);
      } else {
        NoOffenders(k0, Sizes(pending), locals, config.accountSlots, spammers, level, config.globalSlots);
        level := config.accountSlots;
      }
    }

    // ----- the capacity cut of queued transactions -----

    /** `removeTx` on a queued transaction. */
    method RemoveOneQueued(a: Address, n: nat)
      requires Core() && NoEmptyList(pending) && NoEmptyList(queue) && n in ItemsOf(queue, a)
      modifies this`pending, this`queue, this`all, this`beats, this`pnonce, priced
      ensures Core() && NoEmptyList(pending) && NoEmptyList(queue) && all <= old(all) && OnlyFrom(old(all), all, a)
      ensures pending == old(pending) && pnonce == old(pnonce) && beats == old(beats)
      ensures SameBut(old(queue), queue, a) && ItemsOf(queue, a) == ItemsOf(old(queue), a) - {n}
    {
      hide Coherent, Shaped, NoEmptyList, SameBut, SameNonces, IsHeap, RunAt, DoneAt;
      QueuedIn(all, pending, queue, a, n);
      assert all - {} == all;
      RemoveTx(ItemsOf(queue, a)[n], true, {});
      assert all - {} == all;
    }

    /** Remove everything `a` has queued. */
    method DropWholeQueue(a: Address)
      requires Core() && NoEmptyList(pending) && NoEmptyList(queue)
      modifies this`pending, this`queue, this`all, this`beats, this`pnonce, priced
      ensures Core() && NoEmptyList(pending) && NoEmptyList(queue) && all <= old(all) && OnlyFrom(old(all), all, a)
      ensures pending == old(pending) && pnonce == old(pnonce) && beats == old(beats)
      ensures SameBut(old(queue), queue, a) && ItemsOf(queue, a) == map[]
    {
      hide Coherent, Shaped, NoEmptyList, SameBut, IsHeap, OnlyFrom;
      SameButTrans(queue, queue, queue, a);
      OnlyTrans(all, all, all, a);
      while ItemsOf(queue, a) != map[]
        invariant Core() && NoEmptyList(pending) && NoEmptyList(queue) && all <= old(all) && OnlyFrom(old(all), all, a)
        invariant pending == old(pending) && pnonce == old(pnonce) && beats == old(beats)
        invariant SameBut(old(queue), queue, a)
        decreases |ItemsOf(queue, a)|
      {
        ghost var q, txs := queue, all;
        var n := MinKey(ItemsOf(queue, a));
        SizeWithout(ItemsOf(queue, a), n);
        RemoveOneQueued(a, n);
        SameButTrans(old(queue), q, queue, a);
        OnlyTrans(old(all), txs, all, a);
      }
    }

    /** Remove the `n` highest nonces `a` has queued. */
    method DropTail(a: Address, n: nat)
      requires Core() && NoEmptyList(pending) && NoEmptyList(queue) && n <= |ItemsOf(queue, a)|
      modifies this`pending, this`queue, this`all, this`beats, this`pnonce, priced
      ensures Core() && NoEmptyList(pending) && NoEmptyList(queue) && all <= old(all) && OnlyFrom(old(all), all, a)
      ensures pending == old(pending) && pnonce == old(pnonce) && beats == old(beats)
      ensures SameBut(old(queue), queue, a)
      ensures IsCap(ItemsOf(queue, a), ItemsOf(old(queue), a), |ItemsOf(old(queue), a)| - n)
    {
      hide Coherent, Shaped, NoEmptyList, SameBut, IsHeap, IsCap, ItemsOf, OnlyFrom;
      SameButTrans(queue, queue, queue, a);
      OnlyTrans(all, all, all, a);
      ghost var m := ItemsOf(queue, a);
      CapStart(m);
      var drop, size := n, |ItemsOf(queue, a)|;
      while drop > 0
        invariant Core() && NoEmptyList(pending) && NoEmptyList(queue) && all <= old(all) && OnlyFrom(old(all), all, a)
        invariant pending == old(pending) && pnonce == old(pnonce) && beats == old(beats)
        invariant 0 <= drop <= size <= |m| && size - drop == |m| - n
        invariant SameBut(old(queue), queue, a) && IsCap(ItemsOf(queue, a), m, size)
        decreases drop
      {
        ghost var q, txs := queue, all;
        CapDown(ItemsOf(queue, a), m, size);
        RemoveOneQueued(a, MaxKey(ItemsOf(queue, a)));
        SameButTrans(old(queue), q, queue, a);
        OnlyTrans(old(all), txs, all, a);
        drop, size := drop - 1, size - 1;
      }
    }

    /** Drop up to `drop` transactions from one queue: all of it, or its highest nonces. */
    method TrimOne(a: Address, drop: nat) returns (left: nat)
      requires Core() && NoEmptyList(pending) && NoEmptyList(queue)
      modifies this`pending, this`queue, this`all, this`beats, this`pnonce, priced
      ensures Core() && NoEmptyList(pending) && NoEmptyList(queue) && all <= old(all) && OnlyFrom(old(all), all, a)
      ensures pending == old(pending) && pnonce == old(pnonce) && beats == old(beats)
      ensures SameBut(old(queue), queue, a) && Total(Sizes(queue)) - left == Total(Sizes(old(queue))) - drop
      ensures var m := ItemsOf(queue, a); m == Capped(ItemsOf(old(queue), a), |m|) && (left > 0 ==> m == map[])
    {
      hide Coherent, Shaped, NoEmptyList, SameBut, Capped, Total, Sizes, OnlyFrom;
      var size := |ItemsOf(queue, a)|;
      CappedSelf(ItemsOf(queue, a));
      if size <= drop {
        DropWholeQueue(a);
        left := drop - size;
      } else {
        DropTail(a, drop);
        left := 0;
      }
      TotalStep(old(queue), queue, a);
    }

    /** The queue half of the capacity limits: accounts lose queued transactions, latest heartbeat first. */
    method CapQueue()
      requires Core() && NoEmptyList(pending) && NoEmptyList(queue)
      modifies this`pending, this`queue, this`all, this`beats, this`pnonce, priced
      ensures Core() && NoEmptyList(pending) && NoEmptyList(queue) && all <= old(all)
      ensures pending == old(pending) && pnonce == old(pnonce) && beats == old(beats)
      ensures Spares(old(all), all, locals, state, maxGas)
      ensures CutBack(old(queue), queue, locals, beats, config.globalQueue)
      ensures LatestPayFirst(old(queue), queue, locals, beats)
    {
      hide Coherent, Shaped, NoEmptyList, SameBut, IsHeap, Capped, Total, Sizes, Trimming, ByHeartbeat, Trimmed,
        Spares, OnlyFrom, LatestPayFirst;
      SparesTrans(all, all, all, locals, state, maxGas);
      NobodyPays(queue, locals, beats);
      var queued := CountTxs(queue);
      if queued <= config.globalQueue {
        return;
      }
      var order := Collect(queue, locals, beats);
      var drop: nat, i: nat := queued - config.globalQueue, |order|;
      TrimmingStart(queue, order, drop);
      while drop > 0 && i > 0
        invariant Core() && NoEmptyList(pending) && NoEmptyList(queue) && all <= old(all)
        invariant pending == old(pending) && pnonce == old(pnonce) && beats == old(beats)
        invariant Spares(old(all), all, locals, state, maxGas)
        invariant 0 <= i <= |order| && Trimming(old(queue), queue, order, i, drop)
        invariant Total(Sizes(queue)) == config.globalQueue + drop
        decreases i
      {
        var a := order[i - 1].address;
        ghost var q, txs, was := queue, all, drop;
        RemoteAt(order, old(queue), locals, beats, i - 1);
        drop := TrimOne(a, drop);
        TrimmingStep(old(queue), q, queue, locals, beats, order, i, was, drop);
        SparesOther(txs, all, a, locals, state, maxGas);
        SparesTrans(old(all), txs, all, locals, state, maxGas);
        i := i - 1;
      }
      TrimmingDone(old(queue), queue, locals, beats, order, i, drop);
      TrimmedLatest(old(queue), queue, locals, beats);
      if drop > 0 {
        NoRemoteLeft(old(queue), queue, locals, beats, order, drop);
        OnlyLocals(queue, locals);
      }
    }

    /** The pending slots are respected, or no remote account exceeds its guarantee. */
    ghost predicate PendingLimited()
      reads this
    {
      || Total(Sizes(pending)) <= config.globalSlots
      || forall a :: a in pending && a !in locals ==> |pending[a].items| <= config.accountSlots
    }

    /** The queue limit is respected, or only local accounts are queued. */
    ghost predicate QueueLimited()
      reads this
    {
      Total(Sizes(queue)) <= config.globalQueue || forall a :: a in queue ==> a in locals
    }

    /** `promoteExecutables`; nil accounts stand for all that are queued. */
    method PromoteExecutables(accounts: Option<set<Address>>, now: nat) returns (ghost mid: Snapshot, ghost level: nat)
      requires Core() && NoEmptyList(pending) && NoEmptyList(queue) && config.Sane()
      modifies this`pending, this`queue, this`all, this`beats, this`pnonce, priced
      ensures Core() && NoEmptyList(pending) && NoEmptyList(queue) && all <= old(all)
      ensures PendingLimited() && QueueLimited() && Spares(old(all), all, locals, state, maxGas)
      ensures
        var todo := if accounts.Some? then accounts.value else old(queue.Keys);
        Pass(Rules(), old(View()), mid, View(), beats, level, todo)
      ensures old(AllRun(pending, pnonce, state)) ==> AllRun(pending, pnonce, state)
      ensures
        var except := if accounts.Some? then accounts.value else old(queue.Keys);
        && (old(AllRun(pending, pnonce, state)) && AllDone(old(queue), old(pnonce), state, except) ==>
              AllDone(queue, pnonce, state, {}))
        && (ListsPayable(old(pending), state, maxGas, {}) ==> ListsPayable(pending, state, maxGas, {}))
        && (ListsPayable(old(queue), state, maxGas, except) ==> ListsPayable(queue, state, maxGas, {}))
    {
      hide Coherent, Shaped, NoEmptyList, IsHeap, Total, Sizes, Trimmed, AllRun, AllDone, ListsPayable, IsCutOf,
        FairLevel, Levelled, Spares, Promoted, Explained;
      var todo := if accounts.Some? then accounts.value else queue.Keys;
      PromoteAccounts(todo, now);
      ghost var p1, txs1 := pending, all;
      mid := View();
      level := CapPending();
      SparesTrans(old(all), txs1, all, locals, state, maxGas);
      LimitedAfterCut(p1, pending, locals, config.globalSlots, config.accountSlots, level);
      ghost var q1, txs2 := queue, all;
      CapQueue();
      SparesTrans(old(all), txs2, all, locals, state, maxGas);
      if Total(Sizes(q1)) > config.globalQueue {
        TrimmedKeeps(q1, queue, locals, beats, pnonce, state, maxGas);
      }
      EveryLossExplained(old(all), old(View()), mid, all, pending, queue, state, maxGas, locals, config.accountQueue,
                         todo);
    }

    // ----- adding transactions -----

    /** `validateTx`. */
    function Validate(tx: Tx, local: bool, checks: TxChecks): (r: Option<PoolError>)
      reads this
      ensures
        var exempt := local || tx.sender in locals;
        var fits := checks.size && checks.value && tx.gas <= maxGas && checks.signature;
        var paid := exempt || gasPrice <= tx.price;
        var next, funds := state.nonce(tx.sender) <= tx.nonce, tx.cost <= state.balance(tx.sender);
        && (r.None? <==> fits && paid && next && funds && checks.gasCountable && checks.intrinsicGas)
        && (r == Some(OversizedData) <==> !checks.size)
        && (r == Some(NegativeValue) <==> checks.size && !checks.value)
        && (r == Some(GasLimit) <==> checks.size && checks.value && tx.gas > maxGas)
        && (r == Some(InvalidSender) <==> checks.size && checks.value && tx.gas <= maxGas && !checks.signature)
        && (r == Some(Underpriced) <==> fits && !paid)
        && (r == Some(NonceTooLow) <==> fits && paid && !next)
        && (r == Some(InsufficientFunds) <==> fits && paid && next && !funds)
        && (r == Some(OutOfGas) <==> fits && paid && next && funds && !checks.gasCountable)
        && (r == Some(IntrinsicGas) <==> fits && paid && next && funds && checks.gasCountable && !checks.intrinsicGas)
    {
      Judged(Rules(), locals, tx, local, checks)
    }

    /** Remove transactions that the price heap has already given up. */
    method RemoveAll(drop: seq<Tx>, ghost dirty: set<Address>)
      requires Coherent(all, pending, queue) && Shaped(pending, true) && Shaped(queue, false)
      requires NoEmptyList(pending) && NoEmptyList(queue) && priced.Tracks(all - SetOf(drop))
      modifies this`pending, this`queue, this`all, this`beats, this`pnonce, priced
      ensures Core() && NoEmptyList(pending) && NoEmptyList(queue) && all == old(all) - SetOf(drop)
      ensures old(AllRun(pending, pnonce, state)) ==> AllRun(pending, pnonce, state)
      ensures AllDone(old(queue), old(pnonce), state, dirty) ==> AllDone(queue, pnonce, state, dirty)
    {
      hide Coherent, Shaped, NoEmptyList, SameBut, SameNonces, AllRun, AllDone, RunAt, DoneAt, IsHeap, SetOf;
      SetOfSplit(drop, 0);
      for i := 0 to |drop|
        invariant Coherent(all, pending, queue) && Shaped(pending, true) && Shaped(queue, false)
        invariant NoEmptyList(pending) && NoEmptyList(queue) && priced.Tracks(all - SetOf(drop[i..]))
        invariant all == old(all) - SetOf(drop[..i])
        invariant old(AllRun(pending, pnonce, state)) ==> AllRun(pending, pnonce, state)
        invariant AllDone(old(queue), old(pnonce), state, dirty) ==> AllDone(queue, pnonce, state, dirty)
      {
        ghost var p, q, pn, a := pending, queue, pnonce, drop[i].sender;
        RemoveTx(drop[i], false, SetOf(drop[i..]));
        SetOfSplit(drop, i);
        if old(AllRun(pending, pnonce, state)) {
          RunEach(p, pn, state, a);
          RunStep(p, pending, pn, pnonce, state, a);
        }
        if AllDone(old(queue), old(pnonce), state, dirty) {
          if a !in dirty {
            DoneEach(q, pn, state, a, dirty);
          }
          DoneStep(q, queue, pn, pnonce, state, a, dirty, dirty);
        }
      }
      SetOfSplit(drop, |drop|);
    }

    /** A new transaction takes the place of a pending one. */
    method ReplaceInPending(tx: Tx) returns (ok: bool)
      requires Core() && NoEmptyList(pending) && tx !in all && tx.sender in pending
      requires tx.nonce in pending[tx.sender].items
      modifies this`pending, this`all, priced
      ensures Core() && NoEmptyList(pending)
      ensures ok <==> Outbids(tx, old(pending)[tx.sender].items[tx.nonce], config.priceBump)
      ensures !ok ==> pending == old(pending) && all == old(all) && unchanged(priced)
      ensures ok ==> all == old(all) - {old(pending)[tx.sender].items[tx.nonce]} + {tx}
      ensures ok ==> SameBut(old(pending), pending, tx.sender)
      ensures ok ==> ItemsOf(pending, tx.sender) == ItemsOf(old(pending), tx.sender)[tx.nonce := tx]
      ensures old(AllRun(pending, pnonce, state)) ==> AllRun(pending, pnonce, state)
    {
      hide Coherent, Shaped, NoEmptyList, SameBut, AllRun, IsHeap, Outbids;
      PendingFiled(all, pending, queue, tx.sender);
      var l := pending[tx.sender];
      if !Outbids(tx, l.items[tx.nonce], config.priceBump) {
        return false;
      }
      var l' := Added(l, tx);
      ShapedAdd(pending, true, tx.sender, tx);
      AdmitPending(all, pending, queue, tx, l');
      SameButUpdate(pending, tx.sender, l');
      NoEmptyAdmit(pending, pending[tx.sender := l'], tx);
      AdmitRun(pending, pending[tx.sender := l'], pnonce, state, tx);
      pending := pending[tx.sender := l'];
      all := all - {l.items[tx.nonce]};
      priced.Removed(all);
      all := all + {tx};
      priced.Put(tx);
      ok := true;
    }

    /** A new transaction goes to the queue. */
    method EnqueueNew(tx: Tx, ghost dirty: set<Address>) returns (ok: bool, replaced: bool)
      requires Core() && NoEmptyList(queue) && tx !in all && tx.nonce !in ItemsOf(pending, tx.sender)
      modifies this`queue, this`all, priced
      ensures Core() && NoEmptyList(queue) && SameBut(old(queue), queue, tx.sender)
      ensures
        var q := ItemsOf(old(queue), tx.sender);
        && (ok <==> (tx.nonce in q ==> Outbids(tx, q[tx.nonce], config.priceBump)))
        && (replaced <==> ok && tx.nonce in q)
        && (ok ==> ItemsOf(queue, tx.sender) == q[tx.nonce := tx])
        && (ok ==> all == (if tx.nonce in q then old(all) - {q[tx.nonce]} else old(all)) + {tx})
      ensures !ok ==> queue == old(queue) && all == old(all)
      ensures AllDone(old(queue), pnonce, state, dirty) ==>
                AllDone(queue, pnonce, state, if ok && !replaced then dirty + {tx.sender} else dirty)
    {
      hide Coherent, Shaped, NoEmptyList, SameBut, AllDone, IsHeap, Outbids;
      AccountOf(all, pending, queue, tx.sender);
      ok, replaced := EnqueueTx(tx);
      if ok {
        AdmitQueued(old(all), all, pending, old(queue), queue, tx);
        NoEmptyAdmit(old(queue), queue, tx);
        AdmitDone(old(queue), queue, pnonce, state, tx, dirty);
      }
    }

    /** A full pool gives up its cheapest remote transactions. */
    method GiveUp(ghost dirty: set<Address>)
      requires Core() && NoEmptyList(pending) && NoEmptyList(queue) && 1 <= config.globalSlots && |all| >= Limit(config)
      modifies this`pending, this`queue, this`all, this`beats, this`pnonce, priced
      ensures Core() && NoEmptyList(pending) && NoEmptyList(queue)
      ensures all <= old(all) && RoomMade(Rules(), old(View()), View())
      ensures OnceEach(old(all), locals, old(priced.items)) ==>
                |all| + 1 == Limit(config) || OnlyLocal(all, locals)
      ensures old(AllRun(pending, pnonce, state)) ==> AllRun(pending, pnonce, state)
      ensures AllDone(old(queue), old(pnonce), state, dirty) ==> AllDone(queue, pnonce, state, dirty)
    {
      hide Coherent, Shaped, NoEmptyList, AllRun, AllDone, IsHeap, PriceLess, Bounded, OnceEach, OnlyLocal, RoomMade;
      var drop := priced.Discard(|all| - (config.globalSlots + config.globalQueue - 1), all, locals);
      EnoughRoom(drop, old(priced.items), all, locals, Limit(config));
      RemoveAll(drop, dirty);
      GaveUp(Rules(), old(View()), View(), drop);
    }

    /** A full pool turns an underpriced transaction away, or gives up its cheapest remote ones. */
    method MakeRoom(tx: Tx, local: bool, ghost dirty: set<Address>) returns (ok: bool)
      requires Core() && NoEmptyList(pending) && NoEmptyList(queue) && 1 <= config.globalSlots && tx !in all
      modifies this`pending, this`queue, this`all, this`beats, this`pnonce, priced
      ensures Core() && NoEmptyList(pending) && NoEmptyList(queue) && all <= old(all)
      ensures ok <==> !TooCheap(Rules(), old(View()), tx, local)
      ensures !ok <==>
                && |old(all)| >= config.globalSlots + config.globalQueue && !local && tx.sender !in locals
                && forall t :: t in old(all) ==> tx.price <= t.price
      ensures ok ==> RoomMade(Rules(), old(View()), View())
      ensures forall d :: d in old(all) && d !in all ==> d.sender !in locals
      ensures forall d, t :: d in old(all) && d !in all && t in all && t.sender !in locals ==>
                d.price < t.price || (d.price == t.price && d.nonce >= t.nonce)
      ensures
        var limit := config.globalSlots + config.globalQueue;
        var kept := old(Bounded(all, locals, limit)) || OnceEach(old(all), locals, old(priced.items));
        ok && |old(all)| >= limit && kept ==> |all| == limit - 1 || forall t :: t in all ==> t.sender in locals
      ensures !ok || |old(all)| < Limit(config) ==> View() == old(View()) && beats == old(beats)
      ensures old(AllRun(pending, pnonce, state)) ==> AllRun(pending, pnonce, state)
      ensures AllDone(old(queue), old(pnonce), state, dirty) ==> AllDone(queue, pnonce, state, dirty)
    {
      hide Coherent, Shaped, NoEmptyList, AllRun, AllDone, IsHeap, PriceLess, Bounded, OnceEach, OnlyLocal, RoomMade;
      NoRoomNeeded(Rules(), View());
      if |all| < config.globalSlots + config.globalQueue {
        return true;
      }
      if !local {
        var under := priced.Underpriced(tx, all, locals);
        if under {
          return false;
        }
      }
      FewerEntries(all, locals, old(priced.items), priced.items);
      GiveUp(dirty);
      CheapestFirst(Rules(), old(View()), View());
      LocalMeans(all, locals);
      ok := true;
    }

    /** The end of `add`: replace a pending transaction or enqueue. */
    method Insert(tx: Tx, local: bool, ghost dirty: set<Address>) returns (r: Verdict)
      requires Core() && NoEmptyList(pending) && NoEmptyList(queue) && tx !in all
      modifies this`pending, this`queue, this`all, this`locals, priced
      ensures Core() && NoEmptyList(pending) && NoEmptyList(queue)
      ensures Inserted(config.priceBump, old(View()), View(), tx, local, r)
      ensures r.Rejected? ==> r == Rejected(ReplaceUnderpriced)
      ensures old(AllRun(pending, pnonce, state)) ==> AllRun(pending, pnonce, state)
      ensures AllDone(old(queue), pnonce, state, dirty) ==>
                AllDone(queue, pnonce, state, if r == Accepted(false) then dirty + {tx.sender} else dirty)
    {
      hide Coherent, Shaped, NoEmptyList, AllRun, AllDone, IsHeap, Outbids, SameBut;
      if tx.sender in pending && tx.nonce in pending[tx.sender].items {
        var inserted := ReplaceInPending(tx);
        r := if inserted then Accepted(true) else Rejected(ReplaceUnderpriced);
      } else {
        var inserted, replaced := EnqueueNew(tx, dirty);
        if inserted && local {
          locals := locals + {tx.sender};
        }
        r := if inserted then Accepted(replaced) else Rejected(ReplaceUnderpriced);
      }
    }

    /** The body of `add`. */
    method Consider(tx: Tx, local: bool, checks: TxChecks, ghost dirty: set<Address>)
      returns (r: Verdict, ghost room: Snapshot)
      requires Core() && NoEmptyList(pending) && NoEmptyList(queue) && 1 <= config.globalSlots
      modifies this`pending, this`queue, this`all, this`beats, this`pnonce, this`locals, priced
      ensures Core() && NoEmptyList(pending) && NoEmptyList(queue)
      ensures Offer(Rules(), old(View()), room, View(), tx, local, checks, r)
      ensures all <= old(all) + {tx} && old(locals) <= locals <= old(locals) + {tx.sender}
      ensures !local ==> locals == old(locals)
      ensures tx in old(all) || old(Validate(tx, local, checks)).Some? || r == Rejected(Underpriced) ==>
                View() == old(View()) && beats == old(beats)
      ensures LocalsKept(old(all), all, old(locals), tx)
      ensures old(AllRun(pending, pnonce, state)) ==> AllRun(pending, pnonce, state)
      ensures AllDone(old(queue), old(pnonce), state, dirty) ==>
                AllDone(queue, pnonce, state, if r == Accepted(false) then dirty + {tx.sender} else dirty)
      ensures old(Payable(all, state, maxGas)) ==> Payable(all, state, maxGas)
    {
      hide Coherent, Shaped, NoEmptyList, AllRun, AllDone, IsHeap, Payable, TxPayable, LocalsKept, RoomMade, Inserted,
        TooCheap;
      room := View();
      KeptStart(all, locals, tx);
      if tx in all {
        return Rejected(Known), room;
      }
      var v := Validate(tx, local, checks);
      if v.Some? {
        return Rejected(v.value), room;
      }
      var ok := MakeRoom(tx, local, dirty);
      room := View();
      if !ok {
        return Rejected(Underpriced), room;
      }
      r := Insert(tx, local, dirty);
      OfferKeeps(Rules(), old(View()), room, View(), tx, local, checks, r);
    }

    /** `add`; `room` is the pool after a full one has made room. */
    method Add(tx: Tx, local: bool, checks: TxChecks, ghost dirty: set<Address>)
      returns (r: Verdict, ghost room: Snapshot)
      requires Core() && NoEmptyList(pending) && NoEmptyList(queue) && 1 <= config.globalSlots
      modifies this`pending, this`queue, this`all, this`beats, this`pnonce, this`locals, priced
      ensures Core() && NoEmptyList(pending) && NoEmptyList(queue)
      ensures Offer(Rules(), old(View()), room, View(), tx, local, checks, r)
      ensures all <= old(all) + {tx} && old(locals) <= locals <= old(locals) + {tx.sender}
      ensures !local ==> locals == old(locals)
      ensures AddRule(config, old(View()), room, View(), tx, local, old(Validate(tx, local, checks)), r)
      ensures tx in old(all) || old(Validate(tx, local, checks)).Some? || r == Rejected(Underpriced) ==>
                View() == old(View()) && beats == old(beats)
      ensures LocalsKept(old(all), all, old(locals), tx)
      ensures old(AllRun(pending, pnonce, state)) ==> AllRun(pending, pnonce, state)
      ensures AllDone(old(queue), old(pnonce), state, dirty) ==>
                AllDone(queue, pnonce, state, if r == Accepted(false) then dirty + {tx.sender} else dirty)
      ensures old(Payable(all, state, maxGas)) ==> Payable(all, state, maxGas)
    {
      hide Coherent, Shaped, NoEmptyList, AllRun, AllDone, IsHeap, Payable, LocalsKept, Offer, AddRule, Judged;
      r, room := Consider(tx, local, checks, dirty);
      AddRuled(Rules(), old(View()), room, View(), tx, local, checks, r);
    }

    /** `addTx`. */
    method AddTx(tx: Tx, local: bool, checks: TxChecks, now: nat) returns (r: Verdict, ghost b: Batch)
      requires Valid()
      modifies this`pending, this`queue, this`all, this`beats, this`pnonce, this`locals, priced
      ensures Valid() && (old(Live()) ==> Live()) && all <= old(all) + {tx}
      ensures Batched(Rules(), b, old(View()), View(), [(tx, checks)], local, beats) && b.verdicts == [r]
      ensures r == Accepted(false) ==> PendingLimited() && QueueLimited()
      ensures r != Accepted(false) ==> View() == b.stages[1]
      ensures LocalsKept(old(all), all, old(locals), tx)
      ensures forall t :: t in old(all) && t !in all ==> Lapsed(Rules(), b, View(), [(tx, checks)], 0, t)
    {
      hide Coherent, Shaped, NoEmptyList, AllRun, AllDone, IsHeap, Payable, ListsPayable, LocalsKept, Spares, Offer,
        Pass, Bounded, Lapsed, Offered, Dirty, AddRule;
      ghost var room;
      r, room := Add(tx, local, checks, {});
      ghost var added := View();
      b := Batch([old(View()), added], [room], [r], added, 0);
      OfferedOnce(Rules(), b, tx, checks, local);
      if r == Accepted(false) {
        assert {} + {tx.sender} == {tx.sender};
        PooledPayable(all, pending, queue, state, maxGas);
        PayableBut(queue, state, maxGas, {tx.sender});
        ghost var mid, level := PromoteExecutables(Some({tx.sender}), now);
        OfferedEnds(Rules(), b, [(tx, checks)], local, mid, level);
        b := b.(mid := mid, level := level);
        PooledPayable(all, pending, queue, state, maxGas);
        KeptSpared(old(all), added.all, all, old(locals), locals, tx, state, maxGas);
      }
      BatchAccounts(Rules(), b, old(View()), View(), [(tx, checks)], local, beats);
    }

    /** Offer all transactions in turn; the senders of those that replaced nothing are dirty. */
    method OfferAll(txs: seq<(Tx, TxChecks)>, local: bool)
      returns (verdicts: seq<Verdict>, dirty: set<Address>, ghost b: Batch)
      requires Core() && NoEmptyList(pending) && NoEmptyList(queue) && config.Sane()
      modifies this`pending, this`queue, this`all, this`beats, this`pnonce, this`locals, priced
      ensures Core() && NoEmptyList(pending) && NoEmptyList(queue)
      ensures Offered(Rules(), b, txs, local) && |b.stages| == |txs| + 1 && b.verdicts == verdicts
      ensures b.stages[0] == old(View()) && b.stages[|txs|] == View() && |verdicts| == |txs|
      ensures dirty == Dirty(txs, verdicts) && (!local ==> locals == old(locals)) && (txs == [] ==> dirty == {})
      ensures old(Payable(all, state, maxGas)) ==> Payable(all, state, maxGas)
      ensures old(AllRun(pending, pnonce, state)) ==> AllRun(pending, pnonce, state)
      ensures AllDone(old(queue), old(pnonce), state, {}) ==> AllDone(queue, pnonce, state, dirty)
    {
      hide Coherent, Shaped, NoEmptyList, AllRun, AllDone, IsHeap, Payable, Offer, LocalsKept, Offered, Dirty, AddRule;
      dirty, verdicts := {}, [];
      b := Batch([View()], [], [], View(), 0);
      OfferedNone(Rules(), b, txs, local);
      for i := 0 to |txs|
        invariant Core() && NoEmptyList(pending) && NoEmptyList(queue)
        invariant Offered(Rules(), b, txs[..i], local) && |b.stages| == i + 1
        invariant b.stages[0] == old(View()) && b.stages[i] == View() && |verdicts| == i
        invariant (!local ==> locals == old(locals)) && (i == 0 ==> dirty == {})
        invariant b.verdicts == verdicts && dirty == Dirty(txs[..i], verdicts)
        invariant old(Payable(all, state, maxGas)) ==> Payable(all, state, maxGas)
        invariant old(AllRun(pending, pnonce, state)) ==> AllRun(pending, pnonce, state)
        invariant AllDone(old(queue), old(pnonce), state, {}) ==> AllDone(queue, pnonce, state, dirty)
      {
        ghost var room;
        var r;
        r, room := Add(txs[i].0, local, txs[i].1, dirty);
        OfferedMore(Rules(), b, txs, i, local, room, View(), r);
        b := b.(stages := b.stages + [View()], rooms := b.rooms + [room], verdicts := b.verdicts + [r]);
        verdicts := verdicts + [r];
        if r == Accepted(false) {
          dirty := dirty + {txs[i].0.sender};
        }
      }
      assert txs[..|txs|] == txs;
    }

    /** `addTxsLocked`. */
    method AddTxs(txs: seq<(Tx, TxChecks)>, local: bool, now: nat) returns (verdicts: seq<Verdict>, ghost b: Batch)
      requires Core() && NoEmptyList(pending) && NoEmptyList(queue) && config.Sane()
      modifies this`pending, this`queue, this`all, this`beats, this`pnonce, this`locals, priced
      ensures Core() && NoEmptyList(pending) && NoEmptyList(queue)
      ensures Batched(Rules(), b, old(View()), View(), txs, local, beats) && b.verdicts == verdicts
      ensures old(Payable(all, state, maxGas)) ==> Payable(all, state, maxGas)
      ensures old(AllRun(pending, pnonce, state)) ==> AllRun(pending, pnonce, state)
      ensures old(Live()) ==> Live()
      ensures txs == [] ==> View() == old(View())
      ensures |b.stages| == |txs| + 1 && |verdicts| == |txs|
      ensures NoneNew(verdicts) ==> View() == b.stages[|txs|]
      ensures all <= old(all) + Txs(txs) && old(locals) <= locals && (!local ==> locals == old(locals))
      ensures old(Bounded(all, locals, Limit(config))) ==> Bounded(all, locals, Limit(config))
      ensures forall i, t :: 0 <= i <= |txs| && t in b.stages[i].all && t !in all ==>
                Lapsed(Rules(), b, View(), txs, i, t)
    {
      hide Coherent, Shaped, NoEmptyList, AllRun, AllDone, IsHeap, Payable, ListsPayable, Pass, Offered, Dirty, Bounded,
        Lapsed, Txs, NoneNew;
      var dirty;
      verdicts, dirty, b := OfferAll(txs, local);
      if dirty != {} {
        PooledPayable(all, pending, queue, state, maxGas);
        if Payable(all, state, maxGas) {
          PayableBut(queue, state, maxGas, dirty);
        }
        ghost var mid, level := PromoteExecutables(Some(dirty), now);
        OfferedEnds(Rules(), b, txs, local, mid, level);
        b := b.(mid := mid, level := level);
        PooledPayable(all, pending, queue, state, maxGas);
      }
      BatchAccounts(Rules(), b, old(View()), View(), txs, local, beats);
    }

    // ----- following the chain -----

    /** One round of `demoteUnexecutables`. */
    method DemoteAccount(a: Address)
      requires Core() && NoEmptyList(pending) && NoEmptyList(queue) && a in pending
      modifies this`pending, this`queue, this`all, this`beats, priced
      ensures Core() && NoEmptyList(pending) && NoEmptyList(queue) && all <= old(all)
      ensures SparesAll(old(all), all, state, maxGas)
      ensures SameBut(old(pending), pending, a) && SameBut(old(queue), queue, a)
      ensures ItemsPayable(ItemsOf(pending, a), state, maxGas) && StartsAt(ItemsOf(pending, a), state.nonce(a))
      ensures Convex(old(pending)[a].items) ==> Convex(ItemsOf(pending, a))
      ensures DemotedAt(old(pending), old(queue), pending, queue, state, maxGas, a)
    {
      hide FrontPart, PayableItems;
      hide Coherent, Shaped, NoEmptyList, NoEmptyBut, SameBut, IsHeap, Splits, CapsCover, TxsOf, ItemsPayable, Convex,
        SparesAll;
      ShapedAt(pending, true, a);
      NoEmptyAll(pending, a);
      CleanPending(a);
      NoEmptyStep(old(pending), pending, a);
      ghost var p1, q1 := pending, queue;
      DemotedParts(old(pending)[a].items, state.nonce(a), state, maxGas, ItemsOf(old(queue), a));
      DropGap(a);
      SameButTrans(old(pending), p1, pending, a);
      SameButTrans(old(queue), q1, queue, a);
      NoEmptyStep(old(pending), pending, a);
      if pending[a].items == map[] {
        ghost var p2 := pending;
        CoherentIsBut(all, pending, queue, a);
        DropEmptyPending(a, map[]);
        CoherentIsBut(all, pending, queue, a);
        SameButTrans(old(pending), p2, pending, a);
      }
      NoEmptyStep(old(pending), pending, a);
    }

    /** Nothing pending is executable if the first nonce is missing: queue it all. */
    method DropGap(a: Address)
      requires Core() && NoEmptyList(queue) && a in pending && ItemsPayable(pending[a].items, state, maxGas)
      requires forall n :: n in pending[a].items ==> state.nonce(a) <= n
      modifies this`pending, this`queue, this`all, priced
      ensures Core() && NoEmptyList(queue) && all == old(all) && SameBut(old(pending), pending, a)
      ensures SameBut(old(queue), queue, a)
      ensures a in pending && ItemsPayable(pending[a].items, state, maxGas)
      ensures StartsAt(pending[a].items, state.nonce(a))
      ensures Convex(old(pending)[a].items) ==> Convex(pending[a].items)
      ensures
        var m := old(pending)[a].items;
        if m != map[] && state.nonce(a) !in m then
          pending[a].items == map[] && ItemsOf(queue, a) == ItemsOf(old(queue), a) + m
        else pending == old(pending) && queue == old(queue)
    {
      hide Coherent, Shaped, NoEmptyList, SameBut, Splits, CapsCover, TxsOf, ItemsPayable, Convex;
      SameButTrans(pending, pending, pending, a);
      SameButTrans(queue, queue, queue, a);
      if pending[a].items != map[] && state.nonce(a) !in pending[a].items {
        var l := pending[a];
        ShapedAt(pending, true, a);
        NoneSplits(l.items);
        CapsSub(l, CappedList(l, 0));
        NoTxs(all);
        DropPending(a, CappedList(l, 0), l.items, map[], l.items);
        NoEmptyJoin(old(queue), queue, a, l.items);
        PayableNone(state, maxGas);
        ConvexNone();
      }
    }

    /** Drop the pending transactions that are too old or unpayable, queueing what they strand. */
    method CleanPending(a: Address)
      requires Core() && NoEmptyList(queue) && a in pending
      modifies this`pending, this`queue, this`all, priced
      ensures Core() && NoEmptyList(queue) && all <= old(all) && SparesAll(old(all), all, state, maxGas)
      ensures SameBut(old(pending), pending, a) && SameBut(old(queue), queue, a) && a in pending
      ensures ItemsPayable(pending[a].items, state, maxGas) && forall n :: n in pending[a].items ==> state.nonce(a) <= n
      ensures Convex(old(pending)[a].items) ==> Convex(pending[a].items)
      ensures
        var m := old(pending)[a].items;
        var front := FrontPart(m, state.nonce(a), state, maxGas);
        && pending[a].items == front
        && ItemsOf(queue, a) == ItemsOf(old(queue), a) + (PayableItems(m, state, maxGas) - front.Keys)
    {
      hide FrontPart, PayableItems;
      hide Coherent, Shaped, NoEmptyList, SameBut, IsHeap, Splits, CapsCover, TxsOf, ItemsPayable, Convex, Filter,
        SparesAll, TxPayable;
      var l0 := pending[a];
      var l1, low := Forwarded(l0, state.nonce(a)), Under(l0.items, state.nonce(a));
      ShapedAt(pending, true, a);
      PendingFiled(all, pending, queue, a);
      CleanedPending(l0, state, maxGas, a);
      CleanedGone(l0, state, maxGas, a);
      NoneSplits(low);
      SparesAllItems(all, low, state, maxGas);
      DropPending(a, l1, low, low, map[]);
      NoEmptyJoin(old(queue), queue, a, map[]);
      ghost var p1, q1, txs := pending, queue, all;
      var f := Filter(l1, state.balance(a), maxGas);
      SparesAllItems(all, f.removed, state, maxGas);
      CleanedFront(l0, state, maxGas, a);
      DropPending(a, f.list, f.removed + f.invalids, f.removed, f.invalids);
      PlusNone(ItemsOf(old(queue), a));
      SparesAllTrans(old(all), txs, all, state, maxGas);
      NoEmptyJoin(q1, queue, a, f.invalids);
      SameButTrans(old(pending), p1, pending, a);
      SameButTrans(old(queue), q1, queue, a);
    }

    /** `demoteUnexecutables`. */
    method DemoteUnexecutables()
      requires Core() && NoEmptyList(pending) && NoEmptyList(queue)
      modifies this`pending, this`queue, this`all, this`beats, priced
      ensures Core() && NoEmptyList(pending) && NoEmptyList(queue) && all <= old(all)
      ensures SparesAll(old(all), all, state, maxGas)
      ensures ListsPayable(pending, state, maxGas, {}) && AllStart(pending, state, {})
      ensures AllConvex(old(pending)) ==> AllConvex(pending)
      ensures DemotedBut(old(pending), old(queue), pending, queue, state, maxGas, {})
    {
      hide Coherent, Shaped, NoEmptyList, SameBut, IsHeap, ItemsPayable, ListsPayable, StartsAt, AllStart, Convex,
        AllConvex, SparesAll, DemotedAt, DemotedBut;
      SparesAllTrans(all, all, all, state, maxGas);
      DemotedStart(pending, queue, state, maxGas);
      var rest := pending.Keys;
      DemoteStart(pending, state, maxGas);
      while rest != {}
        invariant Core() && NoEmptyList(pending) && NoEmptyList(queue) && all <= old(all)
        invariant SparesAll(old(all), all, state, maxGas)
        invariant rest <= pending.Keys
        invariant ListsPayable(pending, state, maxGas, rest) && AllStart(pending, state, rest)
        invariant DemotedBut(old(pending), old(queue), pending, queue, state, maxGas, rest)
        invariant AllConvex(old(pending)) ==> AllConvex(pending)
        decreases |rest|
      {
        var a :| a in rest;
        ghost var p, q, txs := pending, queue, all;
        DemoteAccount(a);
        DemotedStep(old(pending), old(queue), p, q, pending, queue, state, maxGas, rest, a);
        SparesAllTrans(old(all), txs, all, state, maxGas);
        PayableStep(p, pending, state, maxGas, a, rest, rest - {a});
        StartStep(p, pending, state, a, rest);
        if AllConvex(old(pending)) {
          ConvexEach(p, a);
          ConvexStep(p, pending, a);
        }
        KeysBut(p, pending, a, rest);
        rest := rest - {a};
      }
    }

    /** Move the virtual nonce of every pending account past its last transaction. */
    method UpdateNonces()
      requires NoEmptyList(pending)
      modifies this`pnonce
      ensures NonceSet(pending, old(pnonce), pnonce, {})
    {
      hide NonceSet;
      var rest := pending.Keys;
      NonceStart(pending, pnonce);
      while rest != {}
        invariant rest <= pending.Keys && NonceSet(pending, old(pnonce), pnonce, rest)
        decreases |rest|
      {
        var a :| a in rest;
        NonceStep(pending, old(pnonce), pnonce, rest, a);
        pnonce := pnonce[a := MaxKey(pending[a].items) + 1];
        rest := rest - {a};
      }
    }

    /** The end of `reset`: demote, renumber, promote. */
    method Revalidate(now: nat) returns (ghost start: Snapshot, ghost mid: Snapshot, ghost level: nat)
      requires Core() && NoEmptyList(pending) && NoEmptyList(queue) && config.Sane()
      requires Bounded(all, locals, Limit(config))
      modifies this`pending, this`queue, this`all, this`beats, this`pnonce, priced
      ensures Valid() && PendingLimited() && QueueLimited()
      ensures Revalidated(Rules(), old(View()), start, mid, View(), beats, level)
      ensures all <= old(all) && Spares(old(all), all, locals, state, maxGas)
      ensures forall t :: t in old(all) && t !in all ==> Dismissed(Rules(), start, mid, View(), t)
      ensures old(Settled(pending, pnonce, state, maxGas)) ==> Live()
    {
      hide Coherent, Shaped, NoEmptyList, IsHeap, Payable, ListsPayable, AllRun, AllDone, AllConvex, AllStart, NonceSet,
        Spares, SparesAll, DemotedBut, Settled, Pass, Dismissed, PendingLimited, QueueLimited, Bounded;
      DemoteUnexecutables();
      UpdateNonces();
      start := View();
      SettledRuns(old(pending), old(queue), old(pnonce), pending, queue, pnonce, state, maxGas);
      AllButKeys(queue, pnonce, state, maxGas);
      mid, level := PromoteExecutables(None, now);
      SparesFromAll(old(all), start.all, locals, state, maxGas);
      SparesTrans(old(all), start.all, all, locals, state, maxGas);
      PooledPayable(all, pending, queue, state, maxGas);
      RevalidatedLoses(Rules(), old(View()), start, mid, View(), beats, level);
      BoundedLess(old(all), locals, all, locals, Limit(config));
    }

    /**
     `reset` once the transactions to reinject are known; `newState` is absent when the state of the head cannot
     be loaded.
     */
    method ResetState(newState: Option<ChainState>, newMaxGas: nat, reinject: seq<(Tx, TxChecks)>, now: nat)
      returns (ghost c: Course)
      requires Valid()
      modifies this
      modifies priced
      ensures Valid()
      ensures newState.None? ==> View() == old(View()) && Rules() == old(Rules()) && (old(Live()) ==> Live())
      ensures newState.Some? ==>
                && Rules() == old(Rules()).(state := newState.value, maxGas := newMaxGas)
                && Followed(Rules(), c, old(View()), View(), reinject, beats) && PendingLimited() && QueueLimited()
                && ResetExplained(Rules(), c, old(View()), View(), reinject)
      ensures locals == old(locals) && gasPrice == old(gasPrice)
      ensures newState.Some? && Settled(c.added.pending, c.added.pnonce, state, maxGas) ==> Live()
      ensures reinject == [] && newState.Some? ==> c.added == old(View()).(pnonce := map[])
      ensures reinject == [] && old(Live()) ==> Live()
      ensures reinject == [] ==> all <= old(all) && Spares(old(all), all, locals, state, maxGas)
    {
      hide Coherent, Shaped, NoEmptyList, IsHeap, Payable, ListsPayable, AllRun, AllDone, AllConvex, Spares, Settled,
        PendingLimited, QueueLimited, Batched, Revalidated, Lapsed, Dismissed, Bounded, Txs, ResetExplained;
      SparesTrans(all, all, all, locals, state, maxGas);
      c := Course(Batch([], [], [], View(), 0), beats, View(), View(), View(), 0);
      if newState.None? {
        return;
      }
      if old(Live()) {
        RunsAreConvex(pending, pnonce, state);
        GaplessSettles(pending, newState.value, newMaxGas);
      }
      state, pnonce, maxGas := newState.value, map[], newMaxGas;
      ghost var b, start, mid, level;
      var verdicts;
      verdicts, b := AddTxs(reinject, false, now);
      ghost var beats1, added := beats, View();
      start, mid, level := Revalidate(now);
      c := Course(b, beats1, added, start, mid, level);
      ResetAccounts(Rules(), c, old(View()), View(), reinject, beats);
    }

    /** `reset` from one head to another: what only the abandoned branch holds is reinjected. */
    method Reset(t: ChainTree.Tree, g: ChainTree.Hash, oldHead: Option<ChainTree.Hash>, newHead: ChainTree.Hash,
                 check: Tx -> TxChecks, newState: Option<ChainState>, newMaxGas: nat, now: nat)
      returns (ghost c: Course, ghost reinject: seq<Tx>)
      requires Valid() && HeadsKnown(t, g, oldHead, newHead)
      modifies this
      modifies priced
      ensures Valid() && Reinjects(t, g, oldHead, newHead, reinject) && (oldHead.None? ==> reinject == [])
      ensures oldHead.Some? ==>
                var x, y := t[oldHead.value].number, t[newHead].number;
                if oldHead.value == t[newHead].parent || x > y + 64 || y > x + 64 then reinject == []
                else forall tx :: tx in reinject <==>
                       && Forks.OnlyOn(t, g, oldHead.value, newHead, tx)
                       && !Forks.OnlyOn(t, g, newHead, oldHead.value, tx)
      ensures newState.None? ==> View() == old(View()) && Rules() == old(Rules()) && (old(Live()) ==> Live())
      ensures newState.Some? ==>
                && Rules() == old(Rules()).(state := newState.value, maxGas := newMaxGas)
                && Followed(Rules(), c, old(View()), View(), Checked(reinject, check), beats)
                && PendingLimited() && QueueLimited() && all <= old(all) + SetOf(reinject)
                && ResetExplained(Rules(), c, old(View()), View(), Checked(reinject, check))
      ensures locals == old(locals) && gasPrice == old(gasPrice)
      ensures newState.Some? && Settled(c.added.pending, c.added.pnonce, state, maxGas) ==> Live()
      ensures Reinjects(t, g, oldHead, newHead, []) ==> reinject == []
      ensures reinject == [] && old(Live()) ==> Live()
      ensures reinject == [] ==> all <= old(all) && Spares(old(all), all, locals, state, maxGas)
    {
      hide Core, Payable, AllRun, AllDone, Spares, Settled, PendingLimited, QueueLimited, Followed, Gone, Bounded, Free;
      var txs: seq<Tx> := [];
      if oldHead.Some? {
        txs := Forks.Reinjected(t, g, oldHead.value, newHead);
      }
      reinject := txs;
      if Reinjects(t, g, oldHead, newHead, []) && oldHead.Some? {
        Forks.AbandonedUnique(t, g, oldHead.value, newHead, [], txs);
      }
      c := ResetState(newState, newMaxGas, Checked(txs, check), now);
      CheckedTxs(txs, check);
    }

    /** `SetGasPrice`: raise the price limit and drop the remote transactions below it. */
    method SetGasPrice(price: nat)
      requires Valid()
      modifies this`gasPrice, this`pending, this`queue, this`all, this`beats, this`pnonce, priced
      ensures Valid() && (old(Live()) ==> Live()) && gasPrice == price
      ensures forall t :: t in all <==> t in old(all) && !(t.sender !in locals && t.price < price)
    {
      hide Coherent, Shaped, NoEmptyList, IsHeap, Payable, AllRun, AllDone;
      gasPrice := price;
      var drop := priced.Cap(price, all, locals);
      RemoveAll(drop, {});
      PayableShrinks(old(all), all, state, maxGas);
      BoundedLess(old(all), locals, all, locals, Limit(config));
    }

    /** The eviction loop: accounts silent for longer than `lifetime` lose what they have queued. */
    method Evict(now: nat, lifetime: nat)
      requires Valid()
      modifies this`pending, this`queue, this`all, this`beats, this`pnonce, priced
      ensures Valid() && (old(Live()) ==> Live())
      ensures pending == old(pending) && pnonce == old(pnonce)
      ensures forall a :: ItemsOf(queue, a) != ItemsOf(old(queue), a) ==> ItemsOf(queue, a) == map[] && a !in locals
      ensures forall a :: a !in locals && a in old(beats) ==>
                ItemsOf(queue, a) == if now > old(beats)[a] + lifetime then map[] else ItemsOf(old(queue), a)
      ensures forall a :: a !in locals && a !in old(beats) && lifetime < 0x7FFF_FFFF_FFFF_FFFF ==>
                ItemsOf(queue, a) == map[]
      ensures forall a :: ItemsOf(queue, a) ==
                if a !in locals && Silence(old(beats), a, now) > lifetime then map[] else ItemsOf(old(queue), a)
    {
      hide Coherent, Shaped, NoEmptyList, IsHeap, Payable, AllRun, AllDone, SameBut, Evicted;
      var rest := queue.Keys;
      EvictStart(queue, locals, beats, now, lifetime);
      while rest != {}
        invariant Core() && NoEmptyList(pending) && NoEmptyList(queue) && all <= old(all)
        invariant pending == old(pending) && pnonce == old(pnonce) && beats == old(beats)
        invariant Evicted(old(queue), queue, locals, beats, now, lifetime, rest)
        decreases |rest|
      {
        var a :| a in rest;
        ghost var q := queue;
        if a !in locals && Silence(beats, a, now) > lifetime {
          DropWholeQueue(a);
          EvictStep(old(queue), q, queue, locals, beats, now, lifetime, rest, a);
        } else {
          EvictSkip(old(queue), q, locals, beats, now, lifetime, rest, a);
        }
        rest := rest - {a};
      }
      EvictDone(old(queue), queue, locals, beats, now, lifetime, pnonce, state);
      PayableShrinks(old(all), all, state, maxGas);
      BoundedLess(old(all), locals, all, locals, Limit(config));
    }

    /** One operation, at time `now`. */
    method Apply(op: Op, now: nat)
      requires Valid() && WellPosed(op)
      modifies this
      modifies priced
      ensures Valid()
      ensures ReinjectsNothing(op) && old(Live()) ==> Live()
      ensures StepOf(op, now, old((Rules(), View())), (Rules(), View()))
      ensures gasPrice == if op.OpSetGasPrice? then op.price else old(gasPrice)
      ensures if op.OpReset? && op.newState.Some? then state == op.newState.value && maxGas == op.newMaxGas
              else state == old(state) && maxGas == old(maxGas)
    {
      hide Core, Payable, AllRun, AllDone, Reinjects, Bounded, Batched, Followed, ResetExplained, Lapsed, LocalsKept;
      match op {
        case OpAdd(tx, local, checks) =>
          ghost var b;
          var r;
          r, b := AddTx(tx, local, checks, now);
          assert Took(Rules(), old(View()), View(), [(tx, checks)], local, b, beats);
        case OpAddMany(txs, local) =>
          ghost var b;
          var verdicts;
          verdicts, b := AddTxs(txs, local, now);
          assert Took(Rules(), old(View()), View(), txs, local, b, beats);
        case OpReset(t, g, oldHead, newHead, check, newState, newMaxGas) =>
          ghost var c, reinject := Reset(t, g, oldHead, newHead, check, newState, newMaxGas, now);
          assert newState.Some? ==>
              Moved(Rules(), old(View()), View(), t, g, oldHead, newHead, check, c, reinject, beats);
        case OpSetGasPrice(price) => SetGasPrice(price);
        case OpEvict(lifetime) =>
          ghost var beats0 := beats;
          Evict(now, lifetime);
          assert Lapsing(old(View()), View(), beats0, now, lifetime);
      }
    }

    /**
     Every run keeps the pool valid; runs whose resets reinject nothing also keep it live. `trace` holds the pool
     before each operation and after the last, and each step of it is what the operation does.
     */
    method Run(ops: seq<Op>, clock: nat -> nat) returns (ghost trace: seq<(Env, Snapshot)>)
      requires Valid() && forall i :: 0 <= i < |ops| ==> WellPosed(ops[i])
      modifies this
      modifies priced
      ensures Valid()
      ensures old(Live()) && (forall i :: 0 <= i < |ops| ==> ReinjectsNothing(ops[i])) ==> Live()
      ensures |trace| == |ops| + 1 && trace[0] == old((Rules(), View())) && trace[|ops|] == (Rules(), View())
      ensures forall i :: 0 <= i < |ops| ==> StepOf(ops[i], clock(i), trace[i], trace[i + 1])
    {
      hide *;
      trace := [(Rules(), View())];
      for i := 0 to |ops|
        invariant Valid()
        invariant old(Live()) && (forall j :: 0 <= j < i ==> ReinjectsNothing(ops[j])) ==> Live()
        invariant |trace| == i + 1 && trace[0] == old((Rules(), View())) && trace[i] == (Rules(), View())
        invariant forall j :: 0 <= j < i ==> StepOf(ops[j], clock(j), trace[j], trace[j + 1])
      {
        Apply(ops[i], clock(i));
        trace := trace + [(Rules(), View())];
      }
    }
  }

  /** Some course of a batch leads from one pool to the other. */
  ghost predicate Took(e: Env, s0: Snapshot, s: Snapshot, txs: seq<(Tx, TxChecks)>, local: bool, b: Batch,
                       beats: map<Address, nat>) {
    Batched(e, b, s0, s, txs, local, beats)
  }

  /** The pool follows the chain from one head to the other. */
  ghost predicate Moved(e: Env, s0: Snapshot, s: Snapshot, t: ChainTree.Tree, g: ChainTree.Hash,
                        oldHead: Option<ChainTree.Hash>, newHead: ChainTree.Hash, check: Tx -> TxChecks, c: Course,
                        reinject: seq<Tx>, beats: map<Address, nat>)
    requires HeadsKnown(t, g, oldHead, newHead)
  {
    Reinjects(t, g, oldHead, newHead, reinject) && Followed(e, c, s0, s, Checked(reinject, check), beats)
  }

  /** The queues of silent remote accounts are gone, and nothing else. */
  ghost predicate Lapsing(s0: Snapshot, s: Snapshot, beats: map<Address, nat>, now: nat, lifetime: nat) {
    && s.pending == s0.pending && s.pnonce == s0.pnonce && s.locals == s0.locals
    && forall a :: ItemsOf(s.queue, a) ==
         if a !in s0.locals && Silence(beats, a, now) > lifetime then map[] else ItemsOf(s0.queue, a)
  }

  /** What an operation does to the contents of a pool and to what it judges by. */
  ghost predicate Happened(op: Op, now: nat, e0: Env, s0: Snapshot, e: Env, s: Snapshot)
    requires WellPosed(op)
  {
    match op
    case OpAdd(tx, local, checks) => e == e0 && exists b, beats :: Took(e, s0, s, [(tx, checks)], local, b, beats)
    case OpAddMany(txs, local) => e == e0 && exists b, beats :: Took(e, s0, s, txs, local, b, beats)
    case OpReset(t, g, oldHead, newHead, check, newState, newMaxGas) =>
      if newState.None? then e == e0 && s == s0
      else
        && e == e0.(state := newState.value, maxGas := newMaxGas)
        && exists c, reinject, beats :: Moved(e, s0, s, t, g, oldHead, newHead, check, c, reinject, beats)
    case OpSetGasPrice(price) =>
      && e == e0.(gasPrice := price) && s.locals == s0.locals
      && forall t :: t in s.all <==> t in s0.all && (t.sender in s0.locals || t.price >= price)
    case OpEvict(lifetime) => e == e0 && exists beats :: Lapsing(s0, s, beats, now, lifetime)
  }

  ghost predicate StepOf(op: Op, now: nat, before: (Env, Snapshot), after: (Env, Snapshot)) {
    WellPosed(op) && Happened(op, now, before.0, before.1, after.0, after.1)
  }

  ghost predicate HeadsKnown(t: ChainTree.Tree, g: ChainTree.Hash, oldHead: Option<ChainTree.Hash>,
                             newHead: ChainTree.Hash) {
    ChainTree.WellFormed(t, g) && newHead in t && (oldHead.Some? ==> oldHead.value in t)
  }

  /** What a reset reinjects: nothing without an old head, else what `Forks.Reinjected` finds. */
  ghost predicate Reinjects(t: ChainTree.Tree, g: ChainTree.Hash, oldHead: Option<ChainTree.Hash>,
                            newHead: ChainTree.Hash, reinject: seq<Tx>)
    requires HeadsKnown(t, g, oldHead, newHead)
  {
    if oldHead.None? then reinject == [] else Forks.Abandoned(t, g, oldHead.value, newHead, reinject)
  }

  /** The blocks a reset speaks of are known. */
  ghost predicate WellPosed(op: Op) {
    op.OpReset? ==> HeadsKnown(op.t, op.g, op.oldHead, op.newHead)
  }

  /** The reset finds nothing that only the abandoned branch holds, or does not look. */
  ghost predicate ReinjectsNothing(op: Op)
    requires WellPosed(op)
  {
    op.OpReset? ==> Reinjects(op.t, op.g, op.oldHead, op.newHead, [])
  }

  /** So it is when the new head descends from the old one or is far from it. */
  lemma DescendantReinjectsNothing(t: ChainTree.Tree, g: ChainTree.Hash, oldHead: Option<ChainTree.Hash>,
                                   newHead: ChainTree.Hash)
    requires HeadsKnown(t, g, oldHead, newHead)
    requires oldHead.Some? ==>
               || oldHead.value in ChainTree.Path(t, g, newHead)
               || t[oldHead.value].number > t[newHead].number + 64 || t[newHead].number > t[oldHead.value].number + 64
    ensures Reinjects(t, g, oldHead, newHead, [])
  {
    if oldHead.Some? && oldHead.value in ChainTree.Path(t, g, newHead) {
      Forks.NoneAbandoned(t, g, oldHead.value, newHead);
    }
  }

  /** The transactions with the outcome of their checks. */
  function Checked(txs: seq<Tx>, check: Tx -> TxChecks): seq<(Tx, TxChecks)> {
    seq(|txs|, i requires 0 <= i < |txs| => (txs[i], check(txs[i])))
  }

  lemma CheckedTxs(txs: seq<Tx>, check: Tx -> TxChecks)
    ensures Txs(Checked(txs, check)) == SetOf(txs)
  {
    forall t | t in txs ensures t in Txs(Checked(txs, check)) {
      var i :| 0 <= i < |txs| && txs[i] == t;
      assert Checked(txs, check)[i].0 == t;
    }
  }

  /** The number of transactions in all lists. */
  method CountTxs(lists: Lists) returns (n: nat)
    ensures n == Total(Sizes(lists))
  {
    hide Total, Sizes;
    n := 0;
    var rest := lists.Keys;
    CountStart(lists);
    while rest != {}
      invariant rest <= lists.Keys && n == Total(SizesOver(lists, rest))
      decreases |rest|
    {
      var a :| a in rest;
      CountStep(lists, rest, a);
      n := n + |lists[a].items|;
      rest := rest - {a};
    }
    CountDone(lists);
  }

  ghost function SetOf(s: seq<Tx>): set<Tx> {
    set t | t in s
  }

  lemma SetOfSplit(s: seq<Tx>, i: nat)
    requires i <= |s|
    ensures s[0..] == s && s[..|s|] == s && SetOf(s[..0]) == {} && SetOf(s[|s|..]) == {}
    ensures i < |s| ==> SetOf(s[..i + 1]) == SetOf(s[..i]) + {s[i]} && SetOf(s[i..]) == SetOf(s[i + 1..]) + {s[i]}
  {
  }

  /** No pooled remote transaction stands in the heap twice. */
  ghost predicate OnceEach(all: set<Tx>, locals: set<Address>, heap: seq<Tx>) {
    forall t :: t in all && Remote(t, locals) ==> multiset(heap)[t] <= 1
  }

  /** Giving up the cheapest makes one place free or leaves only local transactions. */
  lemma EnoughRoom(drop: seq<Tx>, heap: seq<Tx>, all: set<Tx>, locals: set<Address>, limit: nat)
    requires 0 < limit <= |all| && multiset(drop) <= multiset(heap)
    requires |drop| <= |all| - (limit - 1) && forall t :: t in drop ==> t in all && Remote(t, locals)
    requires |drop| == |all| - (limit - 1) || forall t :: t in all && Remote(t, locals) ==> t in drop
    ensures
      var left := all - SetOf(drop);
      Bounded(all, locals, limit) || OnceEach(all, locals, heap) ==> |left| + 1 == limit || OnlyLocal(left, locals)
  {
    var count, gone := |all| - (limit - 1), SetOf(drop);
    if |drop| == count {
      assert drop[0] in drop;
      if |all| == limit {
        assert gone == {drop[0]};
      } else if OnceEach(all, locals, heap) {
        OnceDropped(drop, heap, all, locals);
        DiscardFrees(drop, count, all, locals);
        var remote := set t | t in all && Remote(t, locals);
        assert gone == set t | t in drop;
        assert gone <= remote;
        if |remote| < count {
          assert remote == gone + (remote - gone);
        }
      }
    }
  }

  lemma FewerEntries(all: set<Tx>, locals: set<Address>, heap: seq<Tx>, heap': seq<Tx>)
    requires multiset(heap') <= multiset(heap)
    ensures OnceEach(all, locals, heap) ==> OnceEach(all, locals, heap')
  {
  }

  lemma LocalMeans(all: set<Tx>, locals: set<Address>)
    ensures OnlyLocal(all, locals) <==> forall t :: t in all ==> t.sender in locals
  {
  }

  lemma CheapestFirst(e: Env, s: Snapshot, room: Snapshot)
    requires RoomMade(e, s, room)
    ensures |s.all| >= Limit(e.config) && Bounded(s.all, s.locals, Limit(e.config)) ==>
              |room.all| + 1 == Limit(e.config) || OnlyLocal(room.all, room.locals)
    ensures forall d :: d in s.all && d !in room.all ==> d.sender !in s.locals
    ensures forall d, t :: d in s.all && d !in room.all && t in room.all && t.sender !in s.locals ==>
              d.price < t.price || (d.price == t.price && d.nonce >= t.nonce)
  {
  }

  lemma NoRoomNeeded(e: Env, s: Snapshot)
    ensures |s.all| < Limit(e.config) ==> RoomMade(e, s, s)
  {
  }

  lemma GaveUp(e: Env, s: Snapshot, room: Snapshot, drop: seq<Tx>)
    requires |s.all| >= Limit(e.config) && room.all == s.all - SetOf(drop) && room.locals == s.locals
    requires forall t :: t in drop ==> t in s.all && Remote(t, s.locals)
    requires forall d, t :: d in drop && t in s.all && Remote(t, s.locals) && t !in drop ==> !PriceLess(t, d)
    requires Bounded(s.all, s.locals, Limit(e.config)) ==>
               |room.all| + 1 == Limit(e.config) || OnlyLocal(room.all, room.locals)
    ensures RoomMade(e, s, room)
  {
    hide PriceLess, Bounded, OnlyLocal;
  }

  lemma OnceDropped(drop: seq<Tx>, heap: seq<Tx>, all: set<Tx>, locals: set<Address>)
    requires multiset(drop) <= multiset(heap) && OnceEach(all, locals, heap)
    requires forall t :: t in drop ==> t in all && Remote(t, locals)
    ensures NoRepeats(drop)
  {
    forall t ensures multiset(drop)[t] <= 1 {
      if t in multiset(drop) {
        assert t in drop && multiset(drop)[t] <= multiset(heap)[t];
      }
    }
  }

  lemma PlainLists(all: set<Tx>, p: Lists, q: Lists)
    requires Coherent(all, p, q)
    ensures forall a, n :: n in ItemsOf(p, a) ==>
              var t := ItemsOf(p, a)[n]; t in all && t.sender == a && t.nonce == n && n !in ItemsOf(q, a)
    ensures forall a, n :: n in ItemsOf(q, a) ==>
              var t := ItemsOf(q, a)[n]; t in all && t.sender == a && t.nonce == n
    ensures forall t :: t in all ==> In(ItemsOf(p, t.sender), t) || In(ItemsOf(q, t.sender), t)
  {
    hide Coherent;
    forall a ensures Owns(all, a, ItemsOf(p, a), ItemsOf(q, a), map[]) {
      AccountOf(all, p, q, a);
    }
  }

  lemma PlainRuns(p: Lists, q: Lists, pn: map<Address, nat>, state: ChainState)
    requires AllRun(p, pn, state) && AllDone(q, pn, state, {})
    ensures forall a ::
              var next := if a in pn then pn[a] else state.nonce(a);
              && (forall n :: n in ItemsOf(p, a) <==> state.nonce(a) <= n < next)
              && (forall n :: n in ItemsOf(q, a) ==> next < n)
  {
    forall a ensures
        var next := if a in pn then pn[a] else state.nonce(a);
        && (forall n :: n in ItemsOf(p, a) <==> state.nonce(a) <= n < next)
        && (forall n :: n in ItemsOf(q, a) ==> next < n) {
      RunEach(p, pn, state, a);
      DoneEach(q, pn, state, a, {});
    }
  }

  lemma PayableBut(lists: Lists, state: ChainState, maxGas: nat, except: set<Address>)
    ensures ListsPayable(lists, state, maxGas, {}) ==> ListsPayable(lists, state, maxGas, except)
  {
  }

  /** No local transaction is missing, but for one that `tx` replaces. */
  ghost predicate LocalsKept(all0: set<Tx>, all1: set<Tx>, locals: set<Address>, tx: Tx) {
    forall t :: t in all0 && t.sender in locals && !(t.sender == tx.sender && t.nonce == tx.nonce) ==> t in all1
  }

  lemma KeptStart(all: set<Tx>, locals: set<Address>, tx: Tx)
    ensures LocalsKept(all, all, locals, tx)
  {
  }

  /** The rule of replacement: strictly dearer than the holder of the nonce, and by the bump. */
  ghost predicate Bidding(p: Items, q: Items, tx: Tx, bump: nat, r: Verdict) {
    var n := tx.nonce;
    if n !in p && n !in q then r == Accepted(false)
    else
      var held := if n in p then p[n].price else q[n].price;
      if tx.price > held && 100 * tx.price + 99 >= held * (100 + bump) then r == Accepted(true)
      else r == Rejected(ReplaceUnderpriced)
  }

  /** The verdict of `add` and where the transaction goes, in plain terms; `invalid` is what validation says. */
  ghost predicate AddRule(c: Config, s0: Snapshot, room: Snapshot, s: Snapshot, tx: Tx, local: bool,
                          invalid: Option<PoolError>, r: Verdict) {
    var a, full := tx.sender, |s0.all| >= c.globalSlots + c.globalQueue;
    if tx in s0.all then r == Rejected(Known) && s == s0
    else if invalid.Some? then r == Rejected(invalid.value) && s == s0
    else if full && !local && a !in s0.locals && forall t :: t in s0.all ==> tx.price <= t.price then
      r == Rejected(Underpriced) && s == s0
    else
      && (!full ==> room == s0)
      && Bidding(ItemsOf(room.pending, a), ItemsOf(room.queue, a), tx, c.priceBump, r)
      && (r.Rejected? ==> s == room)
      && (r.Accepted? ==> tx in s.all && (In(ItemsOf(s.pending, a), tx) || In(ItemsOf(s.queue, a), tx)))
      && s.locals == s0.locals + if r.Accepted? && local && tx.nonce !in ItemsOf(room.pending, a) then {a} else {}
  }

  lemma AddRuled(e: Env, s0: Snapshot, room: Snapshot, s: Snapshot, tx: Tx, local: bool, checks: TxChecks, r: Verdict)
    requires Offer(e, s0, room, s, tx, local, checks, r)
    ensures AddRule(e.config, s0, room, s, tx, local, Judged(e, s0.locals, tx, local, checks), r)
  {
    hide RoomMade, Judged, Inserted, Bidding;
    if tx !in s0.all && Judged(e, s0.locals, tx, local, checks).None? && !TooCheap(e, s0, tx, local) {
      RoomKeeps(e, s0, room);
      BidJudged(e.config.priceBump, room, s, tx, local, r);
    }
  }

  lemma RoomKeeps(e: Env, s0: Snapshot, room: Snapshot)
    requires RoomMade(e, s0, room)
    ensures room.locals == s0.locals && (|s0.all| < e.config.globalSlots + e.config.globalQueue ==> room == s0)
  {
  }

  lemma BidJudged(bump: nat, room: Snapshot, s: Snapshot, tx: Tx, local: bool, r: Verdict)
    requires Inserted(bump, room, s, tx, local, r)
    ensures Bidding(ItemsOf(room.pending, tx.sender), ItemsOf(room.queue, tx.sender), tx, bump, r)
    ensures r.Rejected? ==> s == room
    ensures s.locals == room.locals +
            if r.Accepted? && local && tx.nonce !in ItemsOf(room.pending, tx.sender) then {tx.sender} else {}
    ensures r.Accepted? ==>
              tx in s.all && (In(ItemsOf(s.pending, tx.sender), tx) || In(ItemsOf(s.queue, tx.sender), tx))
  {
    hide SameBut;
    var h := Holder(room, tx);
    if h.Some? {
      OutbidsMeans(tx, h.value, bump);
    }
  }

  /** An offer costs locals nothing but a replaced transaction, and brings in only what is payable. */
  lemma OfferKeeps(e: Env, s0: Snapshot, room: Snapshot, s: Snapshot, tx: Tx, local: bool, checks: TxChecks, r: Verdict)
    requires Offer(e, s0, room, s, tx, local, checks, r) && Coherent(room.all, room.pending, room.queue)
    ensures s.all <= s0.all + {tx} && s0.locals <= s.locals <= s0.locals + {tx.sender}
    ensures !local ==> s.locals == s0.locals
    ensures LocalsKept(s0.all, s.all, s0.locals, tx)
    ensures Payable(s0.all, e.state, e.maxGas) ==> Payable(s.all, e.state, e.maxGas)
  {
    hide Offer, Coherent, TxPayable, Outbids;
    OfferGrows(e, s0, room, s, tx, local, checks, r);
    AccountOf(room.all, room.pending, room.queue, tx.sender);
    if Payable(s0.all, e.state, e.maxGas) {
      PayableSubset(s0.all, s.all, tx, e.state, e.maxGas);
    }
  }

  lemma KeptSpared(all0: set<Tx>, all1: set<Tx>, all2: set<Tx>, locals: set<Address>, locals': set<Address>, tx: Tx,
                   state: ChainState, maxGas: nat)
    requires LocalsKept(all0, all1, locals, tx) && Spares(all1, all2, locals', state, maxGas)
    requires locals <= locals' && Payable(all1, state, maxGas)
    ensures LocalsKept(all0, all2, locals, tx)
  {
  }

  lemma PayableShrinks(all: set<Tx>, all': set<Tx>, state: ChainState, maxGas: nat)
    requires Payable(all, state, maxGas) && all' <= all
    ensures Payable(all', state, maxGas)
  {
  }

  lemma DemoteStart(p: Lists, state: ChainState, maxGas: nat)
    ensures ListsPayable(p, state, maxGas, p.Keys) && AllStart(p, state, p.Keys)
  {
  }

  lemma ConvexEach(p: Lists, a: Address)
    requires AllConvex(p)
    ensures Convex(ItemsOf(p, a))
  {
  }

  lemma KeysBut(p: Lists, p': Lists, a: Address, rest: set<Address>)
    requires SameBut(p, p', a) && rest <= p.Keys
    ensures rest - {a} <= p'.Keys
  {
  }

  lemma AllButKeys(q: Lists, pn: map<Address, nat>, state: ChainState, maxGas: nat)
    ensures AllDone(q, pn, state, q.Keys) && ListsPayable(q, state, maxGas, q.Keys)
  {
  }

  /** `time.Since` the last heartbeat: the longest duration there is for an account that has none. */
  function Silence(beats: map<Address, nat>, a: Address, now: nat): int {
    if a in beats then now - beats[a] else MAX_INT64
  }

  /** The silent remote accounts outside `rest` have lost their queue, nobody else anything. */
  ghost predicate Evicted(q0: Lists, q: Lists, locals: set<Address>, beats: map<Address, nat>, now: nat, lifetime: nat,
                          rest: set<Address>) {
    forall a :: ItemsOf(q, a) ==
      if a !in locals && Silence(beats, a, now) > lifetime && a !in rest then map[] else ItemsOf(q0, a)
  }

  lemma EvictStart(q: Lists, locals: set<Address>, beats: map<Address, nat>, now: nat, lifetime: nat)
    ensures Evicted(q, q, locals, beats, now, lifetime, q.Keys)
  {
  }

  lemma EvictStep(q0: Lists, q: Lists, q': Lists, locals: set<Address>, beats: map<Address, nat>, now: nat,
                  lifetime: nat, rest: set<Address>, a: Address)
    requires Evicted(q0, q, locals, beats, now, lifetime, rest) && a !in locals && Silence(beats, a, now) > lifetime
    requires SameBut(q, q', a) && ItemsOf(q', a) == map[]
    ensures Evicted(q0, q', locals, beats, now, lifetime, rest - {a})
  {
  }

  lemma EvictSkip(q0: Lists, q: Lists, locals: set<Address>, beats: map<Address, nat>, now: nat, lifetime: nat,
                  rest: set<Address>, a: Address)
    requires Evicted(q0, q, locals, beats, now, lifetime, rest) && (a in locals || Silence(beats, a, now) <= lifetime)
    ensures Evicted(q0, q, locals, beats, now, lifetime, rest - {a})
  {
  }

  lemma EvictDone(q0: Lists, q: Lists, locals: set<Address>, beats: map<Address, nat>, now: nat, lifetime: nat,
                  pn: map<Address, nat>, state: ChainState)
    requires Evicted(q0, q, locals, beats, now, lifetime, {})
    ensures forall a :: ItemsOf(q, a) ==
              if a !in locals && Silence(beats, a, now) > lifetime then map[] else ItemsOf(q0, a)
    ensures AllDone(q0, pn, state, {}) ==> AllDone(q, pn, state, {})
  {
  }

  lemma LimitedAfterCut(p0: Lists, p: Lists, locals: set<Address>, slots: nat, guaranteed: nat, level: nat)
    ensures Total(Sizes(p0)) <= slots && p == p0 ==> Total(Sizes(p)) <= slots
    ensures FairLevel(Sizes(p0), locals, slots, guaranteed, level) && Levelled(Sizes(p0), Sizes(p), locals, level) ==>
              Total(Sizes(p)) <= slots || forall a :: a in p && a !in locals ==> |p[a].items| <= guaranteed
  {
    hide Total;
    if FairLevel(Sizes(p0), locals, slots, guaranteed, level) && Levelled(Sizes(p0), Sizes(p), locals, level) {
      LevelledTotal(Sizes(p0), Sizes(p), locals, level);
      if Total(Sizes(p)) > slots {
        forall a | a in p && a !in locals ensures |p[a].items| <= guaranteed {
          assert a in Sizes(p) && Sizes(p)[a] == |p[a].items|;
        }
      }
    }
  }

  lemma OnlyLocals(q: Lists, locals: set<Address>)
    requires NoEmptyList(q) && forall a :: ItemsOf(q, a) != map[] ==> a in locals
    ensures forall a :: a in q ==> a in locals
  {
  }

  /** The sizes of the lists outside `rest`. */
  ghost function SizesOver(lists: Lists, rest: set<Address>): Counts {
    map a | a in lists && a !in rest :: |lists[a].items|
  }

  lemma CountStart(lists: Lists)
    ensures Total(SizesOver(lists, lists.Keys)) == 0
  {
  }

  lemma CountStep(lists: Lists, rest: set<Address>, a: Address)
    requires a in rest && rest <= lists.Keys
    ensures Total(SizesOver(lists, rest - {a})) == Total(SizesOver(lists, rest)) + |lists[a].items|
  {
    hide Total;
    var now := SizesOver(lists, rest - {a});
    TotalWithout(now, a);
    assert now - {a} == SizesOver(lists, rest);
  }

  lemma CountDone(lists: Lists)
    ensures Total(SizesOver(lists, {})) == Total(Sizes(lists))
  {
    hide Total;
    assert SizesOver(lists, {}) == Sizes(lists);
  }
}
