/**
 core/tx_pool.go: what becomes of an offered transaction, and of those that make way for it, as relations
 between the contents of the pool before and after.
 */
module PoolAdds {
  import opened Sequences
  import opened Transactions
  import opened TxListSpec
  import opened PoolState
  import opened TxPricedLists
  import opened PoolPasses

  datatype PoolError = Known | OversizedData | NegativeValue | GasLimit | InvalidSender | Underpriced | NonceTooLow
                     | InsufficientFunds | OutOfGas | IntrinsicGas | ReplaceUnderpriced

  datatype Verdict = Accepted(replaced: bool) | Rejected(error: PoolError)

  /** The checks of `validateTx` that depend on the transaction alone. */
  datatype TxChecks = TxChecks(size: bool, value: bool, signature: bool, gasCountable: bool, intrinsicGas: bool)
  {
    predicate Passed() {
      size && value && signature && gasCountable && intrinsicGas
    }
  }

  // ----- one transaction -----

  /** `validateTx`; local transactions need not pay the minimal price. */
  function Judged(e: Env, locals: set<Address>, tx: Tx, local: bool, checks: TxChecks): Option<PoolError> {
    if !checks.size then Some(OversizedData)
    else if !checks.value then Some(NegativeValue)
    else if e.maxGas < tx.gas then Some(GasLimit)
    else if !checks.signature then Some(InvalidSender)
    else if !(local || tx.sender in locals) && e.gasPrice > tx.price then Some(Underpriced)
    else if e.state.nonce(tx.sender) > tx.nonce then Some(NonceTooLow)
    else if e.state.balance(tx.sender) < tx.cost then Some(InsufficientFunds)
    else if !checks.gasCountable then Some(OutOfGas)
    else if !checks.intrinsicGas then Some(IntrinsicGas)
    else None
  }

  /** The number of transactions a pool may hold. */
  function Limit(c: Config): nat {
    c.globalSlots + c.globalQueue
  }

  /** A full pool does not want `tx`: it is remote, and nothing pooled is cheaper. */
  ghost predicate TooCheap(e: Env, s: Snapshot, tx: Tx, local: bool) {
    && |s.all| >= Limit(e.config) && !local && tx.sender !in s.locals
    && forall t :: t in s.all ==> tx.price <= t.price
  }

  ghost predicate OnlyLocal(all: set<Tx>, locals: set<Address>) {
    forall t :: t in all ==> t.sender in locals
  }

  /** The pool keeps its limit, but for local transactions and at most one remote one. */
  ghost predicate Bounded(all: set<Tx>, locals: set<Address>, limit: nat) {
    |all| <= limit || forall t, u :: t in all && u in all && t.sender !in locals && u.sender !in locals ==> t == u
  }

  /** A full pool gives up remote transactions, cheapest first; a bounded one until there is room or none is left. */
  ghost predicate RoomMade(e: Env, s: Snapshot, room: Snapshot) {
    && room.all <= s.all && room.locals == s.locals
    && (|s.all| < Limit(e.config) ==> room == s)
    && (forall t :: t in s.all && t !in room.all ==> GivenUp(s, room, t))
    && (|s.all| >= Limit(e.config) && Bounded(s.all, s.locals, Limit(e.config)) ==>
          |room.all| + 1 == Limit(e.config) || OnlyLocal(room.all, room.locals))
  }

  /** `t` is remote, and no remote transaction that stays is cheaper. */
  ghost predicate GivenUp(s: Snapshot, room: Snapshot, t: Tx) {
    t.sender !in s.locals && forall x :: x in room.all && x.sender !in s.locals ==> !PriceLess(x, t)
  }

  /** The pooled transaction with the sender and nonce of `tx`. */
  function Holder(s: Snapshot, tx: Tx): Option<Tx> {
    var p, q := ItemsOf(s.pending, tx.sender), ItemsOf(s.queue, tx.sender);
    if tx.nonce in p then Some(p[tx.nonce]) else if tx.nonce in q then Some(q[tx.nonce]) else None
  }

  /** `tx` takes the place of a pending transaction, or goes to the queue. */
  ghost predicate Placed(room: Snapshot, s: Snapshot, tx: Tx, local: bool) {
    var a, h := tx.sender, Holder(room, tx);
    && s.all == (if h.Some? then room.all - {h.value} else room.all) + {tx} && s.pnonce == room.pnonce
    && if tx.nonce in ItemsOf(room.pending, a) then
         && SameBut(room.pending, s.pending, a) && s.queue == room.queue && s.locals == room.locals
         && ItemsOf(s.pending, a) == ItemsOf(room.pending, a)[tx.nonce := tx]
       else
         && SameBut(room.queue, s.queue, a) && s.pending == room.pending
         && s.locals == (if local then room.locals + {a} else room.locals)
         && ItemsOf(s.queue, a) == ItemsOf(room.queue, a)[tx.nonce := tx]
  }

  /** `tx` is accepted iff it outbids the holder of its nonce, if there is one. */
  ghost predicate Inserted(bump: nat, room: Snapshot, s: Snapshot, tx: Tx, local: bool, r: Verdict) {
    var h := Holder(room, tx);
    if h.Some? && !Outbids(tx, h.value, bump) then r == Rejected(ReplaceUnderpriced) && s == room
    else r == Accepted(h.Some?) && Placed(room, s, tx, local)
  }

  /** `add`: the verdict on `tx` and the pool it leaves, by way of the pool after making room. */
  ghost predicate Offer(e: Env, s0: Snapshot, room: Snapshot, s: Snapshot, tx: Tx, local: bool, checks: TxChecks,
                        r: Verdict) {
    var v := Judged(e, s0.locals, tx, local, checks);
    if tx in s0.all then r == Rejected(Known) && s == s0
    else if v.Some? then r == Rejected(v.value) && s == s0
    else if TooCheap(e, s0, tx, local) then r == Rejected(Underpriced) && s == s0
    else RoomMade(e, s0, room) && Inserted(e.config.priceBump, room, s, tx, local, r)
  }

  /** `t` was given up for room, or is outbid. */
  ghost predicate GaveWay(e: Env, s0: Snapshot, room: Snapshot, tx: Tx, t: Tx) {
    || (|s0.all| >= Limit(e.config) && t !in room.all && GivenUp(s0, room, t))
    || (Holder(room, tx) == Some(t) && Outbids(tx, t, e.config.priceBump))
  }

  lemma OfferGrows(e: Env, s0: Snapshot, room: Snapshot, s: Snapshot, tx: Tx, local: bool, checks: TxChecks, r: Verdict)
    requires Offer(e, s0, room, s, tx, local, checks, r)
    ensures s.all <= s0.all + {tx} && s0.locals <= s.locals <= s0.locals + {tx.sender}
    ensures !local ==> s.locals == s0.locals
    ensures tx !in s0.all ==> (r.Accepted? <==> tx in s.all)
    ensures r.Accepted? ==> tx in s.all && tx !in s0.all && TxPayable(tx, e.state, e.maxGas)
    ensures forall t :: t in s0.all && t !in s.all ==> GaveWay(e, s0, room, tx, t)
  {
    hide GivenUp, Holder, Outbids, SameBut, ItemsOf, Bounded, OnlyLocal;
  }

  /** Acceptance keeps a pool bounded. */
  lemma OfferBounded(e: Env, s0: Snapshot, room: Snapshot, s: Snapshot, tx: Tx, local: bool, checks: TxChecks,
                     r: Verdict)
    requires Offer(e, s0, room, s, tx, local, checks, r) && Bounded(s0.all, s0.locals, Limit(e.config))
    ensures Bounded(s.all, s.locals, Limit(e.config))
  {
    hide GivenUp, Holder, Outbids, SameBut, ItemsOf, TooCheap, Judged;
    if s != s0 {
      BoundedLess(s0.all, s0.locals, room.all, room.locals, Limit(e.config));
      if s != room {
        var h := Holder(room, tx);
        var rest := if h.Some? then room.all - {h.value} else room.all;
        SubsetSize(rest, room.all);
        assert s.all == rest + {tx} && |rest + {tx}| <= |rest| + 1;
      }
    }
  }

  lemma BoundedLess(all: set<Tx>, locals: set<Address>, all': set<Tx>, locals': set<Address>, limit: nat)
    requires Bounded(all, locals, limit) && all' <= all && locals <= locals'
    ensures Bounded(all', locals', limit)
  {
    SubsetSize(all', all);
  }

  // ----- a batch -----

  /** How a batch is taken in: the pool before each offer and after the last, and the promotion at the end. */
  datatype Batch = Batch(stages: seq<Snapshot>, rooms: seq<Snapshot>, verdicts: seq<Verdict>, mid: Snapshot, level: nat)

  ghost predicate OfferedAt(e: Env, b: Batch, txs: seq<(Tx, TxChecks)>, local: bool, i: nat)
    requires i < |txs| && i + 1 < |b.stages| && i < |b.rooms| && i < |b.verdicts|
  {
    Offer(e, b.stages[i], b.rooms[i], b.stages[i + 1], txs[i].0, local, txs[i].1, b.verdicts[i])
  }

  ghost predicate Offered(e: Env, b: Batch, txs: seq<(Tx, TxChecks)>, local: bool) {
    && |b.stages| == |txs| + 1 && |b.rooms| == |b.verdicts| == |txs|
    && forall i :: 0 <= i < |txs| ==> OfferedAt(e, b, txs, local, i)
  }

  /** The accounts to promote: senders of transactions that replaced nothing. */
  function Dirty(txs: seq<(Tx, TxChecks)>, verdicts: seq<Verdict>): set<Address>
    requires |verdicts| <= |txs|
  {
    set i | 0 <= i < |verdicts| && verdicts[i] == Accepted(false) :: txs[i].0.sender
  }

  /** Nothing was accepted without replacing something. */
  ghost predicate NoneNew(verdicts: seq<Verdict>) {
    forall v :: v in verdicts ==> v != Accepted(false)
  }

  /** `addTxsLocked`: every transaction is offered in turn, then the dirty accounts are promoted. */
  ghost predicate Batched(e: Env, b: Batch, s0: Snapshot, s: Snapshot, txs: seq<(Tx, TxChecks)>, local: bool,
                          beats: map<Address, nat>) {
    && Offered(e, b, txs, local) && b.stages[0] == s0
    && var last, dirty := b.stages[|txs|], Dirty(txs, b.verdicts);
       if dirty == {} then s == last else Pass(e, last, b.mid, s, beats, b.level, dirty)
  }

  ghost function Txs(txs: seq<(Tx, TxChecks)>): set<Tx> {
    set i | 0 <= i < |txs| :: txs[i].0
  }

  /** One of the offers from the `i`-th on pushed `t` out. */
  ghost predicate Displaced(e: Env, b: Batch, txs: seq<(Tx, TxChecks)>, i: nat, t: Tx) {
    exists j :: i <= j < |txs| && j < |b.stages| && j < |b.rooms| && GaveWay(e, b.stages[j], b.rooms[j], txs[j].0, t)
  }

  /** Offers bring in nothing but what is offered. */
  lemma {:induction false} OffersGrow(e: Env, b: Batch, txs: seq<(Tx, TxChecks)>, local: bool, n: nat)
    requires Offered(e, b, txs, local) && n <= |txs|
    ensures b.stages[n].all <= b.stages[0].all + Txs(txs) && b.stages[0].locals <= b.stages[n].locals
    ensures Bounded(b.stages[0].all, b.stages[0].locals, Limit(e.config)) ==>
              Bounded(b.stages[n].all, b.stages[n].locals, Limit(e.config))
  {
    hide Offer, Bounded;
    if n > 0 {
      OffersGrow(e, b, txs, local, n - 1);
      assert OfferedAt(e, b, txs, local, n - 1);
      var s0, room, s, tx := b.stages[n - 1], b.rooms[n - 1], b.stages[n], txs[n - 1];
      OfferGrows(e, s0, room, s, tx.0, local, tx.1, b.verdicts[n - 1]);
      if Bounded(s0.all, s0.locals, Limit(e.config)) {
        OfferBounded(e, s0, room, s, tx.0, local, tx.1, b.verdicts[n - 1]);
      }
    }
  }

  /** What is pooled at some point of a batch and not at its end was displaced in between. */
  lemma {:induction false} OffersLose(e: Env, b: Batch, txs: seq<(Tx, TxChecks)>, local: bool, i: nat, t: Tx)
    requires Offered(e, b, txs, local) && i <= |txs| && t in b.stages[i].all && t !in b.stages[|txs|].all
    ensures Displaced(e, b, txs, i, t)
    decreases |txs| - i
  {
    hide Offer, GaveWay;
    assert OfferedAt(e, b, txs, local, i);
    if t in b.stages[i + 1].all {
      OffersLose(e, b, txs, local, i + 1, t);
    } else {
      OfferGrows(e, b.stages[i], b.rooms[i], b.stages[i + 1], txs[i].0, local, txs[i].1, b.verdicts[i]);
    }
  }

  /** The two reasons for leaving in a batch: displaced by an offer, or lost in the promotion. */
  ghost predicate Lapsed(e: Env, b: Batch, s: Snapshot, txs: seq<(Tx, TxChecks)>, i: nat, t: Tx) {
    || Displaced(e, b, txs, i, t)
    || (|txs| < |b.stages| && Dismissed(e, b.stages[|txs|], b.mid, s, t))
  }

  /** A batch brings in only what is offered, stays bounded, and loses nothing without a reason. */
  lemma BatchAccounts(e: Env, b: Batch, s0: Snapshot, s: Snapshot, txs: seq<(Tx, TxChecks)>, local: bool,
                      beats: map<Address, nat>)
    requires Batched(e, b, s0, s, txs, local, beats)
    ensures s.all <= s0.all + Txs(txs) && s0.locals <= s.locals
    ensures |b.stages| == |txs| + 1 && |b.verdicts| == |txs| && (NoneNew(b.verdicts) ==> s == b.stages[|txs|])
    ensures Bounded(s0.all, s0.locals, Limit(e.config)) ==> Bounded(s.all, s.locals, Limit(e.config))
    ensures forall i, t :: 0 <= i <= |txs| && t in b.stages[i].all && t !in s.all ==> Lapsed(e, b, s, txs, i, t)
  {
    hide Bounded, Displaced, Dismissed, OfferedAt, Txs;
    if NoneNew(b.verdicts) {
      assert forall i :: 0 <= i < |txs| ==> b.verdicts[i] in b.verdicts;
    }
    var last := b.stages[|txs|];
    OffersGrow(e, b, txs, local, |txs|);
    if Bounded(last.all, last.locals, Limit(e.config)) {
      BoundedLess(last.all, last.locals, s.all, s.locals, Limit(e.config));
    }
    forall i, t | 0 <= i <= |txs| && t in b.stages[i].all && t !in s.all ensures Lapsed(e, b, s, txs, i, t) {
      if t !in last.all {
        OffersLose(e, b, txs, local, i, t);
      }
    }
  }

  lemma OfferedOnce(e: Env, b: Batch, tx: Tx, checks: TxChecks, local: bool)
    requires |b.stages| == 2 && |b.rooms| == |b.verdicts| == 1
    requires Offer(e, b.stages[0], b.rooms[0], b.stages[1], tx, local, checks, b.verdicts[0])
    ensures Offered(e, b, [(tx, checks)], local)
    ensures Dirty([(tx, checks)], b.verdicts) == if b.verdicts == [Accepted(false)] then {tx.sender} else {}
  {
    hide Offer;
  }

  lemma OfferedNone(e: Env, b: Batch, txs: seq<(Tx, TxChecks)>, local: bool)
    requires |b.stages| == 1 && b.rooms == [] && b.verdicts == []
    ensures Offered(e, b, txs[..0], local) && Dirty(txs[..0], []) == {}
  {
  }

  /** The promotion at the end is none of the offers. */
  lemma OfferedEnds(e: Env, b: Batch, txs: seq<(Tx, TxChecks)>, local: bool, mid: Snapshot, level: nat)
    requires Offered(e, b, txs, local)
    ensures Offered(e, b.(mid := mid, level := level), txs, local)
  {
    hide Offer;
    forall i | 0 <= i < |txs| ensures OfferedAt(e, b.(mid := mid, level := level), txs, local, i) {
      assert OfferedAt(e, b, txs, local, i);
    }
  }

  lemma OfferedMore(e: Env, b: Batch, txs: seq<(Tx, TxChecks)>, i: nat, local: bool, room: Snapshot, s: Snapshot,
                    r: Verdict)
    requires i < |txs| && Offered(e, b, txs[..i], local)
    requires Offer(e, b.stages[i], room, s, txs[i].0, local, txs[i].1, r)
    ensures
      var b' := b.(stages := b.stages + [s], rooms := b.rooms + [room], verdicts := b.verdicts + [r]);
      && Offered(e, b', txs[..i + 1], local)
      && Dirty(txs[..i + 1], b'.verdicts) ==
         Dirty(txs[..i], b.verdicts) + if r == Accepted(false) then {txs[i].0.sender} else {}
  {
    hide Offer;
    var b' := b.(stages := b.stages + [s], rooms := b.rooms + [room], verdicts := b.verdicts + [r]);
    var now := txs[..i + 1];
    forall j | 0 <= j < |now| ensures OfferedAt(e, b', now, local, j) {
      if j < i {
        assert OfferedAt(e, b, txs[..i], local, j);
      }
    }
  }

  /** A new valid transaction that finds room and its nonce free. */
  ghost predicate Free(e: Env, s: Snapshot, tx: Tx, local: bool, checks: TxChecks) {
    && tx !in s.all && Judged(e, s.locals, tx, local, checks).None?
    && |s.all| < Limit(e.config) && Holder(s, tx).None?
  }

  /** It is taken in. */
  lemma Welcome(e: Env, b: Batch, txs: seq<(Tx, TxChecks)>, local: bool, i: nat)
    requires Offered(e, b, txs, local) && i < |txs| && Free(e, b.stages[i], txs[i].0, local, txs[i].1)
    ensures b.verdicts[i] == Accepted(false) && txs[i].0 in b.stages[i + 1].all
  {
    assert OfferedAt(e, b, txs, local, i);
  }

  // ----- a reset -----

  /** The end of a reset: demotion and renumbering to `start`, then the promotion of all that is queued. */
  ghost predicate Revalidated(e: Env, s0: Snapshot, start: Snapshot, mid: Snapshot, s: Snapshot,
                              beats: map<Address, nat>, level: nat) {
    && start.all <= s0.all && start.locals == s0.locals && SparesAll(s0.all, start.all, e.state, e.maxGas)
    && DemotedBut(s0.pending, s0.queue, start.pending, start.queue, e.state, e.maxGas, {})
    && NonceSet(start.pending, s0.pnonce, start.pnonce, {})
    && Pass(e, start, mid, s, beats, level, start.queue.Keys)
  }

  /** What demotion and promotion lose has a reason. */
  lemma RevalidatedLoses(e: Env, s0: Snapshot, start: Snapshot, mid: Snapshot, s: Snapshot, beats: map<Address, nat>,
                         level: nat)
    requires Revalidated(e, s0, start, mid, s, beats, level)
    ensures s.all <= s0.all && s.locals == s0.locals
    ensures forall t :: t in s0.all && t !in s.all ==> Dismissed(e, start, mid, s, t)
  {
    hide Promoted, CutFairly, CutBack, DemotedBut, NonceSet, TxPayable, OverLimit, Lost;
  }

  /** The stages of a reset: the reinjection up to `added`, then the revalidation. */
  datatype Course =
    Course(batch: Batch, beats: map<Address, nat>, added: Snapshot, start: Snapshot, mid: Snapshot, level: nat)

  /** `reset` in the new state: forget the virtual nonces, take in `reinject` as remote, revalidate. */
  ghost predicate Followed(e: Env, c: Course, s0: Snapshot, s: Snapshot, reinject: seq<(Tx, TxChecks)>,
                           beats: map<Address, nat>) {
    && Batched(e, c.batch, s0.(pnonce := map[]), c.added, reinject, false, c.beats)
    && Revalidated(e, c.added, c.start, c.mid, s, beats, c.level)
  }

  /** Why `t`, pooled before the `i`-th reinjection, is gone after the reset. */
  ghost predicate Gone(e: Env, c: Course, s: Snapshot, reinject: seq<(Tx, TxChecks)>, i: nat, t: Tx) {
    Lapsed(e, c.batch, c.added, reinject, i, t) || Dismissed(e, c.start, c.mid, s, t)
  }

  /**
   A reset brings in only what is reinjected and loses nothing without a reason; a reinjected transaction that
   is valid and finds room and its nonce free is pooled afterwards, or gone for such a reason.
   */
  ghost predicate ResetExplained(e: Env, c: Course, s0: Snapshot, s: Snapshot, reinject: seq<(Tx, TxChecks)>) {
    && s.all <= s0.all + Txs(reinject) && |c.batch.stages| == |reinject| + 1
    && (forall t :: t in s0.all && t !in s.all ==> Gone(e, c, s, reinject, 0, t))
    && forall i :: 0 <= i < |reinject| && Free(e, c.batch.stages[i], reinject[i].0, false, reinject[i].1) ==>
         reinject[i].0 in s.all || Gone(e, c, s, reinject, i + 1, reinject[i].0)
  }

  lemma ResetAccounts(e: Env, c: Course, s0: Snapshot, s: Snapshot, reinject: seq<(Tx, TxChecks)>,
                      beats: map<Address, nat>)
    requires Followed(e, c, s0, s, reinject, beats)
    ensures ResetExplained(e, c, s0, s, reinject)
  {
    hide OfferedAt, Pass, Revalidated, Lapsed, Dismissed, Free, Txs;
    BatchAccounts(e, c.batch, s0.(pnonce := map[]), c.added, reinject, false, c.beats);
    RevalidatedLoses(e, c.added, c.start, c.mid, s, beats, c.level);
    forall i | 0 <= i < |reinject| && Free(e, c.batch.stages[i], reinject[i].0, false, reinject[i].1)
      ensures reinject[i].0 in s.all || Gone(e, c, s, reinject, i + 1, reinject[i].0)
    {
      Welcome(e, c.batch, reinject, false, i);
    }
  }
}
