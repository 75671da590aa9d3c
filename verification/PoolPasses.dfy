/**
 core/tx_pool.go: what one pass of the pool over its accounts does, account by account, and why a
 transaction can disappear in it.
 */
module PoolPasses {
  import opened Transactions
  import opened TxListSpec
  import opened PoolState
  import opened Fairness
  import opened QueueCut

  datatype Config =
    Config(priceLimit: nat, priceBump: nat, accountSlots: nat, globalSlots: nat, accountQueue: nat, globalQueue: nat)
  {
    /** What `sanitize` leaves behind. */
    predicate Sane() {
      && 1 <= priceLimit && 1 <= priceBump
      && 1 <= accountSlots && 1 <= globalSlots && 1 <= accountQueue && 1 <= globalQueue
    }
  }

  /** What the pool judges transactions by. */
  datatype Env = Env(config: Config, state: ChainState, maxGas: nat, gasPrice: nat)

  /** The contents of the pool at one moment. */
  datatype Snapshot =
    Snapshot(all: set<Tx>, pending: Lists, queue: Lists, pnonce: map<Address, nat>, locals: set<Address>)

  // ----- demotion -----

  /** `a` keeps pending what is executable and has queued again what is still payable. */
  ghost predicate DemotedAt(p0: Lists, q0: Lists, p: Lists, q: Lists, state: ChainState, maxGas: nat, a: Address) {
    var m, s := ItemsOf(p0, a), state.nonce(a);
    ItemsOf(p, a) == Executable(m, s, state, maxGas) && ItemsOf(q, a) == ItemsOf(q0, a) + Demoted(m, s, state, maxGas)
  }

  /** The accounts outside `rest` are demoted, the others untouched. */
  ghost predicate DemotedBut(p0: Lists, q0: Lists, p: Lists, q: Lists, state: ChainState, maxGas: nat,
                             rest: set<Address>) {
    forall a :: if a in rest then ItemsOf(p, a) == ItemsOf(p0, a) && ItemsOf(q, a) == ItemsOf(q0, a)
                else DemotedAt(p0, q0, p, q, state, maxGas, a)
  }

  lemma DemotedStart(p: Lists, q: Lists, state: ChainState, maxGas: nat)
    ensures DemotedBut(p, q, p, q, state, maxGas, p.Keys)
  {
    hide FrontPart, PayableItems;
    forall a | a !in p ensures DemotedAt(p, q, p, q, state, maxGas, a) {
      assert PayableItems(map[], state, maxGas) == map[];
      assert FrontPart(map[], state.nonce(a), state, maxGas) == map[];
      PlusNone(ItemsOf(q, a));
    }
  }

  lemma DemotedStep(p0: Lists, q0: Lists, p: Lists, q: Lists, p': Lists, q': Lists, state: ChainState, maxGas: nat,
                    rest: set<Address>, a: Address)
    requires DemotedBut(p0, q0, p, q, state, maxGas, rest) && a in rest && SameBut(p, p', a) && SameBut(q, q', a)
    requires DemotedAt(p, q, p', q', state, maxGas, a)
    ensures DemotedBut(p0, q0, p', q', state, maxGas, rest - {a})
  {
    hide Executable, Demoted;
    forall b | b != a ensures ItemsOf(p', b) == ItemsOf(p, b) && ItemsOf(q', b) == ItemsOf(q, b) {
    }
  }

  // ----- the virtual nonces after a reset -----

  /** The virtual nonces of the accounts outside `rest` are just past their last pending transaction. */
  ghost predicate NonceSet(p: Lists, pn0: map<Address, nat>, pn: map<Address, nat>, rest: set<Address>) {
    && (forall a :: a in p && a !in rest ==> p[a].items != map[] && a in pn && pn[a] == MaxKey(p[a].items) + 1)
    && (forall a :: a !in p || a in rest ==> (a in pn <==> a in pn0) && (a in pn ==> pn[a] == pn0[a]))
  }

  lemma NonceStart(p: Lists, pn: map<Address, nat>)
    ensures NonceSet(p, pn, pn, p.Keys)
  {
  }

  lemma NonceStep(p: Lists, pn0: map<Address, nat>, pn: map<Address, nat>, rest: set<Address>, a: Address)
    requires NoEmptyList(p) && NonceSet(p, pn0, pn, rest) && a in rest && rest <= p.Keys
    ensures p[a].items != map[] && NonceSet(p, pn0, pn[a := MaxKey(p[a].items) + 1], rest - {a})
  {
  }

  /** What `a` keeps executable has no gap, and a virtual nonce ahead of the state belongs to a pending account. */
  ghost predicate SettledAt(p: Lists, pn: map<Address, nat>, state: ChainState, maxGas: nat, a: Address) {
    var m := Executable(ItemsOf(p, a), state.nonce(a), state, maxGas);
    Convex(m) && (m == map[] ==> NonceOf(pn, state, a) == state.nonce(a))
  }

  ghost predicate Settled(p: Lists, pn: map<Address, nat>, state: ChainState, maxGas: nat) {
    forall a :: SettledAt(p, pn, state, maxGas, a)
  }

  /** Demoting and renumbering leaves every account with one run exactly when the pool was settled before. */
  lemma SettledRuns(p0: Lists, q0: Lists, pn0: map<Address, nat>, p: Lists, q: Lists, pn: map<Address, nat>,
                    state: ChainState, maxGas: nat)
    requires DemotedBut(p0, q0, p, q, state, maxGas, {}) && NonceSet(p, pn0, pn, {})
    ensures AllRun(p, pn, state) <==> Settled(p0, pn0, state, maxGas)
  {
    hide DemotedBut, SettledAt, RunAt, NonceSet, Executable, Demoted;
    forall a ensures RunAt(p, pn, state, a) <==> SettledAt(p0, pn0, state, maxGas, a) {
      DemotedEach(p0, q0, p, q, state, maxGas, a);
      NonceEach(p, pn0, pn, state, a);
      RunIffSettled(p0, pn0, p, pn, state, maxGas, a);
    }
  }

  lemma DemotedEach(p0: Lists, q0: Lists, p: Lists, q: Lists, state: ChainState, maxGas: nat, a: Address)
    requires DemotedBut(p0, q0, p, q, state, maxGas, {})
    ensures DemotedAt(p0, q0, p, q, state, maxGas, a)
  {
    hide Executable, Demoted;
  }

  lemma NonceEach(p: Lists, pn0: map<Address, nat>, pn: map<Address, nat>, state: ChainState, a: Address)
    requires NonceSet(p, pn0, pn, {})
    ensures
      var m := ItemsOf(p, a);
      NonceOf(pn, state, a) == if m == map[] then NonceOf(pn0, state, a) else MaxKey(m) + 1
  {
  }

  lemma RunIffSettled(p0: Lists, pn0: map<Address, nat>, p: Lists, pn: map<Address, nat>, state: ChainState,
                      maxGas: nat, a: Address)
    requires ItemsOf(p, a) == Executable(ItemsOf(p0, a), state.nonce(a), state, maxGas)
    requires
      var m := ItemsOf(p, a);
      NonceOf(pn, state, a) == if m == map[] then NonceOf(pn0, state, a) else MaxKey(m) + 1
    ensures RunAt(p, pn, state, a) <==> SettledAt(p0, pn0, state, maxGas, a)
  {
    hide FrontPart, NonceOf, RunOf, Convex;
    var m, s, e := ItemsOf(p, a), state.nonce(a), NonceOf(pn, state, a);
    if m == map[] {
      NoneRuns(s, e);
    } else {
      ConvexRuns(m, s) by {
        FrontAbove(ItemsOf(p0, a), s, state, maxGas);
      }
    }
  }

  lemma FrontAbove(m: Items, s: nat, state: ChainState, maxGas: nat)
    ensures forall n :: n in FrontPart(m, s, state, maxGas) ==> s <= n
  {
  }

  lemma NoneRuns(s: nat, e: nat)
    ensures RunOf(map[], s, e) <==> s == e
    ensures Convex(map[])
  {
    if RunOf(map[], s, e) {
      RunEmpty(map[], s, e);
    }
  }

  /** Of the lists that start at `s`, the convex ones are the runs. */
  lemma ConvexRuns(m: Items, s: nat)
    requires s in m && forall n :: n in m ==> s <= n
    ensures RunOf(m, s, MaxKey(m) + 1) <==> Convex(m)
  {
    if RunOf(m, s, MaxKey(m) + 1) {
      RunConvex(m, s, MaxKey(m) + 1);
    }
  }

  /** Lists without gaps are settled once all virtual nonces are forgotten. */
  lemma GaplessSettles(p: Lists, state: ChainState, maxGas: nat)
    requires AllConvex(p)
    ensures Settled(p, map[], state, maxGas)
  {
    hide FrontPart, Convex;
    forall a ensures SettledAt(p, map[], state, maxGas, a) {
      assert Convex(ItemsOf(p, a));
      ConvexFront(ItemsOf(p, a), state.nonce(a), state, maxGas);
      NoneRuns(0, 0);
    }
  }

  lemma ConvexFront(m: Items, s: nat, state: ChainState, maxGas: nat)
    requires Convex(m)
    ensures Convex(FrontPart(m, s, state, maxGas))
  {
    hide TxPayable;
  }

  // ----- promotion -----

  /** What promotion does to `a`: the ready part becomes pending, the rest stays within its limit. */
  ghost predicate PromotedAt(s0: Snapshot, s: Snapshot, state: ChainState, maxGas: nat, locals: set<Address>,
                             limit: nat, a: Address) {
    var m, start := ItemsOf(s0.queue, a), NonceOf(s0.pnonce, state, a);
    var ready := ReadyPart(m, start, state, maxGas);
    && ItemsOf(s.pending, a) == ItemsOf(s0.pending, a) + ready
    && ItemsOf(s.queue, a) == QueuedPart(m, start, state, maxGas, a in locals, limit)
    && NonceOf(s.pnonce, state, a) == if ready == map[] then start else MaxKey(ready) + 1
  }

  ghost predicate UntouchedAt(s0: Snapshot, s: Snapshot, state: ChainState, a: Address) {
    && ItemsOf(s.pending, a) == ItemsOf(s0.pending, a) && ItemsOf(s.queue, a) == ItemsOf(s0.queue, a)
    && NonceOf(s.pnonce, state, a) == NonceOf(s0.pnonce, state, a)
  }

  lemma NothingQueued(s: Snapshot, state: ChainState, maxGas: nat, locals: set<Address>, limit: nat, a: Address)
    requires a !in s.queue
    ensures PromotedAt(s, s, state, maxGas, locals, limit, a)
  {
    assert PayableItems(map[], state, maxGas) == map[];
    PlusNone(ItemsOf(s.pending, a));
  }

  lemma PartsAre(m: Items, start: nat, state: ChainState, maxGas: nat)
    ensures
      var clean := PayableItems(m, state, maxGas);
      var e := ReadyEnd(clean, start);
      && ReadyPart(m, start, state, maxGas) == Under(clean, e)
      && WaitingPart(m, start, state, maxGas) == AtLeast(clean, e)
  {
  }

  /** Promoting the ready part and capping the waiting part make up the promotion of an account. */
  lemma PromotedParts(s0: Snapshot, s: Snapshot, state: ChainState, maxGas: nat, locals: set<Address>, limit: nat,
                      a: Address)
    requires
      var m, start := ItemsOf(s0.queue, a), NonceOf(s0.pnonce, state, a);
      var ready, waiting := ReadyPart(m, start, state, maxGas), WaitingPart(m, start, state, maxGas);
      && ItemsOf(s.pending, a) == ItemsOf(s0.pending, a) + ready
      && ItemsOf(s.queue, a) == (if a in locals then waiting else Capped(waiting, limit))
      && NonceOf(s.pnonce, state, a) == if ready == map[] then start else MaxKey(ready) + 1
    ensures PromotedAt(s0, s, state, maxGas, locals, limit, a)
  {
    hide ReadyPart, WaitingPart, Capped, MaxKey, NonceOf, ItemsOf;
  }

  /** What the account limit leaves of a queue is part of it, as payable and as far ahead. */
  lemma LeftQueued(m: Items, left: Items, m0: Items, n: nat, state: ChainState, maxGas: nat, limit: nat, local: bool)
    requires left == (if local then m else Capped(m, limit)) && Submap(m, m0) && ItemsPayable(m, state, maxGas)
    ensures Submap(left, m0) && ItemsPayable(left, state, maxGas) && (AllAbove(m, n) ==> AllAbove(left, n))
    ensures local || |left| <= limit
  {
    hide Capped;
    CapSubmap(m, limit);
  }

  /** The accounts of `done` are promoted, the others untouched. */
  ghost predicate Promoted(s0: Snapshot, s: Snapshot, state: ChainState, maxGas: nat, locals: set<Address>, limit: nat,
                           done: set<Address>) {
    forall a :: if a in done then PromotedAt(s0, s, state, maxGas, locals, limit, a) else UntouchedAt(s0, s, state, a)
  }

  lemma PromotedStart(s: Snapshot, state: ChainState, maxGas: nat, locals: set<Address>, limit: nat)
    ensures Promoted(s, s, state, maxGas, locals, limit, {})
  {
  }

  lemma PromotedStep(s0: Snapshot, s: Snapshot, s': Snapshot, state: ChainState, maxGas: nat, locals: set<Address>,
                     limit: nat, done: set<Address>, a: Address)
    requires Promoted(s0, s, state, maxGas, locals, limit, done) && a !in done
    requires SameBut(s.pending, s'.pending, a) && SameBut(s.queue, s'.queue, a) && SameNonces(s.pnonce, s'.pnonce, a)
    requires PromotedAt(s, s', state, maxGas, locals, limit, a)
    ensures Promoted(s0, s', state, maxGas, locals, limit, done + {a})
  {
    hide PromotedAt, UntouchedAt;
    forall b ensures if b in done + {a} then PromotedAt(s0, s', state, maxGas, locals, limit, b)
                     else UntouchedAt(s0, s', state, b) {
      if b == a {
        assert UntouchedAt(s0, s, state, a);
        UntouchedFirst(s0, s, s', state, maxGas, locals, limit, a);
      } else {
        UntouchedOther(s, s', state, a, b);
        UntouchedThen(s0, s, s', state, maxGas, locals, limit, b);
      }
    }
  }

  lemma UntouchedOther(s: Snapshot, s': Snapshot, state: ChainState, a: Address, b: Address)
    requires SameBut(s.pending, s'.pending, a) && SameBut(s.queue, s'.queue, a) && SameNonces(s.pnonce, s'.pnonce, a)
    requires a != b
    ensures UntouchedAt(s, s', state, b)
  {
  }

  lemma UntouchedFirst(s0: Snapshot, s: Snapshot, s': Snapshot, state: ChainState, maxGas: nat, locals: set<Address>,
                       limit: nat, a: Address)
    requires UntouchedAt(s0, s, state, a) && PromotedAt(s, s', state, maxGas, locals, limit, a)
    ensures PromotedAt(s0, s', state, maxGas, locals, limit, a)
  {
    hide ReadyPart, QueuedPart, NonceOf;
  }

  lemma UntouchedThen(s0: Snapshot, s: Snapshot, s': Snapshot, state: ChainState, maxGas: nat, locals: set<Address>,
                      limit: nat, a: Address)
    requires UntouchedAt(s, s', state, a)
    ensures PromotedAt(s0, s, state, maxGas, locals, limit, a) ==> PromotedAt(s0, s', state, maxGas, locals, limit, a)
    ensures UntouchedAt(s0, s, state, a) ==> UntouchedAt(s0, s', state, a)
  {
    hide ReadyPart, QueuedPart, NonceOf;
  }

  // ----- the capacity limits -----

  /** The pending lists keep their lowest nonces: all of them, or what the fair level leaves. */
  ghost predicate CutFairly(p0: Lists, p: Lists, locals: set<Address>, slots: nat, guaranteed: nat, level: nat) {
    var k := Sizes(p0);
    && IsCutOf(p0, p)
    && if Total(k) <= slots then p == p0
       else FairLevel(k, locals, slots, guaranteed, level) && Levelled(k, Sizes(p), locals, level)
  }

  /** The queues are trimmed, latest heartbeat first, down to the limit or to the local accounts. */
  ghost predicate CutBack(q0: Lists, q: Lists, locals: set<Address>, beats: map<Address, nat>, limit: nat) {
    if Total(Sizes(q0)) <= limit then q == q0
    else
      && Trimmed(q0, q, locals, beats) && Total(Sizes(q)) >= limit
      && (Total(Sizes(q)) == limit || forall a :: a in q ==> a in locals)
  }

  // ----- why a transaction disappears -----

  /** `t` was among the first and is not among the second. */
  ghost predicate Lost(before: Lists, after: Lists, t: Tx) {
    In(ItemsOf(before, t.sender), t) && !In(ItemsOf(after, t.sender), t)
  }

  /** `t` waited in the queue of its account beyond the account's limit. */
  ghost predicate OverLimit(s0: Snapshot, state: ChainState, maxGas: nat, limit: nat, t: Tx) {
    var waiting := WaitingPart(ItemsOf(s0.queue, t.sender), NonceOf(s0.pnonce, state, t.sender), state, maxGas);
    In(waiting, t) && !In(Capped(waiting, limit), t)
  }

  /**
   Why `t` left the pool by way of the promotion from `s0` to `s`: it is unpayable; or it is remote and waited
   beyond its account's limit, or was cut from the pending lists, or trimmed from the queue.
   */
  ghost predicate Explained(s0: Snapshot, s: Snapshot, p: Lists, q: Lists, state: ChainState, maxGas: nat,
                            locals: set<Address>, limit: nat, t: Tx) {
    || !TxPayable(t, state, maxGas)
    || (t.sender !in locals &&
        (OverLimit(s0, state, maxGas, limit, t) || Lost(s.pending, p, t) || Lost(s.queue, q, t)))
  }

  /** A transaction left in the promotion from `s0` by way of `mid` to `s`, for one of these reasons. */
  ghost predicate Dismissed(e: Env, s0: Snapshot, mid: Snapshot, s: Snapshot, t: Tx) {
    Explained(s0, mid, s.pending, s.queue, e.state, e.maxGas, s0.locals, e.config.accountQueue, t)
  }

  /** `promoteExecutables` from `s0` to `s`: promotion to `mid`, then the cut of pending and of the queue. */
  ghost predicate Pass(e: Env, s0: Snapshot, mid: Snapshot, s: Snapshot, beats: map<Address, nat>, level: nat,
                       todo: set<Address>) {
    && s.all <= s0.all && s.locals == s0.locals
    && Promoted(s0, mid, e.state, e.maxGas, s0.locals, e.config.accountQueue, todo)
    && CutFairly(mid.pending, s.pending, s0.locals, e.config.globalSlots, e.config.accountSlots, level)
    && (Total(Sizes(mid.pending)) <= e.config.globalSlots ==> s.pnonce == mid.pnonce)
    && CutBack(mid.queue, s.queue, s0.locals, beats, e.config.globalQueue)
    && forall t :: t in s0.all && t !in s.all ==> Dismissed(e, s0, mid, s, t)
  }

  lemma EveryLossExplained(all0: set<Tx>, s0: Snapshot, s: Snapshot, all: set<Tx>, p: Lists, q: Lists,
                           state: ChainState, maxGas: nat, locals: set<Address>, limit: nat, done: set<Address>)
    requires Coherent(all0, s0.pending, s0.queue) && Coherent(all, p, q) && Spares(all0, all, locals, state, maxGas)
    requires Promoted(s0, s, state, maxGas, locals, limit, done)
    ensures forall t :: t in all0 && t !in all ==> Explained(s0, s, p, q, state, maxGas, locals, limit, t)
  {
    hide TxPayable, Coherent, OverLimit, Lost, Promoted;
    forall t | t in all0 && t !in all ensures Explained(s0, s, p, q, state, maxGas, locals, limit, t) {
      LossExplained(all0, s0, s, all, p, q, state, maxGas, locals, limit, done, t);
    }
  }

  lemma LossExplained(all0: set<Tx>, s0: Snapshot, s: Snapshot, all: set<Tx>, p: Lists, q: Lists,
                      state: ChainState, maxGas: nat, locals: set<Address>, limit: nat, done: set<Address>, t: Tx)
    requires Coherent(all0, s0.pending, s0.queue) && Coherent(all, p, q) && t in all0 && t !in all
    requires Promoted(s0, s, state, maxGas, locals, limit, done)
    ensures
      || !TxPayable(t, state, maxGas) || OverLimit(s0, state, maxGas, limit, t)
      || Lost(s.pending, p, t) || Lost(s.queue, q, t)
  {
    hide TxPayable, Coherent, ReadyPart, QueuedPart, WaitingPart, Capped, NonceOf;
    var a := t.sender;
    AccountOf(all0, s0.pending, s0.queue, a);
    AccountOf(all, p, q, a);
    if a in done {
      assert PromotedAt(s0, s, state, maxGas, locals, limit, a);
      if TxPayable(t, state, maxGas) {
        PartsCover(ItemsOf(s0.pending, a), ItemsOf(s0.queue, a), NonceOf(s0.pnonce, state, a), state, maxGas,
                   a in locals, limit, t);
      }
    } else {
      assert UntouchedAt(s0, s, state, a);
    }
  }

  lemma PartsCover(p: Items, q: Items, start: nat, state: ChainState, maxGas: nat, local: bool, limit: nat, t: Tx)
    requires p.Keys !! q.Keys && (In(p, t) || In(q, t)) && TxPayable(t, state, maxGas)
    ensures
      || In(p + ReadyPart(q, start, state, maxGas), t) || In(QueuedPart(q, start, state, maxGas, local, limit), t)
      || (In(WaitingPart(q, start, state, maxGas), t) && !In(Capped(WaitingPart(q, start, state, maxGas), limit), t))
  {
    hide TxPayable, ReadyEnd, Capped;
  }
}
