/**
 core/tx_pool.go: a reset that takes back only some of the abandoned transactions can leave a gap. One account
 is followed through the stages of an addition and of a reset.
 */
module ResetGap {
  import opened Sequences
  import opened Transactions
  import opened TxListSpec
  import opened PoolState
  import opened Fairness
  import opened QueueCut
  import opened PoolPasses
  import opened PoolAdds
  import opened TxPools

  /** Only `a` has transactions, `p` pending and `q` queued, and the virtual nonce `n`. */
  ghost predicate Alone(s: Snapshot, state: ChainState, a: Address, p: Items, q: Items, n: nat) {
    && Lonely(s.pending, a, p) && Lonely(s.queue, a, q) && NonceOf(s.pnonce, state, a) == n
  }

  ghost predicate Lonely(lists: Lists, a: Address, m: Items) {
    ItemsOf(lists, a) == m && forall b :: b != a ==> ItemsOf(lists, b) == map[]
  }

  lemma LonelySize(lists: Lists, a: Address, m: Items)
    requires Lonely(lists, a, m)
    ensures Total(Sizes(lists)) == |m|
  {
    hide Total;
    var k := Sizes(lists);
    forall b | b in k && b != a ensures k[b] == 0 {
      assert ItemsOf(lists, b) == map[];
    }
    if a in lists {
      TotalWithout(k, a);
      NothingCounted(k - {a});
    } else {
      NothingCounted(k);
    }
  }

  lemma {:induction false} NothingCounted(k: Counts)
    requires forall a :: a in k ==> k[a] == 0
    ensures Total(k) == 0
    decreases |k|
  {
    if k != map[] {
      var a :| a in k;
      TotalWithout(k, a);
      assert |k - {a}| < |k|;
      NothingCounted(k - {a});
    }
  }

  /** A promotion within the limits: the ready part moves, the rest waits. */
  lemma PassAlone(e: Env, s0: Snapshot, mid: Snapshot, s: Snapshot, beats: map<Address, nat>, level: nat,
                  todo: set<Address>, a: Address, p: Items, q: Items, n: nat)
    requires Alone(s0, e.state, a, p, q, n) && Pass(e, s0, mid, s, beats, level, todo)
    requires WaitingPart(q, n, e.state, e.maxGas) == map[] && (a !in todo ==> q == map[])
    requires |p + ReadyPart(q, n, e.state, e.maxGas)| <= e.config.globalSlots
    ensures
      var ready := ReadyPart(q, n, e.state, e.maxGas);
      Alone(s, e.state, a, p + ready, map[], if ready == map[] then n else MaxKey(ready) + 1)
  {
    hide ReadyPart, WaitingPart, Total, Sizes, Trimmed, FairLevel, Levelled, IsCutOf, NonceOf, MaxKey, Explained,
      TxPayable;
    var ready := ReadyPart(q, n, e.state, e.maxGas);
    assert if a in todo then PromotedAt(s0, mid, e.state, e.maxGas, s0.locals, e.config.accountQueue, a)
           else UntouchedAt(s0, mid, e.state, a);
    CappedNone(e.config.accountQueue);
    NoParts(n, e.state, e.maxGas);
    PlusNone(p);
    forall b | b != a ensures ItemsOf(mid.pending, b) == map[] && ItemsOf(mid.queue, b) == map[] {
      OthersStay(e, s0, mid, todo, b);
    }
    LonelySize(mid.pending, a, p + ready);
    LonelySize(mid.queue, a, map[]);
  }

  lemma NoParts(n: nat, state: ChainState, maxGas: nat)
    ensures ReadyPart(map[], n, state, maxGas) == map[] && WaitingPart(map[], n, state, maxGas) == map[]
  {
    assert PayableItems(map[], state, maxGas) == map[];
  }

  lemma CappedNone(limit: nat)
    ensures Capped(map[], limit) == map[]
  {
  }

  lemma OthersStay(e: Env, s0: Snapshot, mid: Snapshot, todo: set<Address>, b: Address)
    requires Promoted(s0, mid, e.state, e.maxGas, s0.locals, e.config.accountQueue, todo)
    requires ItemsOf(s0.pending, b) == map[] && ItemsOf(s0.queue, b) == map[]
    ensures ItemsOf(mid.pending, b) == map[] && ItemsOf(mid.queue, b) == map[]
  {
    assert if b in todo then PromotedAt(s0, mid, e.state, e.maxGas, s0.locals, e.config.accountQueue, b)
           else UntouchedAt(s0, mid, e.state, b);
    assert PayableItems(map[], e.state, e.maxGas) == map[];
  }

  /** A batch of one new transaction that is next in line. */
  lemma BatchAlone(e: Env, b: Batch, s0: Snapshot, s: Snapshot, tx: Tx, checks: TxChecks, beats: map<Address, nat>,
                   p: Items, n: nat)
    requires Alone(s0, e.state, tx.sender, p, map[], n) && tx.nonce == n
    requires |p + map[n := tx]| <= e.config.globalSlots && Free(e, s0, tx, false, checks)
    requires Batched(e, b, s0, s, [(tx, checks)], false, beats)
    ensures Alone(s, e.state, tx.sender, p + map[n := tx], map[], n + 1)
  {
    hide Free, Pass, NonceOf, ReadyPart, WaitingPart, MaxKey;
    var a, txs := tx.sender, [(tx, checks)];
    Welcome(e, b, txs, false, 0);
    OfferedOnce(e, b, tx, checks, false) by { assert OfferedAt(e, b, txs, false, 0); }
    FreeAlone(e, s0, b.rooms[0], b.stages[1], tx, checks, b.verdicts[0], p, n) by {
      assert OfferedAt(e, b, txs, false, 0);
    }
    OneReady(n, tx, e.state, e.maxGas) by { FreePayable(e, s0, tx, checks); }
    PassAlone(e, b.stages[1], b.mid, s, beats, b.level, {a}, a, p, map[n := tx], n);
  }

  lemma FreePayable(e: Env, s: Snapshot, tx: Tx, checks: TxChecks)
    requires Free(e, s, tx, false, checks)
    ensures TxPayable(tx, e.state, e.maxGas)
  {
  }

  lemma FreeAlone(e: Env, s0: Snapshot, room: Snapshot, s: Snapshot, tx: Tx, checks: TxChecks, r: Verdict, p: Items,
                  n: nat)
    requires Free(e, s0, tx, false, checks) && Offer(e, s0, room, s, tx, false, checks, r)
    requires Alone(s0, e.state, tx.sender, p, map[], n) && tx.nonce == n
    ensures Alone(s, e.state, tx.sender, p, map[n := tx], n)
  {
    hide GivenUp, Bounded, OnlyLocal, Outbids, Judged, NonceOf;
    assert map[][n := tx] == map[n := tx];
    forall b | b != tx.sender ensures ItemsOf(s.queue, b) == ItemsOf(s0.queue, b) {
    }
  }

  lemma OneReady(n: nat, t: Tx, state: ChainState, maxGas: nat)
    requires TxPayable(t, state, maxGas)
    ensures
      var m := map[n := t];
      && ReadyPart(m, n, state, maxGas) == m && m != map[] && MaxKey(m) == n
      && WaitingPart(m, n, state, maxGas) == map[]
  {
    var m := map[n := t];
    assert PayableItems(m, state, maxGas) == m;
    assert n in m && n + 1 !in m;
    assert MinKey(m) == n;
    assert RunEnd(m, n + 1) == n + 1;
    assert Under(m, n + 1) == m && AtLeast(m, n + 1) == map[];
  }

  // ----- nonces 3 and 5 -----

  ghost function Gapped(t3: Tx, t5: Tx): Items {
    map[3 := t3, 5 := t5]
  }

  lemma BothInFront(t3: Tx, t5: Tx, state: ChainState, maxGas: nat)
    requires TxPayable(t3, state, maxGas) && TxPayable(t5, state, maxGas)
    ensures Executable(Gapped(t3, t5), 3, state, maxGas) == Gapped(t3, t5)
    ensures Demoted(Gapped(t3, t5), 3, state, maxGas) == map[]
  {
    hide TxPayable;
    assert FrontPart(Gapped(t3, t5), 3, state, maxGas) == Gapped(t3, t5);
  }

  lemma Gap(t3: Tx, t5: Tx)
    ensures map[5 := t5] + map[3 := t3] == Gapped(t3, t5) && |Gapped(t3, t5)| == 2
    ensures
      var m := Gapped(t3, t5);
      3 in m && MaxKey(m) == 5 && !RunOf(m, 3, 6)
  {
    var m := Gapped(t3, t5);
    assert 3 in m && 5 in m && 4 !in m;
  }

  /** Demotion keeps both, renumbering goes past the gap, and the last promotion finds nothing to do. */
  lemma GapStays(e: Env, s0: Snapshot, start: Snapshot, mid: Snapshot, s: Snapshot, beats: map<Address, nat>,
                 level: nat, a: Address, t3: Tx, t5: Tx)
    requires Revalidated(e, s0, start, mid, s, beats, level)
    requires Alone(s0, e.state, a, Gapped(t3, t5), map[], 4) && e.state.nonce(a) == 3 && e.config.globalSlots >= 2
    requires TxPayable(t3, e.state, e.maxGas) && TxPayable(t5, e.state, e.maxGas)
    ensures Alone(s, e.state, a, Gapped(t3, t5), map[], 6)
  {
    hide Gapped, Pass, TxPayable, NonceOf, MaxKey, ReadyPart, WaitingPart, DemotedBut, NonceSet;
    Gap(t3, t5);
    DemotedAlone(e, s0, start, a, t3, t5);
    NoParts(6, e.state, e.maxGas);
    PlusNone(Gapped(t3, t5));
    PassAlone(e, start, mid, s, beats, level, start.queue.Keys, a, Gapped(t3, t5), map[], 6);
  }

  lemma DemotedAlone(e: Env, s0: Snapshot, start: Snapshot, a: Address, t3: Tx, t5: Tx)
    requires Alone(s0, e.state, a, Gapped(t3, t5), map[], 4) && e.state.nonce(a) == 3
    requires TxPayable(t3, e.state, e.maxGas) && TxPayable(t5, e.state, e.maxGas)
    requires DemotedBut(s0.pending, s0.queue, start.pending, start.queue, e.state, e.maxGas, {})
    requires NonceSet(start.pending, s0.pnonce, start.pnonce, {})
    ensures Alone(start, e.state, a, Gapped(t3, t5), map[], 6)
  {
    hide Gapped, TxPayable, MaxKey, Executable, Demoted, DemotedBut, NonceSet, NonceOf;
    Gap(t3, t5);
    BothInFront(t3, t5, e.state, e.maxGas);
    DemotedEach(s0.pending, s0.queue, start.pending, start.queue, e.state, e.maxGas, a);
    PlusNone(map[]);
    forall b | b != a ensures ItemsOf(start.pending, b) == map[] && ItemsOf(start.queue, b) == map[] {
      OtherDemoted(s0.pending, s0.queue, start.pending, start.queue, e.state, e.maxGas, b);
    }
    NonceEach(start.pending, s0.pnonce, start.pnonce, e.state, a);
  }

  lemma OtherDemoted(p0: Lists, q0: Lists, p: Lists, q: Lists, state: ChainState, maxGas: nat, b: Address)
    requires DemotedBut(p0, q0, p, q, state, maxGas, {}) && ItemsOf(p0, b) == map[] && ItemsOf(q0, b) == map[]
    ensures ItemsOf(p, b) == map[] && ItemsOf(q, b) == map[]
  {
    hide DemotedBut, Executable, Demoted, ItemsOf;
    DemotedEach(p0, q0, p, q, state, maxGas, b);
    NoneDemoted(state.nonce(b), state, maxGas);
    PlusNone(map[]);
  }

  lemma NoneDemoted(s: nat, state: ChainState, maxGas: nat)
    ensures Executable(map[], s, state, maxGas) == map[] && Demoted(map[], s, state, maxGas) == map[]
  {
    assert FrontPart(map[], s, state, maxGas) == map[] && PayableItems(map[], state, maxGas) == map[];
  }

  /**
   Nonce 5 is pending when the state goes back from nonce 5 to 3, and of the abandoned transactions only nonce 3
   is taken back. A live pool ends with nonces 3 and 5 pending, virtual nonce 6, and no transaction for 4.
   */
  method PartialReset() returns (pool: TxPool, ghost live: bool)
    ensures live && pool.Valid() && !pool.Live()
    ensures ItemsOf(pool.pending, 1).Keys == {3, 5} && pool.PendingNonce(1) == 6 && pool.state.nonce(1) == 3
  {
    hide TxPool.Core, Payable, AllRun, AllDone, Bounded, Followed, Batched, Alone, Lapsed, Settled,
      ResetExplained;
    var t3, t5 := Tx(3, 1, 3, 10, 1, 1), Tx(5, 1, 5, 10, 1, 1);
    var checks := TxChecks(true, true, true, true, true);
    var high, low := ChainState(_ => 5, _ => 100), ChainState(_ => 3, _ => 100);
    pool := new TxPool(DEFAULT_CONFIG, {}, high, 100);
    ghost var s0 := pool.View();
    ghost var b;
    var r;
    r, b := pool.AddTx(t5, false, checks, 0);
    live := pool.Live();
    ghost var s1 := pool.View();
    FirstAlone(pool.Rules(), b, s0, s1, t5, checks, pool.beats);
    ghost var c := pool.ResetState(Some(low), 100, [(t3, checks)], 0);
    SecondAlone(pool.Rules(), c, s1, pool.View(), t3, t5, checks, pool.beats);
    NotLive(pool.View(), pool.state, t3, t5);
  }

  lemma NotLive(s: Snapshot, state: ChainState, t3: Tx, t5: Tx)
    requires Alone(s, state, 1, Gapped(t3, t5), map[], 6) && state.nonce(1) == 3
    ensures !AllRun(s.pending, s.pnonce, state) && NonceOf(s.pnonce, state, 1) == 6
    ensures ItemsOf(s.pending, 1).Keys == {3, 5}
  {
    hide RunOf, NonceOf;
    Gap(t3, t5);
    assert AllRun(s.pending, s.pnonce, state) ==> RunAt(s.pending, s.pnonce, state, 1);
  }

  lemma FirstAlone(e: Env, b: Batch, s0: Snapshot, s: Snapshot, t5: Tx, checks: TxChecks, beats: map<Address, nat>)
    requires e.config == DEFAULT_CONFIG && e.maxGas == 100 && e.gasPrice == 1 && checks.Passed()
    requires e.state.nonce(1) == 5 && e.state.balance(1) == 100 && t5 == Tx(5, 1, 5, 10, 1, 1)
    requires Batched(e, b, s0, s, [(t5, checks)], false, beats)
    requires s0 == Snapshot({}, map[], map[], map[], {})
    ensures Lonely(s.pending, 1, map[5 := t5]) && Lonely(s.queue, 1, map[])
  {
    hide Batched;
    assert map[] + map[5 := t5] == map[5 := t5];
    BatchAlone(e, b, s0, s, t5, checks, beats, map[], 5);
  }

  lemma SecondAlone(e: Env, c: Course, s0: Snapshot, s: Snapshot, t3: Tx, t5: Tx, checks: TxChecks,
                    beats: map<Address, nat>)
    requires e.config == DEFAULT_CONFIG && e.maxGas == 100 && e.gasPrice == 1 && checks.Passed()
    requires e.state.nonce(1) == 3 && e.state.balance(1) == 100
    requires t3 == Tx(3, 1, 3, 10, 1, 1) && t5 == Tx(5, 1, 5, 10, 1, 1)
    requires Followed(e, c, s0, s, [(t3, checks)], beats) && s0.all <= {t5}
    requires Lonely(s0.pending, 1, map[5 := t5]) && Lonely(s0.queue, 1, map[])
    ensures Alone(s, e.state, 1, Gapped(t3, t5), map[], 6)
  {
    hide Batched, Revalidated, Gapped;
    Gap(t3, t5);
    SubsetSize(s0.all, {t5});
    BatchAlone(e, c.batch, s0.(pnonce := map[]), c.added, t3, checks, c.beats, map[5 := t5], 3);
    GapStays(e, c.added, c.start, c.mid, s, beats, c.level, 1, t3, t5);
  }
}
