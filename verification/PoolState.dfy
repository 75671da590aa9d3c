/**
 The invariants of the transaction pool, as predicates on its plain contents, and what each
 kind of move between the lists does to them.
 */
module PoolState {
  import opened Transactions
  import opened TxListSpec
  import opened Fairness

  type Lists = map<Address, TxListView>

  function ItemsOf(lists: Lists, a: Address): Items {
    if a in lists then lists[a].items else map[]
  }

  ghost function TxsOf(m: Items): set<Tx> {
    set n | n in m :: m[n]
  }

  ghost predicate In(m: Items, t: Tx) {
    t.nonce in m && m[t.nonce] == t
  }

  /** Every transaction is filed under its sender and its nonce. */
  ghost predicate OfAccount(m: Items, a: Address) {
    forall n :: n in m ==> m[n].nonce == n && m[n].sender == a
  }

  /** The transactions of `a` in `all` are exactly the disjoint union of pending, queued and floating ones. */
  ghost predicate Owns(all: set<Tx>, a: Address, p: Items, q: Items, f: Items) {
    && OfAccount(p, a) && OfAccount(q, a) && OfAccount(f, a)
    && p.Keys !! q.Keys && p.Keys !! f.Keys && q.Keys !! f.Keys
    && forall t: Tx :: t.sender == a ==> (t in all <==> In(p, t) || In(q, t) || In(f, t))
  }

  ghost predicate Coherent(all: set<Tx>, p: Lists, q: Lists) {
    forall b :: Owns(all, b, ItemsOf(p, b), ItemsOf(q, b), map[])
  }

  /** Coherence while the transactions `f` of account `a` are between the lists. */
  ghost predicate CoherentBut(all: set<Tx>, p: Lists, q: Lists, a: Address, f: Items) {
    && Owns(all, a, ItemsOf(p, a), ItemsOf(q, a), f)
    && forall b :: b != a ==> Owns(all, b, ItemsOf(p, b), ItemsOf(q, b), map[])
  }

  /** The lists have the right kind and sound caps. */
  ghost predicate Shaped(lists: Lists, strict: bool) {
    forall a :: a in lists ==> lists[a].strict == strict && CapsCover(lists[a])
  }

  ghost predicate NoEmptyList(lists: Lists) {
    forall a :: a in lists ==> lists[a].items != map[]
  }

  ghost predicate NoEmptyBut(lists: Lists, a: Address) {
    forall b :: b in lists && b != a ==> lists[b].items != map[]
  }

  lemma NoEmptyStep(lists: Lists, lists': Lists, a: Address)
    requires NoEmptyBut(lists, a) && SameBut(lists, lists', a)
    ensures NoEmptyBut(lists', a)
    ensures a !in lists' || lists'[a].items != map[] ==> NoEmptyList(lists')
  {
  }

  lemma NoEmptyAll(lists: Lists, a: Address)
    requires NoEmptyList(lists)
    ensures NoEmptyBut(lists, a)
  {
  }

  lemma NoEmptyJoin(q: Lists, q': Lists, a: Address, m: Items)
    requires NoEmptyList(q) && SameBut(q, q', a) && ItemsOf(q', a) == ItemsOf(q, a) + m
    requires a in q' ==> a in q || m != map[]
    ensures NoEmptyList(q')
  {
  }

  /** No other account than `a` is touched. */
  ghost predicate SameBut(lists: Lists, lists': Lists, a: Address) {
    forall b :: b != a ==> (b in lists <==> b in lists') && (b in lists ==> lists[b] == lists'[b])
  }

  lemma SameButTrans(x: Lists, y: Lists, z: Lists, a: Address)
    ensures SameBut(x, x, a)
    ensures SameBut(x, y, a) && SameBut(y, z, a) ==> SameBut(x, z, a)
  {
  }

  lemma SameButUpdate(x: Lists, a: Address, l: TxListView)
    ensures SameBut(x, x[a := l], a) && ItemsOf(x[a := l], a) == l.items
  {
  }

  /** No other virtual nonce than that of `a` is touched. */
  ghost predicate SameNonces(x: map<Address, nat>, y: map<Address, nat>, a: Address) {
    forall b :: b != a ==> (b in x <==> b in y) && (b in x ==> x[b] == y[b])
  }

  lemma SameNoncesTrans(x: map<Address, nat>, y: map<Address, nat>, z: map<Address, nat>, a: Address)
    ensures SameNonces(x, x, a)
    ensures SameNonces(x, y, a) && SameNonces(y, z, a) ==> SameNonces(x, z, a)
  {
  }

  lemma SetNonce(x: map<Address, nat>, state: ChainState, a: Address, n: nat)
    ensures SameNonces(x, x[a := n], a) && NonceOf(x[a := n], state, a) == n
  {
  }

  /** `m` is exactly the run of nonces from `s` up to `e`. */
  ghost predicate RunOf(m: Items, s: nat, e: nat) {
    s <= e && forall n :: n in m <==> s <= n < e
  }

  ghost predicate Convex(m: Items) {
    forall x, n, y :: x in m && y in m && x <= n <= y ==> n in m
  }

  /** Every nonce of `m` is strictly above `n`. */
  ghost predicate AllAbove(m: Items, n: nat) {
    forall k :: k in m ==> n < k
  }

  /** The chain state the pool is validated against. */
  datatype ChainState = ChainState(nonce: Address -> nat, balance: Address -> nat)

  /** `ManagedState.GetNonce`: the virtual nonce, by default the one of the state. */
  function NonceOf(pnonce: map<Address, nat>, state: ChainState, a: Address): nat {
    if a in pnonce then pnonce[a] else state.nonce(a)
  }

  /** Nothing pooled is too old, too expensive or too big for the current state. */
  ghost predicate Payable(txs: set<Tx>, state: ChainState, maxGas: nat) {
    forall t :: t in txs ==> TxPayable(t, state, maxGas)
  }

  predicate TxPayable(t: Tx, state: ChainState, maxGas: nat) {
    state.nonce(t.sender) <= t.nonce && t.cost <= state.balance(t.sender) && t.gas <= maxGas
  }

  /** The pending nonces of `a` are exactly those from the state nonce up to the virtual nonce. */
  ghost predicate RunAt(p: Lists, pn: map<Address, nat>, state: ChainState, a: Address) {
    RunOf(ItemsOf(p, a), state.nonce(a), NonceOf(pn, state, a))
  }

  /** Nothing of `a` that could be executed next is left in the queue. */
  ghost predicate DoneAt(q: Lists, pn: map<Address, nat>, state: ChainState, a: Address) {
    AllAbove(ItemsOf(q, a), NonceOf(pn, state, a))
  }

  ghost predicate AllRun(p: Lists, pn: map<Address, nat>, state: ChainState) {
    forall a :: RunAt(p, pn, state, a)
  }

  ghost predicate AllDone(q: Lists, pn: map<Address, nat>, state: ChainState, except: set<Address>) {
    forall a :: a !in except ==> DoneAt(q, pn, state, a)
  }

  ghost predicate ItemsPayable(m: Items, state: ChainState, maxGas: nat) {
    forall n :: n in m ==> TxPayable(m[n], state, maxGas)
  }

  ghost predicate ListsPayable(lists: Lists, state: ChainState, maxGas: nat, except: set<Address>) {
    forall a :: a !in except ==> ItemsPayable(ItemsOf(lists, a), state, maxGas)
  }

  /** No payable transaction of a local account is lost. */
  ghost predicate Spares(all0: set<Tx>, all1: set<Tx>, locals: set<Address>, state: ChainState, maxGas: nat) {
    forall t :: t in all0 && t.sender in locals && TxPayable(t, state, maxGas) ==> t in all1
  }

  lemma SparesTrans(x: set<Tx>, y: set<Tx>, z: set<Tx>, locals: set<Address>, state: ChainState, maxGas: nat)
    ensures Spares(x, x, locals, state, maxGas)
    ensures Spares(x, y, locals, state, maxGas) && Spares(y, z, locals, state, maxGas) ==>
              Spares(x, z, locals, state, maxGas)
  {
  }

  /** Only transactions of `a` may be missing. */
  ghost predicate OnlyFrom(all0: set<Tx>, all1: set<Tx>, a: Address) {
    forall t :: t in all0 && t.sender != a ==> t in all1
  }

  lemma SparesOther(x: set<Tx>, y: set<Tx>, a: Address, locals: set<Address>, state: ChainState, maxGas: nat)
    requires OnlyFrom(x, y, a) && a !in locals
    ensures Spares(x, y, locals, state, maxGas)
  {
  }

  /** No payable transaction at all is lost. */
  ghost predicate SparesAll(all0: set<Tx>, all1: set<Tx>, state: ChainState, maxGas: nat) {
    forall t :: t in all0 && TxPayable(t, state, maxGas) ==> t in all1
  }

  lemma SparesAllTrans(x: set<Tx>, y: set<Tx>, z: set<Tx>, state: ChainState, maxGas: nat)
    ensures SparesAll(x, x, state, maxGas)
    ensures SparesAll(x, y, state, maxGas) && SparesAll(y, z, state, maxGas) ==> SparesAll(x, z, state, maxGas)
  {
  }

  lemma SparesAllItems(all: set<Tx>, m: Items, state: ChainState, maxGas: nat)
    requires forall n :: n in m ==> !TxPayable(m[n], state, maxGas)
    ensures SparesAll(all, all - TxsOf(m), state, maxGas)
  {
  }

  lemma SparesFromAll(x: set<Tx>, y: set<Tx>, locals: set<Address>, state: ChainState, maxGas: nat)
    requires SparesAll(x, y, state, maxGas)
    ensures Spares(x, y, locals, state, maxGas)
  {
  }

  lemma NoTxs(all: set<Tx>)
    ensures all - TxsOf(map[]) == all
  {
  }

  lemma OnlyPart(all: set<Tx>, m: Items, kept: set<nat>, a: Address)
    requires OfAccount(m, a)
    ensures OnlyFrom(all, all - TxsOf(m - kept), a)
  {
  }

  lemma OnlyItems(all: set<Tx>, m: Items, a: Address)
    requires OfAccount(m, a)
    ensures OnlyFrom(all, all - TxsOf(m), a)
  {
  }

  lemma OnlyTrans(x: set<Tx>, y: set<Tx>, z: set<Tx>, a: Address)
    ensures OnlyFrom(x, x, a)
    ensures OnlyFrom(x, y, a) && OnlyFrom(y, z, a) ==> OnlyFrom(x, z, a)
  {
  }

  lemma RunEach(p: Lists, pn: map<Address, nat>, state: ChainState, a: Address)
    requires AllRun(p, pn, state)
    ensures RunAt(p, pn, state, a)
  {
  }

  lemma DoneEach(q: Lists, pn: map<Address, nat>, state: ChainState, a: Address, except: set<Address>)
    requires AllDone(q, pn, state, except) && a !in except
    ensures DoneAt(q, pn, state, a)
  {
  }

  lemma PayableEach(lists: Lists, state: ChainState, maxGas: nat, a: Address)
    requires ListsPayable(lists, state, maxGas, {})
    ensures ItemsPayable(ItemsOf(lists, a), state, maxGas)
  {
  }

  lemma RunStep(p: Lists, p': Lists, pn: map<Address, nat>, pn': map<Address, nat>, state: ChainState, a: Address)
    requires AllRun(p, pn, state) && SameBut(p, p', a) && SameNonces(pn, pn', a) && RunAt(p', pn', state, a)
    ensures AllRun(p', pn', state)
  {
    hide RunOf;
    forall b | b != a ensures RunAt(p', pn', state, b) {
      assert RunAt(p, pn, state, b) && ItemsOf(p, b) == ItemsOf(p', b);
    }
  }

  lemma DoneStep(q: Lists, q': Lists, pn: map<Address, nat>, pn': map<Address, nat>, state: ChainState, a: Address,
                 except: set<Address>, except': set<Address>)
    requires AllDone(q, pn, state, except) && SameBut(q, q', a) && SameNonces(pn, pn', a)
    requires except <= except' + {a} && (a !in except' ==> DoneAt(q', pn', state, a))
    ensures AllDone(q', pn', state, except')
  {
    hide AllAbove;
    forall b | b != a && b !in except' ensures DoneAt(q', pn', state, b) {
      assert DoneAt(q, pn, state, b) && ItemsOf(q, b) == ItemsOf(q', b);
    }
  }

  lemma PayableStep(lists: Lists, lists': Lists, state: ChainState, maxGas: nat, a: Address,
                    except: set<Address>, except': set<Address>)
    requires ListsPayable(lists, state, maxGas, except) && SameBut(lists, lists', a) && except <= except' + {a}
    requires a !in except' ==> ItemsPayable(ItemsOf(lists', a), state, maxGas)
    ensures ListsPayable(lists', state, maxGas, except')
  {
    hide ItemsPayable;
    forall b | b != a && b !in except' ensures ItemsPayable(ItemsOf(lists', b), state, maxGas) {
      assert ItemsPayable(ItemsOf(lists, b), state, maxGas) && ItemsOf(lists, b) == ItemsOf(lists', b);
    }
  }

  /** Everything pooled is payable once both kinds of lists are. */
  lemma PooledPayable(all: set<Tx>, p: Lists, q: Lists, state: ChainState, maxGas: nat)
    requires Coherent(all, p, q)
    ensures ListsPayable(p, state, maxGas, {}) && ListsPayable(q, state, maxGas, {}) <==> Payable(all, state, maxGas)
  {
    if ListsPayable(p, state, maxGas, {}) && ListsPayable(q, state, maxGas, {}) {
      forall t | t in all ensures TxPayable(t, state, maxGas) {
        assert Owns(all, t.sender, ItemsOf(p, t.sender), ItemsOf(q, t.sender), map[]);
        assert In(ItemsOf(p, t.sender), t) || In(ItemsOf(q, t.sender), t);
      }
    }
    if Payable(all, state, maxGas) {
      forall a ensures ItemsPayable(ItemsOf(p, a), state, maxGas) && ItemsPayable(ItemsOf(q, a), state, maxGas) {
        assert Owns(all, a, ItemsOf(p, a), ItemsOf(q, a), map[]);
        forall n | n in ItemsOf(p, a) ensures TxPayable(ItemsOf(p, a)[n], state, maxGas) {
          assert In(ItemsOf(p, a), ItemsOf(p, a)[n]);
        }
        forall n | n in ItemsOf(q, a) ensures TxPayable(ItemsOf(q, a)[n], state, maxGas) {
          assert In(ItemsOf(q, a), ItemsOf(q, a)[n]);
        }
      }
    }
  }

  // ----- moving transactions -----

  lemma CoherentIsBut(all: set<Tx>, p: Lists, q: Lists, a: Address)
    ensures Coherent(all, p, q) <==> CoherentBut(all, p, q, a, map[])
  {
  }

  lemma AccountOf(all: set<Tx>, p: Lists, q: Lists, a: Address)
    requires Coherent(all, p, q)
    ensures Owns(all, a, ItemsOf(p, a), ItemsOf(q, a), map[])
  {
  }

  /** A step that only touches account `a` needs checking there only. */
  lemma TouchOne(all: set<Tx>, p: Lists, q: Lists, a: Address, f: Items,
                 all': set<Tx>, p': Lists, q': Lists, f': Items)
    requires CoherentBut(all, p, q, a, f)
    requires SameBut(p, p', a) && SameBut(q, q', a)
    requires forall t: Tx :: t.sender != a ==> (t in all <==> t in all')
    requires Owns(all', a, ItemsOf(p', a), ItemsOf(q', a), f')
    ensures CoherentBut(all', p', q', a, f')
  {
    forall b | b != a ensures Owns(all', b, ItemsOf(p', b), ItemsOf(q', b), map[]) {
      assert Owns(all, b, ItemsOf(p, b), ItemsOf(q, b), map[]);
      assert ItemsOf(p, b) == ItemsOf(p', b) && ItemsOf(q, b) == ItemsOf(q', b);
    }
  }

  /** `m` is split into `kept` and `out`. */
  ghost predicate Splits(m: Items, kept: Items, out: Items) {
    Submap(kept, m) && Submap(out, m) && kept.Keys !! out.Keys && m.Keys == kept.Keys + out.Keys
  }

  lemma FloatQueued(all: set<Tx>, a: Address, p: Items, q: Items, kept: Items, out: Items)
    requires Owns(all, a, p, q, map[]) && Splits(q, kept, out)
    ensures Owns(all, a, p, kept, out)
  {
  }

  lemma FloatPending(all: set<Tx>, a: Address, p: Items, q: Items, kept: Items, out: Items)
    requires Owns(all, a, p, q, map[]) && Splits(p, kept, out)
    ensures Owns(all, a, kept, q, out)
  {
  }

  lemma ForgetFloat(all: set<Tx>, a: Address, p: Items, q: Items, f: Items, gone: Items, rest: Items)
    requires Owns(all, a, p, q, f) && Splits(f, rest, gone)
    ensures Owns(all - TxsOf(gone), a, p, q, rest)
    ensures forall t: Tx :: t.sender != a ==> (t in all <==> t in all - TxsOf(gone))
  {
  }

  lemma LandQueued(all: set<Tx>, a: Address, p: Items, q: Items, f: Items, n: nat)
    requires Owns(all, a, p, q, f) && n in f
    ensures n !in q && f[n] in all && Owns(all, a, p, q[n := f[n]], f - {n})
  {
  }

  lemma LandPending(all: set<Tx>, a: Address, p: Items, q: Items, f: Items, n: nat)
    requires Owns(all, a, p, q, f) && n in f
    ensures n !in p && f[n] in all && Owns(all, a, p[n := f[n]], q, f - {n})
  {
  }

  /** Facts about one floating transaction. */
  lemma Floating(all: set<Tx>, p: Lists, q: Lists, a: Address, f: Items, n: nat)
    requires CoherentBut(all, p, q, a, f) && n in f
    ensures f[n].nonce == n && f[n].sender == a && f[n] in all && n !in ItemsOf(q, a) && n !in ItemsOf(p, a)
  {
  }

  lemma LandInQueue(all: set<Tx>, p: Lists, q: Lists, q': Lists, a: Address, f: Items, n: nat)
    requires CoherentBut(all, p, q, a, f) && n in f
    requires SameBut(q, q', a) && ItemsOf(q', a) == ItemsOf(q, a)[n := f[n]]
    ensures CoherentBut(all, p, q', a, f - {n})
  {
    hide Owns;
    LandQueued(all, a, ItemsOf(p, a), ItemsOf(q, a), f, n);
    TouchOne(all, p, q, a, f, all, p, q', f - {n});
  }

  lemma LandInPending(all: set<Tx>, p: Lists, p': Lists, q: Lists, a: Address, f: Items, n: nat)
    requires CoherentBut(all, p, q, a, f) && n in f
    requires SameBut(p, p', a) && ItemsOf(p', a) == ItemsOf(p, a)[n := f[n]]
    ensures CoherentBut(all, p', q, a, f - {n})
  {
    hide Owns;
    LandPending(all, a, ItemsOf(p, a), ItemsOf(q, a), f, n);
    TouchOne(all, p, q, a, f, all, p', q, f - {n});
  }

  /** `r` is `base` joined with what has left `rest` on the way from `m`. */
  ghost predicate Joined(r: Items, base: Items, m: Items, rest: Items) {
    Submap(rest, m) && r == base + (m - rest.Keys)
  }

  /** `gone` is what has left `rest` on the way from `m`. */
  ghost predicate Left(gone: set<Tx>, m: Items, rest: Items) {
    Submap(rest, m) && gone == TxsOf(m - rest.Keys)
  }

  lemma JoinNone(base: Items, m: Items)
    ensures Joined(base, base, m, m) && Left({}, m, m)
  {
  }

  lemma JoinOne(r: Items, base: Items, m: Items, rest: Items, n: nat)
    requires Joined(r, base, m, rest) && n in rest
    ensures Joined(r[n := rest[n]], base, m, rest - {n}) && |rest - {n}| < |rest|
  {
  }

  lemma JoinAll(r: Items, base: Items, m: Items, rest: Items)
    requires Joined(r, base, m, rest) && rest == map[]
    ensures r == base + m
  {
  }

  lemma LeaveOne(gone: set<Tx>, m: Items, rest: Items, n: nat)
    requires Left(gone, m, rest) && n in rest
    ensures Left(gone + {rest[n]}, m, rest - {n}) && |rest - {n}| < |rest|
  {
    SizeWithout(rest, n);
    var was, now := m - rest.Keys, m - (rest - {n}).Keys;
    assert now == was[n := m[n]];
    forall t ensures t in TxsOf(now) <==> t in TxsOf(was) || t == m[n] {
      if t == m[n] {
        assert n in now && now[n] == t;
      }
      if t in TxsOf(was) {
        var k :| k in was && was[k] == t;
        assert k in now && now[k] == t;
      }
    }
  }

  lemma LeaveAll(gone: set<Tx>, m: Items, rest: Items)
    requires Left(gone, m, rest) && rest == map[]
    ensures gone == TxsOf(m)
  {
    assert m - rest.Keys == m;
  }

  /** A new transaction takes the place of the one queued under its nonce. */
  lemma ReplaceQueued(all: set<Tx>, a: Address, p: Items, q: Items, t: Tx)
    requires Owns(all, a, p, q, map[]) && t.sender == a && t !in all && t.nonce !in p
    ensures Owns((if t.nonce in q then all - {q[t.nonce]} else all) + {t}, a, p, q[t.nonce := t], map[])
    ensures t.nonce in q ==> q[t.nonce] in all && q[t.nonce].sender == a
  {
  }

  lemma ReplacePending(all: set<Tx>, a: Address, p: Items, q: Items, t: Tx)
    requires Owns(all, a, p, q, map[]) && t.sender == a && t !in all && t.nonce in p
    ensures p[t.nonce] in all && p[t.nonce].sender == a && Owns(all - {p[t.nonce]} + {t}, a, p[t.nonce := t], q, map[])
  {
  }

  lemma ShapedUpdate(lists: Lists, strict: bool, a: Address, l: TxListView)
    requires Shaped(lists, strict) && l.strict == strict && CapsCover(l)
    ensures Shaped(lists[a := l], strict)
  {
  }

  /** Adding to a list keeps its kind and its caps sound. */
  lemma ShapedAdd(lists: Lists, strict: bool, a: Address, tx: Tx)
    requires Shaped(lists, strict)
    ensures
      var l := if a in lists then lists[a] else Empty(strict);
      Shaped(lists[a := Added(l, tx)], strict) && SameBut(lists, lists[a := Added(l, tx)], a)
  {
  }

  lemma ShapedAt(lists: Lists, strict: bool, a: Address)
    requires Shaped(lists, strict) && a in lists
    ensures lists[a].strict == strict && CapsCover(lists[a])
  {
  }

  /** Dropping a list does not disturb the others. */
  lemma WithoutList(all: set<Tx>, p: Lists, q: Lists, lists: Lists, strict: bool, a: Address)
    requires a in lists && lists[a].items == map[] && Shaped(lists, strict)
    ensures Shaped(lists - {a}, strict) && SameBut(lists, lists - {a}, a)
    ensures lists == q && Coherent(all, p, q) ==> Coherent(all, p, q - {a})
    ensures lists == p && Coherent(all, p, q) ==> Coherent(all, p - {a}, q)
  {
  }

  lemma DropFromQueue(all: set<Tx>, p: Lists, q: Lists, a: Address, kept: TxListView, drops: Items)
    requires Coherent(all, p, q) && a in q && Splits(q[a].items, kept.items, drops)
    ensures Coherent(all - TxsOf(drops), p, q[a := kept])
  {
    hide Owns, TxsOf;
    CoherentIsBut(all, p, q, a);
    FloatQueued(all, a, ItemsOf(p, a), ItemsOf(q, a), kept.items, drops);
    ForgetFloat(all, a, ItemsOf(p, a), kept.items, drops, drops, map[]);
    TouchOne(all, p, q, a, map[], all - TxsOf(drops), p, q[a := kept], map[]);
    CoherentIsBut(all - TxsOf(drops), p, q[a := kept], a);
  }

  lemma FloatFromQueue(all: set<Tx>, p: Lists, q: Lists, a: Address, kept: TxListView, out: Items)
    requires Coherent(all, p, q) && a in q && Splits(q[a].items, kept.items, out)
    ensures CoherentBut(all, p, q[a := kept], a, out)
  {
  }

  /** Pending transactions leave: `gone` for good, `rest` to be queued again. */
  lemma DropFromPending(all: set<Tx>, p: Lists, q: Lists, a: Address, kept: TxListView, out: Items, gone: Items,
                        rest: Items)
    requires Coherent(all, p, q) && a in p && Splits(p[a].items, kept.items, out) && Splits(out, rest, gone)
    ensures CoherentBut(all - TxsOf(gone), p[a := kept], q, a, rest)
  {
    hide Owns, TxsOf;
    CoherentIsBut(all, p, q, a);
    FloatPending(all, a, ItemsOf(p, a), ItemsOf(q, a), kept.items, out);
    ForgetFloat(all, a, kept.items, ItemsOf(q, a), out, gone, rest);
    TouchOne(all, p, q, a, map[], all - TxsOf(gone), p[a := kept], q, rest);
  }

  /** Nonces at or above the state nonce that are not pending lie at or above the virtual nonce. */
  lemma QueuedBeyond(all: set<Tx>, p: Lists, q: Lists, a: Address, s: nat, e: nat)
    requires Coherent(all, p, q) && RunOf(ItemsOf(p, a), s, e) && forall n :: n in ItemsOf(q, a) ==> s <= n
    ensures forall n :: n in ItemsOf(q, a) ==> e <= n
  {
  }

  // ----- what the list operations split off -----

  lemma ForwardSplits(m: Items, threshold: nat)
    ensures Splits(m, AtLeast(m, threshold), Under(m, threshold))
  {
  }

  lemma CapSplits(m: Items, k: nat)
    ensures Splits(m, Capped(m, k), m - Capped(m, k).Keys)
  {
    hide Capped;
  }

  lemma FilterSplits(l: TxListView, costLimit: nat, gasLimit: nat)
    requires CapsCover(l)
    ensures
      var f := Filter(l, costLimit, gasLimit);
      var out := f.removed + f.invalids;
      && Splits(l.items, f.list.items, out) && Splits(out, f.invalids, f.removed)
      && f.list.strict == l.strict && CapsCover(f.list)
      && (!l.strict ==> f.invalids == map[])
      && forall n :: n in f.list.items || n in f.invalids ==>
           n in l.items && l.items[n].cost <= costLimit && l.items[n].gas <= gasLimit
  {
    FilterIsFullScan(l, costLimit, gasLimit);
    var bad := Unpayable(costLimit, gasLimit);
    var f := FullScan(l, costLimit, gasLimit);
    if l.strict && f.removed != map[] {
      assert Splits(l.items, f.list.items, f.removed + f.invalids);
    } else {
      assert f.removed + map[] == f.removed;
    }
  }

  /** What `Forward` and `Filter` leave of a queue. */
  function Cleaned(l: TxListView, state: ChainState, maxGas: nat, a: Address): Filtered {
    Filter(Forwarded(l, state.nonce(a)), state.balance(a), maxGas)
  }

  /** The transactions of a queue that are neither too old nor unpayable. */
  ghost function PayableItems(m: Items, state: ChainState, maxGas: nat): (r: Items)
    ensures Submap(r, m) && forall n :: n in r <==> n in m && TxPayable(m[n], state, maxGas)
  {
    map n | n in m && TxPayable(m[n], state, maxGas) :: m[n]
  }

  /** What promotion takes off a queue: the run of payable transactions from the virtual nonce on. */
  ghost function ReadyPart(m: Items, start: nat, state: ChainState, maxGas: nat): Items {
    var c := PayableItems(m, state, maxGas);
    Under(c, ReadyEnd(c, start))
  }

  /** The payable transactions that promotion does not take. */
  ghost function WaitingPart(m: Items, start: nat, state: ChainState, maxGas: nat): Items {
    var c := PayableItems(m, state, maxGas);
    AtLeast(c, ReadyEnd(c, start))
  }

  /** What promotion leaves in a queue: all that waits, or its lowest nonces if the account is remote. */
  ghost function QueuedPart(m: Items, start: nat, state: ChainState, maxGas: nat, local: bool, limit: nat): Items {
    var rest := WaitingPart(m, start, state, maxGas);
    if local then rest else Capped(rest, limit)
  }

  /** The payable transactions of a pending list that no unpayable one precedes. */
  ghost function FrontPart(m: Items, s: nat, state: ChainState, maxGas: nat): (r: Items)
    ensures Submap(r, m) && forall n :: n in r <==> n in m && InFront(m, s, state, maxGas, n)
  {
    map n | n in m && InFront(m, s, state, maxGas, n) :: m[n]
  }

  ghost predicate InFront(m: Items, s: nat, state: ChainState, maxGas: nat, n: nat) {
    s <= n && forall k :: k in m && s <= k <= n ==> TxPayable(m[k], state, maxGas)
  }

  /** What demotion leaves pending: the front, if it starts at the state nonce. */
  ghost function Executable(m: Items, s: nat, state: ChainState, maxGas: nat): Items {
    var front := FrontPart(m, s, state, maxGas);
    if s in front then front else map[]
  }

  /** What demotion puts back into the queue: everything payable that does not stay pending. */
  ghost function Demoted(m: Items, s: nat, state: ChainState, maxGas: nat): Items {
    PayableItems(m, state, maxGas) - Executable(m, s, state, maxGas).Keys
  }

  /** What cleaning keeps is part of the list and payable. */
  lemma CleanedKeeps(l: TxListView, state: ChainState, maxGas: nat, a: Address)
    requires CapsCover(l) && OfAccount(l.items, a)
    ensures var f := Cleaned(l, state, maxGas, a);
            && CapsCover(Forwarded(l, state.nonce(a))) && Submap(f.list.items, l.items)
            && ItemsPayable(f.list.items, state, maxGas)
            && forall n :: n in f.list.items ==> state.nonce(a) <= n
  {
    hide Filter;
    FilterSplits(Forwarded(l, state.nonce(a)), state.balance(a), maxGas);
  }

  lemma CleanedQueue(l: TxListView, state: ChainState, maxGas: nat, a: Address)
    requires CapsCover(l) && !l.strict && OfAccount(l.items, a)
    ensures
      var l1, f := Forwarded(l, state.nonce(a)), Cleaned(l, state, maxGas, a);
      && CapsCover(l1) && Splits(l.items, l1.items, Under(l.items, state.nonce(a)))
      && Splits(l1.items, f.list.items, f.removed) && CapsCover(f.list) && !f.list.strict
      && ItemsPayable(f.list.items, state, maxGas) && f.list.items == PayableItems(l.items, state, maxGas)
  {
    hide Filter, CapsCover, Splits, ItemsPayable;
    var l1, f := Forwarded(l, state.nonce(a)), Cleaned(l, state, maxGas, a);
    CleanedKeeps(l, state, maxGas, a);
    ForwardSplits(l.items, state.nonce(a));
    FilterSplits(l1, state.balance(a), maxGas);
    assert f.removed + f.invalids == f.removed;
    CleanedAll(l, state, maxGas, a);
  }

  /** A queue keeps exactly its payable transactions. */
  lemma CleanedAll(l: TxListView, state: ChainState, maxGas: nat, a: Address)
    requires CapsCover(l) && !l.strict && OfAccount(l.items, a)
    ensures Cleaned(l, state, maxGas, a).list.items == PayableItems(l.items, state, maxGas)
  {
    hide Filter;
    FilterIsFullScan(Forwarded(l, state.nonce(a)), state.balance(a), maxGas);
  }

  /** Nothing payable is dropped for age or cost. */
  lemma CleanedGone(l: TxListView, state: ChainState, maxGas: nat, a: Address)
    requires CapsCover(l) && OfAccount(l.items, a)
    ensures
      var low, f := Under(l.items, state.nonce(a)), Cleaned(l, state, maxGas, a);
      && (forall n :: n in low ==> !TxPayable(low[n], state, maxGas))
      && (forall n :: n in f.removed ==> !TxPayable(f.removed[n], state, maxGas))
  {
  }

  lemma PayableSub(m: Items, sub: Items, state: ChainState, maxGas: nat)
    requires ItemsPayable(m, state, maxGas) && Submap(sub, m)
    ensures ItemsPayable(sub, state, maxGas)
  {
  }

  lemma RemoveSplits(l: TxListView, n: nat)
    requires n in l.items
    ensures
      var out := map[n := l.items[n]] + Stranded(l, n);
      Splits(l.items, RemovedList(l, n).items, out) && Splits(out, Stranded(l, n), map[n := l.items[n]])
  {
  }

  // ----- runs of nonces -----

  lemma RunConvex(m: Items, s: nat, e: nat)
    requires RunOf(m, s, e)
    ensures Convex(m)
  {
  }

  /** A strict list loses exactly a tail to `Filter`. */
  lemma FilterRun(l: TxListView, costLimit: nat, gasLimit: nat)
    requires CapsCover(l) && l.strict && Filed(l.items)
    ensures
      var f := Filter(l, costLimit, gasLimit);
      if f.removed == map[] then f.list.items == l.items
      else f.list.items == Under(l.items, MinKey(f.removed)) && AllAbove(f.invalids, MinKey(f.removed))
  {
    FilterIsFullScan(l, costLimit, gasLimit);
    var s := FullScan(l, costLimit, gasLimit);
    if s.removed != map[] {
      assert s.list.items == Under(l.items, MinKey(s.removed));
    } else {
      assert s.list.items == l.items;
    }
  }

  /** What is ready is the run that starts at the virtual nonce; what stays is beyond its end. */
  lemma ReadyRun(q: Items, e: nat)
    requires forall n :: n in q ==> e <= n
    ensures
      var ready, rest := Under(q, ReadyEnd(q, e)), AtLeast(q, ReadyEnd(q, e));
      if ready == map[] then rest == q && AllAbove(q, e)
      else RunOf(ready, e, MaxKey(ready) + 1) && AllAbove(rest, MaxKey(ready) + 1)
  {
  }

  /** Extending a run by the nonce that follows it. */
  lemma RunExtend(m: Items, m': Items, s: nat, e: nat, t: Tx)
    requires RunOf(m, s, e) && t.nonce == e && m' == m[t.nonce := t]
    ensures RunOf(m', s, t.nonce + 1)
  {
  }

  lemma RunShrink(m: Items, s: nat, e: nat, n: nat)
    requires RunOf(m, s, e) && m != map[] && n == MinKey(m)
    ensures n == s && RunOf(m - {n}, n + 1, e)
  {
    assert s in m;
  }

  lemma SubmapTrans(x: Items, y: Items, z: Items)
    requires Submap(x, y) && Submap(y, z)
    ensures Submap(x, z)
  {
  }

  lemma PayablePart(m: Items, state: ChainState, maxGas: nat)
    ensures Submap(PayableItems(m, state, maxGas), m)
  {
  }

  lemma CapSubmap(m: Items, k: nat)
    ensures Submap(Capped(m, k), m) && Submap(m, m) && |Capped(m, k)| <= k
  {
    hide Capped;
  }

  lemma PayableNone(state: ChainState, maxGas: nat)
    ensures ItemsPayable(map[], state, maxGas) && Submap(map[], map[]) && forall n :: AllAbove(map[], n)
  {
  }

  lemma CapsSub(l: TxListView, kept: TxListView)
    requires CapsCover(l) && Submap(kept.items, l.items) && kept.costcap == l.costcap && kept.gascap == l.gascap
    ensures CapsCover(kept)
  {
  }

  lemma ReadyShape(l: TxListView, start: nat)
    requires CapsCover(l)
    ensures CapsCover(ReadyList(l, start)) && ReadyList(l, start).strict == l.strict
  {
  }

  lemma QueueFiled(all: set<Tx>, p: Lists, q: Lists, a: Address)
    requires Coherent(all, p, q) && a in q
    ensures OfAccount(q[a].items, a)
  {
    AccountOf(all, p, q, a);
  }

  /** What a cleaned queue has ready continues the pending run, and the rest is beyond it. */
  lemma ReadyContinues(all: set<Tx>, p: Lists, q: Lists, a: Address, state: ChainState, maxGas: nat, e: nat)
    requires Coherent(all, p, q) && a in q && ItemsPayable(q[a].items, state, maxGas)
    requires RunOf(ItemsOf(p, a), state.nonce(a), e)
    ensures
      var m := q[a].items;
      var ready, rest := Under(m, ReadyEnd(m, e)), AtLeast(m, ReadyEnd(m, e));
      if ready == map[] then AllAbove(rest, e)
      else RunOf(ready, e, MaxKey(ready) + 1) && AllAbove(rest, MaxKey(ready) + 1)
  {
    AccountOf(all, p, q, a);
    QueuedBeyond(all, p, q, a, state.nonce(a), e);
    ReadyRun(q[a].items, e);
  }

  /** Taking what is ready off the queue of an account. */
  lemma TakeReady(all: set<Tx>, p: Lists, q: Lists, state: ChainState, maxGas: nat, a: Address, e: nat)
    requires Coherent(all, p, q) && Shaped(q, false) && a in q && ItemsPayable(q[a].items, state, maxGas)
    ensures
      var m, l := q[a].items, ReadyList(q[a], e);
      var ready := Under(m, ReadyEnd(m, e));
      && CoherentBut(all, p, q[a := l], a, ready) && Shaped(q[a := l], false) && SameBut(q, q[a := l], a)
      && ItemsPayable(ready, state, maxGas) && ItemsPayable(l.items, state, maxGas) && Submap(l.items, m)
      && (RunOf(ItemsOf(p, a), state.nonce(a), e) ==>
            if ready == map[] then AllAbove(l.items, e)
            else RunOf(ready, e, MaxKey(ready) + 1) && AllAbove(l.items, MaxKey(ready) + 1))
  {
    hide Coherent, CoherentBut, Shaped, SameBut, RunOf, AllAbove, Splits, CapsCover, ItemsPayable, ReadyEnd;
    var l := ReadyList(q[a], e);
    var ready := Under(q[a].items, ReadyEnd(q[a].items, e));
    ForwardSplits(q[a].items, ReadyEnd(q[a].items, e));
    PayableSub(q[a].items, ready, state, maxGas);
    PayableSub(q[a].items, l.items, state, maxGas);
    FloatFromQueue(all, p, q, a, l, ready);
    ShapedAt(q, false, a);
    ReadyShape(q[a], e);
    ShapedUpdate(q, false, a, l);
    SameButUpdate(q, a, l);
    if RunOf(ItemsOf(p, a), state.nonce(a), e) {
      ReadyContinues(all, p, q, a, state, maxGas, e);
    }
  }

  /** Pending lists after they have been given what was ready. */
  lemma ReadyGiven(p: Lists, p': Lists, state: ChainState, maxGas: nat, a: Address, ready: Items)
    requires NoEmptyList(p) && SameBut(p, p', a) && ItemsOf(p', a) == ItemsOf(p, a) + ready
    requires ItemsPayable(ready, state, maxGas)
    requires if ready == map[] then p' == p else a in p'
    ensures NoEmptyList(p')
    ensures ItemsPayable(ItemsOf(p, a), state, maxGas) ==> ItemsPayable(ItemsOf(p', a), state, maxGas)
  {
  }

  // ----- removing one transaction -----

  /** Only the contents of the lists matter. */
  lemma SameItems(all: set<Tx>, p: Lists, p': Lists, q: Lists, q': Lists, a: Address, f: Items)
    requires CoherentBut(all, p, q, a, f)
    requires forall b :: ItemsOf(p', b) == ItemsOf(p, b)
    requires forall b :: ItemsOf(q', b) == ItemsOf(q, b)
    ensures CoherentBut(all, p', q', a, f)
  {
  }

  /** A pooled transaction is filed in exactly one list of its sender. */
  lemma FiledOnce(all: set<Tx>, p: Lists, q: Lists, tx: Tx)
    requires Coherent(all, p, q) && tx in all
    ensures In(ItemsOf(p, tx.sender), tx) || In(ItemsOf(q, tx.sender), tx)
    ensures tx.nonce in ItemsOf(p, tx.sender) <==> tx.nonce !in ItemsOf(q, tx.sender)
    ensures Filed(ItemsOf(p, tx.sender)) && Filed(ItemsOf(q, tx.sender))
  {
  }

  lemma RemovePendingSplit(all: set<Tx>, p: Lists, q: Lists, tx: Tx)
    requires Coherent(all, p, q) && tx in all && tx.nonce in ItemsOf(p, tx.sender)
    ensures
      var l := p[tx.sender];
      CoherentBut(all - {tx}, p[tx.sender := RemovedList(l, tx.nonce)], q, tx.sender, Stranded(l, tx.nonce))
  {
    hide CoherentBut, Coherent, Splits, TxsOf;
    FiledOnce(all, p, q, tx);
    var a := tx.sender;
    var l := p[a];
    var gone := map[tx.nonce := l.items[tx.nonce]];
    RemoveSplits(l, tx.nonce);
    DropFromPending(all, p, q, a, RemovedList(l, tx.nonce), gone + Stranded(l, tx.nonce), gone, Stranded(l, tx.nonce));
    OneTx(tx.nonce, tx);
  }

  lemma OneTx(n: nat, tx: Tx)
    ensures TxsOf(map[n := tx]) == {tx}
  {
    assert n in map[n := tx];
  }

  lemma RemoveQueuedSplit(all: set<Tx>, p: Lists, q: Lists, tx: Tx)
    requires Coherent(all, p, q) && tx in all && tx.nonce !in ItemsOf(p, tx.sender)
    ensures tx.sender in q && tx.nonce in q[tx.sender].items
    ensures Coherent(all - {tx}, p, q[tx.sender := q[tx.sender].(items := q[tx.sender].items - {tx.nonce})])
  {
    hide Coherent, Splits, TxsOf;
    FiledOnce(all, p, q, tx);
    var l := q[tx.sender];
    var gone := map[tx.nonce := tx];
    assert Splits(l.items, l.items - {tx.nonce}, gone) by { OneSplits(l.items, tx.nonce); }
    DropFromQueue(all, p, q, tx.sender, l.(items := l.items - {tx.nonce}), gone);
    OneTx(tx.nonce, tx);
  }

  lemma SplitSelf(m: Items)
    ensures Splits(m, map[], m) && Splits(m, m, map[])
  {
  }

  lemma OneSplits(m: Items, n: nat)
    requires n in m
    ensures Splits(m, m - {n}, map[n := m[n]])
  {
  }

  lemma RemovedCaps(l: TxListView, n: nat)
    requires CapsCover(l)
    ensures CapsCover(RemovedList(l, n)) && RemovedList(l, n).strict == l.strict
  {
  }

  /** Removing a pending nonce ends the run there, and what is stranded lies beyond it. */
  lemma RemovedRun(l: TxListView, n: nat, s: nat, e: nat, q: Items)
    requires l.strict && n in l.items && Filed(l.items)
    ensures RunOf(l.items, s, e) ==> n < e && RunOf(RemovedList(l, n).items, s, n)
    ensures AllAbove(q, e) ==> AllAbove(q + Stranded(l, n), if e > n then n else e)
  {
  }

  lemma RunEmpty(m: Items, s: nat, e: nat)
    requires RunOf(m, s, e) && m == map[]
    ensures s == e
  {
    assert s !in m;
  }

  // ----- promoting what is ready -----

  /** Half way through promoting `ready`: `rest` is still between the lists of `a`. */
  ghost predicate Promoting(all: set<Tx>, p0: Lists, p: Lists, q: Lists, pn0: map<Address, nat>, pn: map<Address, nat>,
                            state: ChainState, a: Address, ready: Items, rest: Items) {
    && CoherentBut(all, p, q, a, rest) && SameBut(p0, p, a) && SameNonces(pn0, pn, a)
    && Joined(ItemsOf(p, a), ItemsOf(p0, a), ready, rest)
    && (rest != ready ==> a in p) && (rest == ready ==> p == p0 && pn == pn0)
    && InOrder(ready, rest, NonceOf(pn, state, a))
    && Running(ItemsOf(p0, a), NonceOf(pn0, state, a), ItemsOf(p, a), NonceOf(pn, state, a), state.nonce(a),
               ready, rest)
  }

  /** If the ready part continues the run, so does what is left of it. */
  ghost predicate Running(m0: Items, e0: nat, m: Items, e: nat, s: nat, ready: Items, rest: Items) {
    ready != map[] && RunOf(m0, s, e0) && RunOf(ready, e0, MaxKey(ready) + 1) ==>
      RunOf(m, s, e) && RunOf(rest, e, MaxKey(ready) + 1)
  }

  lemma RunningStep(m0: Items, e0: nat, m: Items, e: nat, s: nat, ready: Items, rest: Items, n: nat)
    requires Running(m0, e0, m, e, s, ready, rest) && rest != map[] && n == MinKey(rest) && rest[n].nonce == n
    ensures Running(m0, e0, m[n := rest[n]], n + 1, s, ready, rest - {n})
  {
    hide RunOf, MaxKey;
    if ready != map[] && RunOf(m0, s, e0) && RunOf(ready, e0, MaxKey(ready) + 1) {
      RunShrink(rest, e, MaxKey(ready) + 1, n);
      RunExtend(m, m[n := rest[n]], s, e, rest[n]);
    }
  }

  /** What is no longer in `rest` lies below it; once `rest` is empty, `next` follows all of `m`. */
  ghost predicate InOrder(m: Items, rest: Items, next: nat) {
    && (forall k, j :: k in m && k !in rest && j in rest ==> k < j)
    && (rest == map[] && m != map[] ==> next == MaxKey(m) + 1)
  }

  lemma InOrderStep(m: Items, rest: Items, n: nat, next: nat)
    requires InOrder(m, rest, next) && Submap(rest, m) && rest != map[] && n == MinKey(rest)
    ensures InOrder(m, rest - {n}, n + 1)
  {
    if rest - {n} == map[] {
      forall k | k in m ensures k <= n {
        assert k in rest && k != n ==> k in rest - {n};
      }
    }
  }

  lemma PromotingStart(all: set<Tx>, p: Lists, q: Lists, pn: map<Address, nat>, state: ChainState, a: Address,
                       ready: Items)
    requires CoherentBut(all, p, q, a, ready)
    ensures Promoting(all, p, p, q, pn, pn, state, a, ready, ready)
  {
  }

  lemma PromotingStep(all: set<Tx>, p0: Lists, p: Lists, p': Lists, q: Lists, pn0: map<Address, nat>,
                      pn: map<Address, nat>,
                      pn': map<Address, nat>, state: ChainState, a: Address, ready: Items, rest: Items, n: nat)
    requires Promoting(all, p0, p, q, pn0, pn, state, a, ready, rest) && rest != map[] && n == MinKey(rest)
    requires SameBut(p, p', a) && a in p' && p'[a].items == ItemsOf(p, a)[n := rest[n]]
    requires SameNonces(pn, pn', a) && NonceOf(pn', state, a) == n + 1
    ensures Promoting(all, p0, p', q, pn0, pn', state, a, ready, rest - {n}) && |rest - {n}| < |rest|
  {
    hide CoherentBut, SameBut, SameNonces, Running, Joined, NonceOf, MaxKey, InOrder, Submap;
    LandInPending(all, p, p', q, a, rest, n);
    SameButTrans(p0, p, p', a);
    SameNoncesTrans(pn0, pn, pn', a);
    JoinOne(ItemsOf(p, a), ItemsOf(p0, a), ready, rest, n);
    Floating(all, p, q, a, rest, n);
    InOrderStep(ready, rest, n, NonceOf(pn, state, a)) by { JoinedPart(ItemsOf(p, a), ItemsOf(p0, a), ready, rest); }
    StrictlyLess(ready, rest, n) by { JoinedPart(ItemsOf(p, a), ItemsOf(p0, a), ready, rest); }
    RunningStep(ItemsOf(p0, a), NonceOf(pn0, state, a), ItemsOf(p, a), NonceOf(pn, state, a), state.nonce(a), ready,
                rest, n);
  }

  lemma PromotingFloat(all: set<Tx>, p0: Lists, p: Lists, q: Lists, pn0: map<Address, nat>, pn: map<Address, nat>,
                       state: ChainState, a: Address, ready: Items, rest: Items, n: nat)
    requires Promoting(all, p0, p, q, pn0, pn, state, a, ready, rest) && n in rest
    ensures rest[n].nonce == n && rest[n].sender == a && rest[n] in all && n !in ItemsOf(p, a)
  {
  }

  lemma JoinedPart(r: Items, base: Items, m: Items, rest: Items)
    requires Joined(r, base, m, rest)
    ensures Submap(rest, m)
  {
  }

  lemma StrictlyLess(m: Items, rest: Items, n: nat)
    requires Submap(rest, m) && n in rest
    ensures rest - {n} != m
  {
  }

  lemma PromotingDone(all: set<Tx>, p0: Lists, p: Lists, q: Lists, pn0: map<Address, nat>, pn: map<Address, nat>,
                      state: ChainState, a: Address, ready: Items)
    requires Promoting(all, p0, p, q, pn0, pn, state, a, ready, map[])
    ensures Coherent(all, p, q) && SameBut(p0, p, a) && SameNonces(pn0, pn, a)
    ensures ItemsOf(p, a) == ItemsOf(p0, a) + ready
    ensures if ready == map[] then p == p0 && pn == pn0 else a in p && NonceOf(pn, state, a) == MaxKey(ready) + 1
    ensures ready != map[] && RunOf(ItemsOf(p0, a), state.nonce(a), NonceOf(pn0, state, a)) &&
            RunOf(ready, NonceOf(pn0, state, a), MaxKey(ready) + 1) ==>
              RunOf(ItemsOf(p, a), state.nonce(a), MaxKey(ready) + 1)
  {
    hide CoherentBut, Coherent, SameBut, SameNonces, RunOf, Joined, NonceOf;
    JoinAll(ItemsOf(p, a), ItemsOf(p0, a), ready, map[]);
    CoherentIsBut(all, p, q, a);
    if ready != map[] && RunOf(ItemsOf(p0, a), state.nonce(a), NonceOf(pn0, state, a)) &&
       RunOf(ready, NonceOf(pn0, state, a), MaxKey(ready) + 1) {
      RunEmpty(map[], NonceOf(pn, state, a), MaxKey(ready) + 1);
    }
  }

  // ----- cutting pending lists -----

  ghost function Sizes(lists: Lists): Counts {
    map a | a in lists :: |lists[a].items|
  }

  /** Every list of `p` is what `Cap` leaves of the list in `p0`: its lowest nonces. */
  ghost predicate IsCutOf(p0: Lists, p: Lists) {
    p.Keys == p0.Keys && forall a :: a in p0 ==> p[a] == CappedList(p0[a], |p[a].items|)
  }

  lemma CutSelf(p: Lists)
    ensures IsCutOf(p, p)
  {
  }

  lemma CapCap(m: Items, k: nat, j: nat)
    requires j <= k
    ensures Capped(Capped(m, k), j) == Capped(m, j)
  {
    hide Capped;
    LowerPartUnique(Capped(Capped(m, k), j), Capped(m, j), m);
  }

  lemma CutStep(p0: Lists, p: Lists, p': Lists, a: Address, j: nat)
    requires IsCutOf(p0, p) && a in p && j <= |p[a].items|
    requires SameBut(p, p', a) && a in p' && p'[a] == CappedList(p[a], j)
    ensures IsCutOf(p0, p') && Sizes(p') == Sizes(p)[a := j]
  {
    hide Capped, Submap, LowerPart, Sizes;
    CapCap(p0[a].items, |p[a].items|, j);
    SameKeys(p, p', a);
    SizesStep(p, p', a);
    forall b | b in p0 ensures p'[b] == CappedList(p0[b], |p'[b].items|) {
      if b != a {
        assert p'[b] == p[b];
      }
    }
  }

  lemma SameKeys(p: Lists, p': Lists, a: Address)
    requires SameBut(p, p', a) && a in p && a in p'
    ensures p'.Keys == p.Keys
  {
  }

  lemma SizesStep(p: Lists, p': Lists, a: Address)
    requires SameBut(p, p', a) && a in p && a in p'
    ensures Sizes(p') == Sizes(p)[a := |p'[a].items|]
  {
  }

  /** The run, the queue and the payability survive. */
  ghost predicate Kept(p0: Lists, pn0: map<Address, nat>, p: Lists, pn: map<Address, nat>, q: Lists, state: ChainState,
                       maxGas: nat) {
    && (AllRun(p0, pn0, state) ==> AllRun(p, pn, state))
    && (AllDone(q, pn0, state, {}) ==> AllDone(q, pn, state, {}))
    && (ListsPayable(p0, state, maxGas, {}) ==> ListsPayable(p, state, maxGas, {}))
  }

  lemma KeptSelf(p: Lists, pn: map<Address, nat>, q: Lists, state: ChainState, maxGas: nat)
    ensures Kept(p, pn, p, pn, q, state, maxGas)
  {
  }

  lemma KeptTrans(p0: Lists, pn0: map<Address, nat>, p1: Lists, pn1: map<Address, nat>, p2: Lists,
                  pn2: map<Address, nat>, q: Lists, state: ChainState, maxGas: nat)
    requires Kept(p0, pn0, p1, pn1, q, state, maxGas) && Kept(p1, pn1, p2, pn2, q, state, maxGas)
    ensures Kept(p0, pn0, p2, pn2, q, state, maxGas)
  {
  }

  lemma SizeAt(p: Lists, a: Address)
    ensures a in Sizes(p) <==> a in p
    ensures a in p ==> Sizes(p)[a] == |p[a].items|
  {
  }

  lemma KeptStep(p: Lists, p': Lists, pn: map<Address, nat>, pn': map<Address, nat>, q: Lists, state: ChainState,
                 maxGas: nat, a: Address)
    requires SameBut(p, p', a) && SameNonces(pn, pn', a)
    requires RunAt(p, pn, state, a) ==> RunAt(p', pn', state, a)
    requires DoneAt(q, pn, state, a) ==> DoneAt(q, pn', state, a)
    requires ItemsPayable(ItemsOf(p, a), state, maxGas) ==> ItemsPayable(ItemsOf(p', a), state, maxGas)
    ensures Kept(p, pn, p', pn', q, state, maxGas)
  {
    hide SameBut, SameNonces, RunAt, DoneAt, AllRun, AllDone, ItemsPayable, ListsPayable;
    if AllRun(p, pn, state) {
      RunEach(p, pn, state, a);
      RunStep(p, p', pn, pn', state, a);
    }
    if AllDone(q, pn, state, {}) {
      DoneEach(q, pn, state, a, {});
      SameButTrans(q, q, q, a);
      DoneStep(q, q, pn, pn', state, a, {}, {});
    }
    if ListsPayable(p, state, maxGas, {}) {
      PayableEach(p, state, maxGas, a);
      PayableStep(p, p', state, maxGas, a, {}, {});
    }
  }

  /** Cutting the highest nonce `n` off a list. */
  lemma CutHighest(l: TxListView, s: nat, e: nat, q: Items)
    requires l.items != map[]
    ensures
      var n, kept := MaxKey(l.items), CappedList(l, |l.items| - 1);
      && kept.items == l.items - {n} && Splits(l.items, kept.items, map[n := l.items[n]])
      && (RunOf(l.items, s, e) ==> n < e && RunOf(kept.items, s, n))
      && (AllAbove(q, e) ==> AllAbove(q, if e > n then n else e))
  {
    var n := MaxKey(l.items);
    SizeWithout(l.items, n);
    LowerPartUnique(Capped(l.items, |l.items| - 1), l.items - {n}, l.items);
    OneSplits(l.items, n);
  }

  /** Capping a pending list by one, and the virtual nonce with it. */
  lemma CapByOne(all: set<Tx>, p: Lists, q: Lists, pn: map<Address, nat>, state: ChainState, maxGas: nat, a: Address)
    requires Coherent(all, p, q) && Shaped(p, true) && NoEmptyList(p) && a in p && |p[a].items| > 1
    ensures
      var l := p[a];
      var n, kept := MaxKey(l.items), CappedList(l, |l.items| - 1);
      var all', p' := all - TxsOf(map[n := l.items[n]]), p[a := kept];
      var pn' := if NonceOf(pn, state, a) > n then pn[a := n] else pn;
      && Coherent(all', p', q) && Shaped(p', true) && NoEmptyList(p') && SameBut(p, p', a) && OnlyFrom(all, all', a)
      && Kept(p, pn, p', pn', q, state, maxGas)
  {
    hide Coherent, CoherentBut, Shaped, SameBut, SameNonces, RunOf, NoEmptyList, NoEmptyBut, AllAbove, CapsCover,
      Splits, TxsOf, Capped, Kept, ItemsPayable, Submap, OnlyFrom;
    PendingFiled(all, p, q, a);
    var l := p[a];
    var n, kept := MaxKey(l.items), CappedList(l, |l.items| - 1);
    var drops, p' := map[n := l.items[n]], p[a := kept];
    CutHighest(l, state.nonce(a), NonceOf(pn, state, a), ItemsOf(q, a));
    SplitSelf(drops);
    OnlyItems(all, drops, a);
    DropFromPending(all, p, q, a, kept, drops, drops, map[]);
    CoherentIsBut(all - TxsOf(drops), p', q, a);
    ShapedAt(p, true, a);
    CapsSub(l, kept);
    ShapedUpdate(p, true, a, kept);
    SameButUpdate(p, a, kept);
    NoEmptyAll(p, a);
    NoEmptyStep(p, p', a);
    SameNoncesTrans(pn, pn, pn, a);
    SetNonce(pn, state, a, n);
    if ItemsPayable(l.items, state, maxGas) {
      PayableSub(l.items, kept.items, state, maxGas);
    }
    KeptStep(p, p', pn, if NonceOf(pn, state, a) > n then pn[a := n] else pn, q, state, maxGas, a);
  }

  /** Facts about one queued transaction. */
  lemma QueuedIn(all: set<Tx>, p: Lists, q: Lists, a: Address, n: nat)
    requires Coherent(all, p, q) && n in ItemsOf(q, a)
    ensures ItemsOf(q, a)[n] in all && ItemsOf(q, a)[n].sender == a && ItemsOf(q, a)[n].nonce == n
    ensures n !in ItemsOf(p, a)
  {
  }

  lemma CapWithoutHighest(m: Items, k: nat)
    requires 0 < k <= |m|
    ensures Capped(m, k) != map[] && Capped(m, k) - {MaxKey(Capped(m, k))} == Capped(m, k - 1)
  {
    hide Capped;
    var c := Capped(m, k);
    SizeWithout(c, MaxKey(c));
    LowerPartUnique(c - {MaxKey(c)}, Capped(m, k - 1), m);
  }

  // ----- admitting a new transaction -----

  lemma AdmitPending(all: set<Tx>, p: Lists, q: Lists, tx: Tx, l: TxListView)
    requires Coherent(all, p, q) && tx !in all && tx.sender in p && tx.nonce in p[tx.sender].items
    requires l.items == p[tx.sender].items[tx.nonce := tx]
    ensures Coherent(all - {p[tx.sender].items[tx.nonce]} + {tx}, p[tx.sender := l], q)
  {
    hide Owns;
    var a := tx.sender;
    CoherentIsBut(all, p, q, a);
    ReplacePending(all, a, ItemsOf(p, a), ItemsOf(q, a), tx);
    TouchOne(all, p, q, a, map[], all - {p[a].items[tx.nonce]} + {tx}, p[a := l], q, map[]);
    CoherentIsBut(all - {p[a].items[tx.nonce]} + {tx}, p[a := l], q, a);
  }

  lemma AdmitQueued(all: set<Tx>, all': set<Tx>, p: Lists, q: Lists, q': Lists, tx: Tx)
    requires Coherent(all, p, q) && tx !in all && tx.nonce !in ItemsOf(p, tx.sender)
    requires SameBut(q, q', tx.sender) && ItemsOf(q', tx.sender) == ItemsOf(q, tx.sender)[tx.nonce := tx]
    requires all' == (if tx.nonce in ItemsOf(q, tx.sender) then all - {ItemsOf(q, tx.sender)[tx.nonce]} else all) + {tx}
    ensures Coherent(all', p, q')
  {
    hide Owns;
    var a := tx.sender;
    CoherentIsBut(all, p, q, a);
    ReplaceQueued(all, a, ItemsOf(p, a), ItemsOf(q, a), tx);
    TouchOne(all, p, q, a, map[], all', p, q', map[]);
    CoherentIsBut(all', p, q', a);
  }

  lemma AdmitRun(p: Lists, p': Lists, pn: map<Address, nat>, state: ChainState, tx: Tx)
    requires SameBut(p, p', tx.sender) && tx.nonce in ItemsOf(p, tx.sender)
    requires ItemsOf(p', tx.sender) == ItemsOf(p, tx.sender)[tx.nonce := tx]
    ensures AllRun(p, pn, state) ==> AllRun(p', pn, state)
  {
    if AllRun(p, pn, state) {
      SameNoncesTrans(pn, pn, pn, tx.sender);
      assert RunAt(p, pn, state, tx.sender);
      RunStep(p, p', pn, pn, state, tx.sender);
    }
  }

  /** Replacing a queued transaction uncovers nothing that was not there. */
  lemma AdmitDone(q: Lists, q': Lists, pn: map<Address, nat>, state: ChainState, tx: Tx, dirty: set<Address>)
    requires SameBut(q, q', tx.sender) && ItemsOf(q', tx.sender) == ItemsOf(q, tx.sender)[tx.nonce := tx]
    ensures AllDone(q, pn, state, dirty) ==>
              AllDone(q', pn, state, if tx.nonce in ItemsOf(q, tx.sender) then dirty else dirty + {tx.sender})
  {
  }

  lemma NoEmptyAdmit(q: Lists, q': Lists, tx: Tx)
    requires NoEmptyList(q) && SameBut(q, q', tx.sender) && tx.nonce in ItemsOf(q', tx.sender)
    ensures NoEmptyList(q')
  {
  }

  lemma PayableSubset(all: set<Tx>, all': set<Tx>, tx: Tx, state: ChainState, maxGas: nat)
    requires Payable(all, state, maxGas) && all' <= all + {tx} && (tx in all' ==> TxPayable(tx, state, maxGas))
    ensures Payable(all', state, maxGas)
  {
  }

  // ----- a new chain head -----

  /** Empty, or starting exactly at `s`. */
  ghost predicate StartsAt(m: Items, s: nat) {
    m == map[] || (s in m && forall n :: n in m ==> s <= n)
  }

  ghost predicate AllConvex(p: Lists) {
    forall a :: Convex(ItemsOf(p, a))
  }

  ghost predicate AllStart(p: Lists, state: ChainState, except: set<Address>) {
    forall a :: a !in except ==> StartsAt(ItemsOf(p, a), state.nonce(a))
  }

  lemma RunsAreConvex(p: Lists, pn: map<Address, nat>, state: ChainState)
    requires AllRun(p, pn, state)
    ensures AllConvex(p)
  {
    forall a ensures Convex(ItemsOf(p, a)) {
      assert RunAt(p, pn, state, a);
      RunConvex(ItemsOf(p, a), state.nonce(a), NonceOf(pn, state, a));
    }
  }

  lemma ConvexStep(p: Lists, p': Lists, a: Address)
    requires AllConvex(p) && SameBut(p, p', a) && Convex(ItemsOf(p', a))
    ensures AllConvex(p')
  {
    hide Convex;
    forall b | b != a ensures Convex(ItemsOf(p', b)) {
      assert ItemsOf(p', b) == ItemsOf(p, b) && Convex(ItemsOf(p, b));
    }
  }

  lemma StartStep(p: Lists, p': Lists, state: ChainState, a: Address, except: set<Address>)
    requires AllStart(p, state, except) && SameBut(p, p', a) && StartsAt(ItemsOf(p', a), state.nonce(a))
    ensures AllStart(p', state, except - {a})
  {
  }

  /** What demotion leaves of a pending list before the check for a gap in front. */
  lemma CleanedPending(l: TxListView, state: ChainState, maxGas: nat, a: Address)
    requires CapsCover(l) && l.strict && OfAccount(l.items, a)
    ensures
      var l1, f := Forwarded(l, state.nonce(a)), Cleaned(l, state, maxGas, a);
      var low := Under(l.items, state.nonce(a));
      && CapsCover(l1) && Splits(l.items, l1.items, low) && l1.strict
      && Splits(l1.items, f.list.items, f.removed + f.invalids) && Splits(f.removed + f.invalids, f.invalids, f.removed)
      && CapsCover(f.list) && f.list.strict
      && ItemsPayable(f.list.items, state, maxGas)
      && (Convex(l.items) ==> Convex(f.list.items)) && (forall n :: n in f.list.items ==> state.nonce(a) <= n)
  {
    hide Filter, CapsCover, Splits, Convex, ItemsPayable;
    var l1, f := Forwarded(l, state.nonce(a)), Cleaned(l, state, maxGas, a);
    CleanedKeeps(l, state, maxGas, a);
    ForwardSplits(l.items, state.nonce(a));
    FilterSplits(l1, state.balance(a), maxGas);
    FilterRun(l1, state.balance(a), maxGas);
    ConvexParts(l.items, state.nonce(a));
    if f.removed != map[] {
      ConvexParts(l1.items, MinKey(f.removed));
    }
  }

  /** A pending list keeps its front; what is payable behind it is handed back. */
  lemma CleanedFront(l: TxListView, state: ChainState, maxGas: nat, a: Address)
    requires CapsCover(l) && l.strict && OfAccount(l.items, a)
    ensures
      var f, front := Cleaned(l, state, maxGas, a), FrontPart(l.items, state.nonce(a), state, maxGas);
      f.list.items == front && f.invalids == PayableItems(l.items, state, maxGas) - front.Keys
  {
    hide Filter, InFront, FrontPart, PayableItems, TxPayable, Splits, Unpayable;
    var s, l1 := state.nonce(a), Forwarded(l, state.nonce(a));
    var f := Cleaned(l, state, maxGas, a);
    FilterIsFullScan(l1, state.balance(a), maxGas);
    FilterRun(l1, state.balance(a), maxGas);
    FilterSplits(l1, state.balance(a), maxGas);
    UnpayableKeys(l.items, f.removed, state, maxGas, a);
    if f.removed == map[] {
      FrontIsAll(l.items, s, state, maxGas);
    } else {
      FrontIsBelow(l.items, s, state, maxGas, MinKey(f.removed));
    }
    HandedBack(l.items, l1.items, f.list.items, f.removed, f.invalids, s, state, maxGas);
  }

  lemma UnpayableKeys(m: Items, removed: Items, state: ChainState, maxGas: nat, a: Address)
    requires OfAccount(m, a) && removed == Matching(AtLeast(m, state.nonce(a)), Unpayable(state.balance(a), maxGas))
    ensures forall n :: n in removed <==> n in m && state.nonce(a) <= n && !TxPayable(m[n], state, maxGas)
    ensures forall n :: n in m && TxPayable(m[n], state, maxGas) ==> state.nonce(a) <= n
  {
  }

  lemma FrontIsAll(m: Items, s: nat, state: ChainState, maxGas: nat)
    requires forall n :: n in m && s <= n ==> TxPayable(m[n], state, maxGas)
    ensures FrontPart(m, s, state, maxGas) == AtLeast(m, s)
  {
  }

  lemma FrontIsBelow(m: Items, s: nat, state: ChainState, maxGas: nat, low: nat)
    requires low in m && s <= low && !TxPayable(m[low], state, maxGas)
    requires forall n :: n in m && s <= n < low ==> TxPayable(m[n], state, maxGas)
    ensures FrontPart(m, s, state, maxGas) == Under(AtLeast(m, s), low)
  {
  }

  lemma HandedBack(m: Items, m1: Items, front: Items, removed: Items, invalids: Items, s: nat, state: ChainState,
                   maxGas: nat)
    requires m1 == AtLeast(m, s) && Splits(m1, front, removed + invalids)
    requires Splits(removed + invalids, invalids, removed)
    requires forall n :: n in removed <==> n in m && s <= n && !TxPayable(m[n], state, maxGas)
    requires forall n :: n in m && TxPayable(m[n], state, maxGas) ==> s <= n
    ensures invalids == PayableItems(m, state, maxGas) - front.Keys
  {
  }

  /** The front is executable as a whole or demoted as a whole. */
  lemma DemotedParts(m: Items, s: nat, state: ChainState, maxGas: nat, base: Items)
    ensures
      var front, payable := FrontPart(m, s, state, maxGas), PayableItems(m, state, maxGas);
      && (s in front ==> Demoted(m, s, state, maxGas) == payable - front.Keys)
      && (front == map[] ==>
            Executable(m, s, state, maxGas) == map[] && Demoted(m, s, state, maxGas) == payable - front.Keys)
      && (s !in front ==> base + (payable - front.Keys) + front == base + Demoted(m, s, state, maxGas))
  {
    var front, payable := FrontPart(m, s, state, maxGas), PayableItems(m, state, maxGas);
    assert forall n :: n in front ==> n in payable && payable[n] == front[n];
    assert payable - {} == payable;
  }

  lemma PlusNone(m: Items)
    ensures m + map[] == m
  {
  }

  lemma ConvexParts(m: Items, n: nat)
    ensures Convex(m) ==> Convex(AtLeast(m, n)) && Convex(Under(m, n))
  {
  }

  lemma NoneSplits(m: Items)
    ensures Splits(m, m, map[]) && Splits(m, map[], m) && m + map[] == m && Capped(m, 0) == map[]
  {
  }

  lemma ConvexNone()
    ensures Convex(map[]) && forall s :: StartsAt(map[], s)
  {
  }

  lemma PendingFiled(all: set<Tx>, p: Lists, q: Lists, a: Address)
    requires Coherent(all, p, q) && a in p
    ensures OfAccount(p[a].items, a)
  {
    AccountOf(all, p, q, a);
  }
}
