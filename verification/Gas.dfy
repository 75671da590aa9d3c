/**
 core/state_transition.go, core/state_processor.go, core/gaspool.go: where gas and ether go when
 a block is processed. The virtual machine is a step whose effect is a parameter.
 */
module Gas {
  import opened Numbers
  import opened Transactions
  import opened Fairness

  const TX_GAS: nat := 21000
  const TX_GAS_CONTRACT_CREATION: nat := 53000
  const TX_DATA_ZERO_GAS: nat := 4
  const TX_DATA_NON_ZERO_GAS: nat := 68

  // ----- intrinsic gas -----

  type Byte = n: nat | n < 256

  function NonZero(data: seq<Byte>): (n: nat)
    ensures n <= |data| && n + multiset(data)[0] == |data|
  {
    if data == [] then 0
    else
      var init, last := data[..|data| - 1], data[|data| - 1];
      assert data == init + [last];
      assert multiset(data)[0] == multiset(init)[0] + if last == 0 then 1 else 0;
      NonZero(init) + if last != 0 then 1 else 0
  }

  /** Section 6.2 of the Ethereum Yellow Paper, with the surcharge of EIP-2 for creations. */
  function TrueGas(data: seq<Byte>, creation: bool, homestead: bool): (gas: nat)
    ensures
      var zeros := multiset(data)[0];
      gas == (if creation && homestead then 53000 else 21000) + 68 * (|data| - zeros) + 4 * zeros
  {
    (if creation && homestead then TX_GAS_CONTRACT_CREATION else TX_GAS)
    + NonZero(data) * TX_DATA_NON_ZERO_GAS + (|data| - NonZero(data)) * TX_DATA_ZERO_GAS
  }

  /** `IntrinsicGas` on 64-bit words: exact, or an error exactly when the value does not fit. */
  method IntrinsicGas(data: seq<Byte>, creation: bool, homestead: bool) returns (r: Option<nat>)
    requires |data| <= MAX_UINT64
    ensures r.None? <==> TrueGas(data, creation, homestead) > MAX_UINT64
    ensures r.Some? ==> r.value == TrueGas(data, creation, homestead)
    ensures
      var base, zeros := if creation && homestead then 53000 else 21000, multiset(data)[0];
      var gas := base + 68 * (|data| - zeros) + 4 * zeros;
      r == if gas < 0x1_0000_0000_0000_0000 then Some(gas) else None
  {
    var gas := if creation && homestead then TX_GAS_CONTRACT_CREATION else TX_GAS;
    if |data| > 0 {
      var nz: nat := 0;
      for i := 0 to |data|
        invariant nz == NonZero(data[..i])
      {
        assert data[..i + 1][..i] == data[..i];
        if data[i] != 0 {
          nz := nz + 1;
        }
      }
      assert data[..|data|] == data;
      if (MAX_UINT64 - gas) / TX_DATA_NON_ZERO_GAS < nz {
        return None;
      }
      gas := gas + nz * TX_DATA_NON_ZERO_GAS;
      var z := |data| - nz;
      if (MAX_UINT64 - gas) / TX_DATA_ZERO_GAS < z {
        return None;
      }
      gas := gas + z * TX_DATA_ZERO_GAS;
    }
    return Some(gas);
  }

  // ----- state -----

  type Balances = map<Address, nat>

  function Get(b: map<Address, nat>, a: Address): nat {
    if a in b then b[a] else 0
  }

  datatype World = World(balances: Balances, nonces: map<Address, nat>)

  lemma TotalSet(b: Balances, a: Address, x: nat)
    ensures Total(b[a := x]) == Total(b) - Get(b, a) + x
  {
    hide Total;
    if a in b {
      TotalUpdate(b, a, x);
    } else {
      TotalWithout(b[a := x], a);
      assert b[a := x] - {a} == b;
    }
  }

  datatype Message =
    Message(from: Address, nonce: nat, checkNonce: bool, gasPrice: nat, gas: nat, data: seq<Byte>, creation: bool)

  datatype Error = ErrNonceTooHigh | ErrNonceTooLow | ErrInsufficientBalanceForGas | ErrGasLimitReached
                 | ErrOutOfGas | ErrInsufficientBalance

  datatype Result = Ok(usedGas: nat, failed: bool) | Err(error: Error)

  /** What the virtual machine makes of a world and an amount of gas. */
  datatype Outcome = Outcome(world: World, gasLeft: nat, refund: nat, failed: bool, insufficient: bool)

  type Evm = (World, nat) -> Outcome

  ghost predicate Frugal(evm: Evm) {
    forall w, g :: evm(w, g).gasLeft <= g
  }

  class GasPool {
    var gas: nat

    constructor (gas: nat)
      ensures this.gas == gas
    {
      this.gas := gas;
    }

    /** `AddGas`, which must not overflow. */
    method AddGas(amount: nat)
      requires gas + amount <= MAX_UINT64
      modifies this
      ensures gas == old(gas) + amount
    {
      gas := gas + amount;
    }

    method SubGas(amount: nat) returns (ok: bool)
      modifies this
      ensures ok <==> amount <= old(gas)
      ensures gas == if ok then old(gas) - amount else old(gas)
    {
      ok := amount <= gas;
      if ok {
        gas := gas - amount;
      }
    }
  }

  /** The ether an amount of gas is worth to a message. */
  function Fee(msg: Message, gas: nat): nat {
    gas * msg.gasPrice
  }

  lemma FeeSplits(msg: Message, used: nat)
    requires used <= msg.gas
    ensures Fee(msg, msg.gas - used) + Fee(msg, used) == Fee(msg, msg.gas)
  {
  }

  /** The world in which the machine runs: the sender has bought its gas and, for a call, used its nonce. */
  function Prepaid(w: World, msg: Message): World
    requires Fee(msg, msg.gas) <= Get(w.balances, msg.from)
  {
    World(w.balances[msg.from := Get(w.balances, msg.from) - Fee(msg, msg.gas)],
          if msg.creation then w.nonces else w.nonces[msg.from := Get(w.nonces, msg.from) + 1])
  }

  /** The world after the machine: unused gas is sold back and used gas paid to the coinbase. */
  function Settled(w: World, msg: Message, coinbase: Address, used: nat): World
    requires used <= msg.gas
  {
    var b := w.balances[msg.from := Get(w.balances, msg.from) + Fee(msg, msg.gas - used)];
    w.(balances := b[coinbase := Get(b, coinbase) + Fee(msg, used)])
  }

  /** Who pays before the machine runs: the sender, for all its gas; a call also uses its nonce. */
  lemma PrepaidBy(w: World, msg: Message, a: Address)
    requires Fee(msg, msg.gas) <= Get(w.balances, msg.from)
    ensures Get(Prepaid(w, msg).balances, a) == Get(w.balances, a) - if a == msg.from then msg.gas * msg.gasPrice else 0
    ensures Get(Prepaid(w, msg).nonces, a) == Get(w.nonces, a) + if a == msg.from && !msg.creation then 1 else 0
  {
  }

  /** Who is paid after it: the sender for the unused gas, the coinbase for the used gas. */
  lemma SettledWith(w: World, msg: Message, coinbase: Address, used: nat, a: Address)
    requires used <= msg.gas
    ensures Get(Settled(w, msg, coinbase, used).balances, a) ==
            Get(w.balances, a) + (if a == msg.from then (msg.gas - used) * msg.gasPrice else 0)
                               + (if a == coinbase then used * msg.gasPrice else 0)
    ensures Settled(w, msg, coinbase, used).nonces == w.nonces
  {
  }

  /** Buying, selling back and paying gas moves ether but neither makes nor burns any. */
  lemma Conserved(before: World, after: World, msg: Message, coinbase: Address, used: nat)
    requires Fee(msg, msg.gas) <= Get(before.balances, msg.from) && used <= msg.gas
    ensures Total(Settled(after, msg, coinbase, used).balances) - Total(before.balances)
            == Total(after.balances) - Total(Prepaid(before, msg).balances)
  {
    hide Total, Fee;
    FeeSplits(msg, used);
    Moved(before.balances, after.balances, msg.from, coinbase, Fee(msg, msg.gas), Fee(msg, msg.gas - used),
          Fee(msg, used));
  }

  lemma Moved(before: Balances, after: Balances, from: Address, coinbase: Address, bought: nat, unused: nat, fee: nat)
    requires bought == unused + fee && bought <= Get(before, from)
    ensures var b := after[from := Get(after, from) + unused];
            Total(b[coinbase := Get(b, coinbase) + fee]) - Total(before)
            == Total(after) - Total(before[from := Get(before, from) - bought])
  {
    hide Total;
    TotalSet(before, from, Get(before, from) - bought);
    TotalSet(after, from, Get(after, from) + unused);
    var b := after[from := Get(after, from) + unused];
    TotalSet(b, coinbase, Get(b, coinbase) + fee);
  }

  /** The gas used after the refund, which is at most half of what was used before it. */
  function AfterRefund(gas: nat, left: nat, refund: nat): (used: nat)
    requires left <= gas
    ensures gas - left <= 2 * used <= 2 * (gas - left) && used + refund >= gas - left
    ensures used + refund == gas - left || 2 * used - (gas - left) <= 1
  {
    var half := (gas - left) / 2;
    gas - left - if half > refund then refund else half
  }

  /** `w` with `amount` more, or less, on one account. */
  function Credited(w: World, a: Address, amount: int): World
    requires Get(w.balances, a) + amount >= 0
  {
    w.(balances := w.balances[a := Get(w.balances, a) + amount])
  }

  class StateDB {
    var world: World

    constructor (world: World)
      ensures this.world == world
    {
      this.world := world;
    }
  }

  /** Why no gas can be bought for a message. */
  function GasRefusal(w: World, pool: nat, msg: Message): Option<Error> {
    if msg.checkNonce && Get(w.nonces, msg.from) < msg.nonce then Some(ErrNonceTooHigh)
    else if msg.checkNonce && Get(w.nonces, msg.from) > msg.nonce then Some(ErrNonceTooLow)
    else if Get(w.balances, msg.from) < Fee(msg, msg.gas) then Some(ErrInsufficientBalanceForGas)
    else if pool < msg.gas then Some(ErrGasLimitReached)
    else None
  }

  /** Why a message is refused before the machine runs. */
  function Refusal(w: World, pool: nat, msg: Message, homestead: bool): Option<Error> {
    if GasRefusal(w, pool, msg).Some? then GasRefusal(w, pool, msg)
    else if TrueGas(msg.data, msg.creation, homestead) > msg.gas then Some(ErrOutOfGas)
    else None
  }

  /** What becomes of a message: an error, or a new world and the gas used. */
  datatype Step = Refused(error: Error) | Applied(world: World, usedGas: nat, failed: bool)

  function Transition(w: World, pool: nat, msg: Message, evm: Evm, homestead: bool, coinbase: Address): (s: Step)
    requires Frugal(evm)
    ensures s.Applied? ==> s.usedGas <= msg.gas <= pool && Fee(msg, msg.gas) <= Get(w.balances, msg.from)
  {
    var refusal := Refusal(w, pool, msg, homestead);
    if refusal.Some? then Refused(refusal.value)
    else
      var out := evm(Prepaid(w, msg), msg.gas - TrueGas(msg.data, msg.creation, homestead));
      if out.failed && out.insufficient then Refused(ErrInsufficientBalance)
      else
        var used := AfterRefund(msg.gas, out.gasLeft, out.refund);
        Applied(Settled(out.world, msg, coinbase, used), used, out.failed)
  }

  /**
   Who pays for a message: the machine starts with the sender short of all its gas, and what it leaves is changed
   by the price of the unused gas for the sender and of the used gas for the coinbase.
   */
  ghost predicate Charged(w: World, start: World, out: World, w': World, msg: Message, coinbase: Address, used: nat) {
    && (forall a :: Get(start.balances, a) == Get(w.balances, a) - if a == msg.from then msg.gas * msg.gasPrice else 0)
    && (forall a :: Get(start.nonces, a) == Get(w.nonces, a) + if a == msg.from && !msg.creation then 1 else 0)
    && w'.nonces == out.nonces && used <= msg.gas
    && forall a :: Get(w'.balances, a) ==
         Get(out.balances, a) + (if a == msg.from then (msg.gas - used) * msg.gasPrice else 0)
                              + (if a == coinbase then used * msg.gasPrice else 0)
  }

  lemma ChargedTo(w: World, out: World, msg: Message, coinbase: Address, used: nat)
    requires Fee(msg, msg.gas) <= Get(w.balances, msg.from) && used <= msg.gas
    ensures Charged(w, Prepaid(w, msg), out, Settled(out, msg, coinbase, used), msg, coinbase, used)
  {
    hide Fee, Prepaid, Settled;
    forall a ensures
        && Get(Prepaid(w, msg).balances, a) ==
           Get(w.balances, a) - (if a == msg.from then msg.gas * msg.gasPrice else 0)
        && Get(Prepaid(w, msg).nonces, a) == Get(w.nonces, a) + if a == msg.from && !msg.creation then 1 else 0 {
      PrepaidBy(w, msg, a);
    }
    forall a ensures Get(Settled(out, msg, coinbase, used).balances, a) ==
                     Get(out.balances, a) + (if a == msg.from then (msg.gas - used) * msg.gasPrice else 0)
                                          + (if a == coinbase then used * msg.gasPrice else 0) {
      SettledWith(out, msg, coinbase, used, a);
    }
    SettledWith(out, msg, coinbase, used, 0);
  }

  class StateTransition {
    const gp: GasPool
    const state: StateDB
    const msg: Message
    var gas: nat
    var initialGas: nat

    constructor (gp: GasPool, state: StateDB, msg: Message)
      ensures this.gp == gp && this.state == state && this.msg == msg && gas == 0 && initialGas == 0
    {
      this.gp, this.state, this.msg, gas, initialGas := gp, state, msg, 0, 0;
    }

    method AddBalance(a: Address, amount: int)
      requires Get(state.world.balances, a) + amount >= 0
      modifies state
      ensures state.world == Credited(old(state.world), a, amount)
    {
      state.world := Credited(state.world, a, amount);
    }

    /** `preCheck` and `buyGas`. */
    method BuyGas() returns (err: Option<Error>)
      requires gas == 0
      modifies this, gp, state
      ensures err == old(GasRefusal(state.world, gp.gas, msg))
      ensures
        var nonce, balance := Get(old(state.world).nonces, msg.from), Get(old(state.world).balances, msg.from);
        && (err == Some(ErrNonceTooHigh) <==> msg.checkNonce && nonce < msg.nonce)
        && (err == Some(ErrNonceTooLow) <==> msg.checkNonce && nonce > msg.nonce)
        && ((msg.checkNonce ==> nonce == msg.nonce) ==>
              && (err == Some(ErrInsufficientBalanceForGas) <==> balance < msg.gas * msg.gasPrice)
              && (err == Some(ErrGasLimitReached) <==> balance >= msg.gas * msg.gasPrice && old(gp.gas) < msg.gas)
              && (err == None <==> balance >= msg.gas * msg.gasPrice && old(gp.gas) >= msg.gas))
      ensures err.Some? ==> state.world == old(state.world) && gp.gas == old(gp.gas) && gas == 0
      ensures err.None? ==>
                && gas == initialGas == msg.gas <= old(gp.gas) && gp.gas == old(gp.gas) - msg.gas
                && Fee(msg, msg.gas) <= Get(old(state.world).balances, msg.from)
                && state.world == Credited(old(state.world), msg.from, 0 - Fee(msg, msg.gas))
    {
      if msg.checkNonce {
        var nonce := Get(state.world.nonces, msg.from);
        if nonce < msg.nonce {
          return Some(ErrNonceTooHigh);
        } else if nonce > msg.nonce {
          return Some(ErrNonceTooLow);
        }
      }
      var mgval: int := Fee(msg, msg.gas);
      if Get(state.world.balances, msg.from) < mgval {
        return Some(ErrInsufficientBalanceForGas);
      }
      var ok := gp.SubGas(msg.gas);
      if !ok {
        return Some(ErrGasLimitReached);
      }
      gas := gas + msg.gas;
      initialGas := msg.gas;
      AddBalance(msg.from, -mgval);
      err := None;
    }

    /** `refundGas`: the refund, the unused gas sold back, and the block's gas restored. */
    method RefundGas(refundCounter: nat)
      requires gas <= initialGas && gp.gas + initialGas <= MAX_UINT64
      modifies this, gp, state
      ensures initialGas == old(initialGas) && initialGas - gas == AfterRefund(initialGas, old(gas), refundCounter)
      ensures gp.gas == old(gp.gas) + gas
      ensures state.world == Credited(old(state.world), msg.from, Fee(msg, gas))
    {
      var refund := (initialGas - gas) / 2;
      if refund > refundCounter {
        refund := refundCounter;
      }
      gas := gas + refund;
      AddBalance(msg.from, Fee(msg, gas));
      gp.AddGas(gas);
    }

    /** Everything before the machine runs: buy gas, pay for the data and, for a call, use the nonce. */
    method Prepare(homestead: bool) returns (err: Option<Error>)
      requires gas == 0 && gp.gas <= MAX_UINT64 && |msg.data| <= MAX_UINT64
      modifies this, gp, state
      ensures err == old(Refusal(state.world, gp.gas, msg, homestead))
      ensures err.None? ==>
                && msg.gas <= old(gp.gas) && gp.gas == old(gp.gas) - msg.gas && initialGas == msg.gas
                && Fee(msg, msg.gas) <= Get(old(state.world).balances, msg.from)
                && gas == msg.gas - TrueGas(msg.data, msg.creation, homestead)
                && state.world == Prepaid(old(state.world), msg)
    {
      hide Fee, TrueGas;
      err := BuyGas();
      if err.Some? {
        return;
      }
      var intrinsic := IntrinsicGas(msg.data, msg.creation, homestead);
      if intrinsic.None? || gas < intrinsic.value {
        return Some(ErrOutOfGas);
      }
      gas := gas - intrinsic.value;
      if !msg.creation {
        var w := state.world;
        state.world := w.(nonces := w.nonces[msg.from := Get(w.nonces, msg.from) + 1]);
      }
    }

    /** `TransitionDb`. */
    method TransitionDb(evm: Evm, homestead: bool, coinbase: Address) returns (r: Result)
      requires Frugal(evm) && gas == 0 && gp.gas <= MAX_UINT64 && |msg.data| <= MAX_UINT64
      modifies this, gp, state
      ensures
        match Transition(old(state.world), old(gp.gas), msg, evm, homestead, coinbase)
        case Refused(error) => r == Err(error)
        case Applied(world, usedGas, failed) =>
          r == Ok(usedGas, failed) && gp.gas == old(gp.gas) - usedGas && state.world == world
      ensures r.Ok? ==>
                var w := old(state.world);
                var out := evm(Prepaid(w, msg), msg.gas - TrueGas(msg.data, msg.creation, homestead));
                Charged(w, Prepaid(w, msg), out.world, state.world, msg, coinbase, r.usedGas)
    {
      hide Fee, AfterRefund, TrueGas, Settled, Prepaid, Refusal;
      ghost var w := state.world;
      var err := Prepare(homestead);
      if err.Some? {
        return Err(err.value);
      }
      var out := evm(state.world, gas);
      state.world, gas := out.world, out.gasLeft;
      if out.failed && out.insufficient {
        return Err(ErrInsufficientBalance);
      }
      Settle(out.refund, coinbase);
      ChargedTo(w, out.world, msg, coinbase, initialGas - gas);
      return Ok(initialGas - gas, out.failed);
    }

    /** The refund to the sender and the fee of the coinbase. */
    method Settle(refundCounter: nat, coinbase: Address)
      requires gas <= initialGas == msg.gas && gp.gas + initialGas <= MAX_UINT64
      modifies this, gp, state
      ensures initialGas == old(initialGas) && gas <= initialGas
      ensures initialGas - gas == AfterRefund(initialGas, old(gas), refundCounter)
      ensures gp.gas == old(gp.gas) + gas && state.world == Settled(old(state.world), msg, coinbase, initialGas - gas)
    {
      hide Fee, AfterRefund;
      RefundGas(refundCounter);
      AddBalance(coinbase, Fee(msg, initialGas - gas));
    }
  }

  // ----- whole blocks -----

  datatype Receipt = Receipt(cumulativeGasUsed: nat, gasUsed: nat)

  /** The gas used before transaction `i`. */
  function Before(receipts: seq<Receipt>, i: nat): nat
    requires i <= |receipts|
  {
    if i == 0 then 0 else receipts[i - 1].cumulativeGasUsed
  }

  ghost predicate Adds(receipts: seq<Receipt>, i: nat)
    requires i < |receipts|
  {
    receipts[i].cumulativeGasUsed == Before(receipts, i) + receipts[i].gasUsed
  }

  /** Each cumulative amount is the one before plus the gas of its transaction. */
  ghost predicate AddsUp(receipts: seq<Receipt>) {
    forall i {:trigger Adds(receipts, i)} :: 0 <= i < |receipts| ==> Adds(receipts, i)
  }

  lemma AddsMore(receipts: seq<Receipt>, r: Receipt)
    requires AddsUp(receipts) && r.cumulativeGasUsed == Before(receipts, |receipts|) + r.gasUsed
    ensures AddsUp(receipts + [r]) && Before(receipts + [r], |receipts| + 1) == r.cumulativeGasUsed
  {
    forall i | 0 <= i < |receipts| + 1 ensures Adds(receipts + [r], i) {
      assert i < |receipts| ==> Adds(receipts, i);
    }
  }

  /** The machine moves ether without making or burning any. */
  ghost predicate Conserving(evm: Evm) {
    forall w, g :: Total(evm(w, g).world.balances) == Total(w.balances)
  }

  /** A message with its machine, and whether it fits a word. */
  ghost predicate Fit(msgs: seq<Message>, evms: seq<Evm>) {
    && |evms| == |msgs| && (forall i :: 0 <= i < |msgs| ==> |msgs[i].data| <= MAX_UINT64)
    && (forall i :: 0 <= i < |evms| ==> Frugal(evms[i]))
  }

  /** `ApplyTransaction`: fails exactly if the message is refused; else the receipt records what the gas pool pays. */
  method ApplyTransaction(gp: GasPool, state: StateDB, msg: Message, evm: Evm, homestead: bool, coinbase: Address,
                          usedGas: nat)
    returns (receipt: Option<Receipt>)
    requires Frugal(evm) && gp.gas + usedGas <= MAX_UINT64 && |msg.data| <= MAX_UINT64
    modifies gp, state
    ensures
      match Transition(old(state.world), old(gp.gas), msg, evm, homestead, coinbase)
      case Refused(_) => receipt == None
      case Applied(world, used, _) =>
        && receipt == Some(Receipt(usedGas + used, used))
        && gp.gas == old(gp.gas) - used && state.world == world
    ensures receipt.Some? && Conserving(evm) ==> Total(state.world.balances) == Total(old(state.world).balances)
  {
    hide Total, AfterRefund, TrueGas, Settled, Prepaid, Fee;
    var st := new StateTransition(gp, state, msg);
    ghost var w := state.world;
    var r := st.TransitionDb(evm, homestead, coinbase);
    if r.Err? {
      return None;
    }
    ghost var out := evm(Prepaid(w, msg), msg.gas - TrueGas(msg.data, msg.creation, homestead));
    Conserved(w, out.world, msg, coinbase, r.usedGas);
    return Some(Receipt(usedGas + r.usedGas, r.usedGas));
  }

  /** The world and the gas left after some messages of a block. */
  datatype Progress = Progress(world: World, gasLeft: nat)

  /** Where the first `n` messages lead, unless one of them is refused. */
  ghost function Reached(w: World, gasLimit: nat, msgs: seq<Message>, evms: seq<Evm>, homestead: bool,
                         coinbase: Address, n: nat): Option<Progress>
    requires Fit(msgs, evms) && n <= |msgs|
  {
    if n == 0 then Some(Progress(w, gasLimit))
    else
      var p := Reached(w, gasLimit, msgs, evms, homestead, coinbase, n - 1);
      if p.None? then None
      else
        match Transition(p.value.world, p.value.gasLeft, msgs[n - 1], evms[n - 1], homestead, coinbase)
        case Refused(_) => None
        case Applied(world, usedGas, _) => Some(Progress(world, p.value.gasLeft - usedGas))
  }

  /** After a refused message nothing is reached. */
  lemma {:induction false} NeverReached(w: World, gasLimit: nat, msgs: seq<Message>, evms: seq<Evm>, homestead: bool,
                                        coinbase: Address, m: nat, n: nat)
    requires Fit(msgs, evms) && m <= n <= |msgs| && Reached(w, gasLimit, msgs, evms, homestead, coinbase, m).None?
    ensures Reached(w, gasLimit, msgs, evms, homestead, coinbase, n).None?
    decreases n - m
  {
    hide Transition;
    if m < n {
      NeverReached(w, gasLimit, msgs, evms, homestead, coinbase, m, n - 1);
    }
  }

  /**
   `Process`, up to the rewards. It fails exactly if a message is refused, namely the first one, `failed`; else gas
   left and gas used make up the limit of the block.
   */
  method Process(state: StateDB, gasLimit: nat, msgs: seq<Message>, evms: seq<Evm>, homestead: bool, coinbase: Address)
    returns (receipts: Option<seq<Receipt>>, usedGas: nat, gasLeft: nat, ghost failed: nat)
    requires gasLimit <= MAX_UINT64 && Fit(msgs, evms)
    modifies state
    ensures gasLeft <= gasLimit
    ensures receipts.Some? <==> Reached(old(state.world), gasLimit, msgs, evms, homestead, coinbase, |msgs|).Some?
    ensures receipts.Some? ==>
              && Reached(old(state.world), gasLimit, msgs, evms, homestead, coinbase, |msgs|)
                 == Some(Progress(state.world, gasLeft))
              && |receipts.value| == |msgs| && AddsUp(receipts.value)
              && usedGas == Before(receipts.value, |msgs|) && usedGas + gasLeft == gasLimit
              && (forall i :: 0 <= i < |msgs| ==> receipts.value[i].gasUsed <= msgs[i].gas)
              && ((forall i :: 0 <= i < |evms| ==> Conserving(evms[i])) ==>
                    Total(state.world.balances) == Total(old(state.world).balances))
    ensures receipts.None? ==>
              && failed < |msgs|
              && var p := Reached(old(state.world), gasLimit, msgs, evms, homestead, coinbase, failed);
                 p.Some? && Transition(p.value.world, p.value.gasLeft, msgs[failed], evms[failed], homestead,
                                       coinbase).Refused?
  {
    hide Total, Frugal, Conserving, Transition;
    var gp := new GasPool(0);
    gp.AddGas(gasLimit);
    usedGas, failed := 0, 0;
    var done: seq<Receipt> := [];
    for i := 0 to |msgs|
      invariant |done| == i && AddsUp(done) && usedGas == Before(done, i) && gp.gas + usedGas == gasLimit
      invariant Reached(old(state.world), gasLimit, msgs, evms, homestead, coinbase, i)
                == Some(Progress(state.world, gp.gas))
      invariant forall j :: 0 <= j < i ==> done[j].gasUsed <= msgs[j].gas
      invariant (forall j :: 0 <= j < |evms| ==> Conserving(evms[j])) ==>
                Total(state.world.balances) == Total(old(state.world).balances)
    {
      var receipt := ApplyTransaction(gp, state, msgs[i], evms[i], homestead, coinbase, usedGas);
      if receipt.None? {
        NeverReached(old(state.world), gasLimit, msgs, evms, homestead, coinbase, i + 1, |msgs|);
        return None, 0, 0, i;
      }
      AddsMore(done, receipt.value);
      done, usedGas := done + [receipt.value], usedGas + receipt.value.gasUsed;
    }
    return Some(done), usedGas, gp.gas, 0;
  }

  /** Subtraction on 64-bit words. */
  function Minus(a: nat, b: nat): nat
    requires a <= MAX_UINT64 && b <= MAX_UINT64
  {
    if a >= b then a - b else a + MAX_UINT64 + 1 - b
  }

  function WithGas(receipts: seq<Receipt>, i: nat): Receipt
    requires i < |receipts| && Words(receipts)
  {
    receipts[i].(gasUsed := Minus(receipts[i].cumulativeGasUsed, Before(receipts, i)))
  }

  ghost predicate Words(receipts: seq<Receipt>) {
    forall i :: 0 <= i < |receipts| ==> receipts[i].cumulativeGasUsed <= MAX_UINT64
  }

  /** core/blockchain.go, `SetReceiptsData`: the gas of each transaction from the cumulative amounts. */
  method SetReceiptsData(receipts: array<Receipt>, transactions: nat) returns (ok: bool)
    requires Words(receipts[..])
    modifies receipts
    ensures ok <==> transactions == receipts.Length
    ensures !ok ==> receipts[..] == old(receipts[..])
    ensures ok ==> forall j :: 0 <= j < receipts.Length ==> receipts[j] == WithGas(old(receipts[..]), j)
    ensures ok ==> forall j :: 0 <= j < receipts.Length ==>
              var before := if j == 0 then 0 else old(receipts[j - 1]).cumulativeGasUsed;
              receipts[j] == Receipt(old(receipts[j]).cumulativeGasUsed,
                                     (old(receipts[j]).cumulativeGasUsed - before) % 0x1_0000_0000_0000_0000)
  {
    if transactions != receipts.Length {
      return false;
    }
    ghost var was := receipts[..];
    for j := 0 to receipts.Length
      invariant forall i :: j <= i < receipts.Length ==> receipts[i] == was[i]
      invariant forall i :: 0 <= i < j ==> receipts[i] == WithGas(was, i)
    {
      if j == 0 {
        receipts[j] := receipts[j].(gasUsed := receipts[j].cumulativeGasUsed);
      } else {
        receipts[j] := receipts[j].(gasUsed := Minus(receipts[j].cumulativeGasUsed, receipts[j - 1].cumulativeGasUsed));
      }
    }
    ok := true;
  }

  /** From cumulative amounts alone the gas that `Process` recorded is recovered. */
  lemma Recovered(processed: seq<Receipt>, stored: seq<Receipt>, j: nat)
    requires AddsUp(processed) && Before(processed, |processed|) <= MAX_UINT64 && |stored| == |processed|
    requires j < |stored|
    requires forall i :: 0 <= i < |processed| ==> stored[i].cumulativeGasUsed == processed[i].cumulativeGasUsed
    ensures Words(stored) && WithGas(stored, j) == processed[j]
  {
    forall i | 0 <= i < |processed| ensures processed[i].cumulativeGasUsed <= MAX_UINT64 {
      Increasing(processed, i);
    }
    assert Adds(processed, j);
  }

  lemma {:induction false} Increasing(receipts: seq<Receipt>, j: nat)
    requires AddsUp(receipts) && j < |receipts|
    ensures receipts[j].cumulativeGasUsed <= Before(receipts, |receipts|)
    decreases |receipts| - j
  {
    if j < |receipts| - 1 {
      assert Adds(receipts, j + 1);
      Increasing(receipts, j + 1);
    }
  }
}
