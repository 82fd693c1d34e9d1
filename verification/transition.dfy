/** State transitions: what a message, a transaction and a block do to gas and balances.
    The virtual machine is a parameter. */
module StateTransitions {
  import opened Transactions
  import opened Wrappers
  import opened GasAccounting

  type Balances = map<Address, int>

  /** What the state database holds of interest here. */
  datatype World = World(balances: Balances, nonces: map<Address, nat>, refund: nat)

  function Balance(b: Balances, a: Address): int {
    if a in b then b[a] else 0
  }

  function Credit(b: Balances, a: Address, amount: int): Balances {
    b[a := Balance(b, a) + amount]
  }

  /** A credit changes one balance by the amount and no other. */
  lemma CreditAt(b: Balances, a: Address, amount: int)
    ensures forall x: Address :: Balance(Credit(b, a, amount), x) == Balance(b, x) + if x == a then amount else 0
  {
  }

  ghost function Holder(b: Balances): (a: Address)
    requires b != map[]
    ensures a in b
  {
    var a :| a in b;
    a
  }

  /** The sum of all balances. */
  ghost function Wealth(b: Balances): int
    decreases |b|
  {
    if b == map[] then 0 else b[Holder(b)] + Wealth(b - {Holder(b)})
  }

  lemma {:induction false} WealthWithout(b: Balances, a: Address)
    requires a in b
    ensures Wealth(b) == b[a] + Wealth(b - {a})
    decreases |b|
  {
    var h := Holder(b);
    if a != h {
      assert b - {a} - {h} == b - {h} - {a};
      WealthWithout(b - {h}, a);
      WealthWithout(b - {a}, h);
    }
  }

  /** A credit adds to the sum what it adds to the account. */
  lemma WealthCredit(b: Balances, a: Address, amount: int)
    ensures Wealth(Credit(b, a, amount)) == Wealth(b) + amount
  {
    var c := Credit(b, a, amount);
    assert c - {a} == b - {a};
    WealthWithout(c, a);
    if a in b {
      WealthWithout(b, a);
    } else {
      assert b - {a} == b;
    }
  }

  datatype Call = Call(sender: Address, to: Option<Address>, data: seq<Byte>, gas: nat, value: int)

  datatype VmStatus = Fine | Broken | InsufficientFunds

  datatype VmResult = VmResult(world: World, gas: nat, status: VmStatus)

  type Vm = (World, Call) -> VmResult

  /** A machine that never returns more gas than it was given and neither creates nor
      destroys balance. */
  ghost predicate Conserving(vm: Vm) {
    forall w, c :: vm(w, c).gas <= c.gas && Wealth(vm(w, c).world.balances) == Wealth(w.balances)
  }

  /** A machine that never lowers a nonce. */
  ghost predicate NeverLowers(vm: Vm) {
    forall w, c, a: Address :: Nonce(vm(w, c).world, a) >= Nonce(w, a)
  }

  /** A machine that raises the sender's nonce when it creates a contract, whether that
      succeeds or not. */
  ghost predicate Counts(vm: Vm) {
    forall w, c: Call :: c.to.None? && !vm(w, c).status.InsufficientFunds? ==> Nonce(vm(w, c).world, c.sender) > Nonce(w, c.sender)
  }

  datatype Error =
    | InvalidSender | NonceTooHigh | NonceTooLow | InsufficientBalanceForGas | GasLimitReached | OutOfGas | InsufficientBalance

  /** GasPool: the gas that a block has left. */
  class GasPool {
    var gas: nat

    constructor ()
      ensures gas == 0
    {
      gas := 0;
    }

    /** AddGas. Going beyond a uint64 is a panic, which callers have to rule out. */
    method AddGas(amount: nat)
      requires gas + amount <= MAX_UINT64
      modifies this
      ensures gas == old(gas) + amount
    {
      gas := gas + amount;
    }

    method SubGas(amount: nat) returns (ok: bool)
      modifies this
      ensures ok <==> amount <= old(gas)
      ensures gas == if ok then old(gas) - amount else old(gas)
    {
      ok := gas >= amount;
      if ok {
        gas := gas - amount;
      }
    }
  }

  class StateDB {
    var world: World

    constructor (w: World)
      ensures world == w
    {
      world := w;
    }

    method AddBalance(a: Address, amount: int)
      modifies this
      ensures world == old(world).(balances := Credit(old(world).balances, a, amount))
      ensures Wealth(world.balances) == Wealth(old(world).balances) + amount
    {
      WealthCredit(world.balances, a, amount);
      world := world.(balances := Credit(world.balances, a, amount));
    }

    method SetNonce(a: Address, nonce: nat)
      modifies this
      ensures world == old(world).(nonces := old(world).nonces[a := nonce])
    {
      world := world.(nonces := world.nonces[a := nonce]);
    }
  }

  function Nonce(w: World, a: Address): nat {
    if a in w.nonces then w.nonces[a] else 0
  }

  /** Gas charged when `left` of `initial` is left and the refund counter is `refund`. */
  function Charged(initial: nat, left: nat, refund: nat): (used: int)
    requires left <= initial
    ensures (initial - left + 1) / 2 <= used <= initial - left
    ensures 2 * refund <= initial - left ==> used == initial - left - refund
    ensures 2 * refund >= initial - left ==> used == (initial - left + 1) / 2
  {
    var used := initial - left;
    used - if refund < used / 2 then refund else used / 2
  }

  class StateTransition {
    const gp: GasPool
    const state: StateDB
    const msg: Tx
    const sender: Address
    const checkNonce: bool  // off for calls that only simulate
    var gas: nat
    var initialGas: nat

    constructor (gp: GasPool, state: StateDB, msg: Tx, sender: Address, checkNonce: bool)
      ensures this.gp == gp && this.state == state && this.msg == msg && this.sender == sender && this.checkNonce == checkNonce && gas == 0
    {
      this.gp, this.state, this.msg, this.sender, this.checkNonce := gp, state, msg, sender, checkNonce;
      gas, initialGas := 0, 0;
    }

    method UseGas(amount: nat) returns (ok: bool)
      modifies `gas
      ensures ok <==> amount <= old(gas)
      ensures gas == if ok then old(gas) - amount else old(gas)
    {
      ok := gas >= amount;
      if ok {
        gas := gas - amount;
      }
    }

    /** What keeps a message from buying its gas, in the order of the checks. */
    static function Refused(w: World, pool: nat, msg: Tx, sender: Address, checkNonce: bool): Option<Error> {
      if checkNonce && Nonce(w, sender) < msg.nonce then Some(NonceTooHigh)
      else if checkNonce && Nonce(w, sender) > msg.nonce then Some(NonceTooLow)
      else if Balance(w.balances, sender) < msg.gas * msg.price then Some(InsufficientBalanceForGas)
      else if pool < msg.gas then Some(GasLimitReached)
      else None
    }

    /** buyGas: the whole gas limit is paid for in advance and taken from the pool. */
    method BuyGas() returns (err: Option<Error>)
      requires gas == 0
      modifies this, gp, state
      ensures err == if Balance(old(state.world).balances, sender) < msg.gas * msg.price then Some(InsufficientBalanceForGas)
                     else if old(gp.gas) < msg.gas then Some(GasLimitReached) else None
      ensures err.None? ==>
                && gas == initialGas == msg.gas && gp.gas == old(gp.gas) - msg.gas
                && state.world == old(state.world).(balances := Credit(old(state.world).balances, sender, -(msg.gas * msg.price)))
                && Wealth(state.world.balances) == Wealth(old(state.world).balances) - msg.gas * msg.price
      ensures err.Some? ==> gp.gas == old(gp.gas) && state.world == old(state.world)
    {
      var mgval := msg.gas * msg.price;
      if Balance(state.world.balances, sender) < mgval {
        return Some(InsufficientBalanceForGas);
      }
      var ok := gp.SubGas(msg.gas);
      if !ok {
        return Some(GasLimitReached);
      }
      gas := gas + msg.gas;
      initialGas := msg.gas;
      state.AddBalance(sender, -mgval);
      return None;
    }

    method PreCheck() returns (err: Option<Error>)
      requires gas == 0
      modifies this, gp, state
      ensures err == Refused(old(state.world), old(gp.gas), msg, sender, checkNonce)
      ensures err == Some(NonceTooHigh) <==> checkNonce && msg.nonce > Nonce(old(state.world), sender)
      ensures err == Some(NonceTooLow) <==> checkNonce && msg.nonce < Nonce(old(state.world), sender)
      ensures err == Some(InsufficientBalanceForGas) <==>
                (checkNonce ==> msg.nonce == Nonce(old(state.world), sender)) && Balance(old(state.world).balances, sender) < msg.gas * msg.price
      ensures err.None? <==>
                && (checkNonce ==> msg.nonce == Nonce(old(state.world), sender))
                && Balance(old(state.world).balances, sender) >= msg.gas * msg.price && old(gp.gas) >= msg.gas
      ensures err.None? ==>
                && gas == initialGas == msg.gas && gp.gas == old(gp.gas) - msg.gas
                && state.world == old(state.world).(balances := Credit(old(state.world).balances, sender, -(msg.gas * msg.price)))
                && Wealth(state.world.balances) == Wealth(old(state.world).balances) - msg.gas * msg.price
      ensures err.Some? ==> gp.gas == old(gp.gas) && state.world == old(state.world)
    {
      if checkNonce {
        var nonce := Nonce(state.world, sender);
        if nonce < msg.nonce {
          return Some(NonceTooHigh);
        } else if nonce > msg.nonce {
          return Some(NonceTooLow);
        }
      }
      err := BuyGas();
    }

    /** refundGas: adds the capped refund, pays back what is left and returns it to the pool. */
    method RefundGas()
      requires gas <= initialGas && gp.gas + initialGas <= MAX_UINT64
      modifies this, gp, state
      ensures initialGas == old(initialGas) && gas == initialGas - Charged(initialGas, old(gas), old(state.world).refund)
      ensures gas == old(gas) + if old(state.world).refund <= (initialGas - old(gas)) / 2 then old(state.world).refund else (initialGas - old(gas)) / 2
      ensures gp.gas == old(gp.gas) + gas
      ensures state.world == old(state.world).(balances := Credit(old(state.world).balances, sender, gas * msg.price))
      ensures Wealth(state.world.balances) == Wealth(old(state.world).balances) + gas * msg.price
    {
      var refund := (initialGas - gas) / 2;
      if refund > state.world.refund {
        refund := state.world.refund;
      }
      gas := gas + refund;
      state.AddBalance(sender, gas * msg.price);
      gp.AddGas(gas);
    }

    /** The state that the machine starts from: gas paid for, nonce raised for a call. */
    static function Entered(w: World, msg: Tx, sender: Address): (start: World)
      ensures start.refund == w.refund
      ensures forall a: Address :: Nonce(start, a) == Nonce(w, a) + if a == sender && msg.to.Some? then 1 else 0
      ensures forall a: Address :: Balance(start.balances, a) == Balance(w.balances, a) - if a == sender then msg.gas * msg.price else 0
    {
      var paid := w.(balances := Credit(w.balances, sender, -(msg.gas * msg.price)));
      if msg.to.None? then paid else paid.(nonces := paid.nonces[sender := Nonce(paid, sender) + 1])
    }

    /** What the machine makes of it with the gas left after the intrinsic cost. */
    static function Executed(w: World, msg: Tx, sender: Address, homestead: bool, vm: Vm): VmResult
      requires IntrinsicCost(msg.data, msg.to.None?, homestead) <= msg.gas
    {
      vm(Entered(w, msg, sender),
         Call(sender, msg.to, msg.data, msg.gas - IntrinsicCost(msg.data, msg.to.None?, homestead), msg.value))
    }

    /** Why a message cannot be part of a block. */
    static function Rejected(w: World, pool: nat, msg: Tx, sender: Address, checkNonce: bool, homestead: bool, vm: Vm): (err: Option<Error>)
      ensures err == Some(NonceTooHigh) <==> checkNonce && msg.nonce > Nonce(w, sender)
      ensures err == Some(NonceTooLow) <==> checkNonce && msg.nonce < Nonce(w, sender)
      ensures var known := checkNonce ==> msg.nonce == Nonce(w, sender);
              var rich := Balance(w.balances, sender) >= msg.gas * msg.price;
              var dear := IntrinsicCost(msg.data, msg.to.None?, homestead) > msg.gas;
              && (err == Some(InsufficientBalanceForGas) <==> known && !rich)
              && (err == Some(GasLimitReached) <==> known && rich && pool < msg.gas)
              && (err == Some(OutOfGas) <==> known && rich && pool >= msg.gas && dear)
              && (err == Some(InsufficientBalance) || err.None? <==> known && rich && pool >= msg.gas && !dear)
    {
      if Refused(w, pool, msg, sender, checkNonce).Some? then Refused(w, pool, msg, sender, checkNonce)
      else if IntrinsicCost(msg.data, msg.to.None?, homestead) > msg.gas then Some(OutOfGas)
      else if Executed(w, msg, sender, homestead, vm).status.InsufficientFunds? then Some(InsufficientBalance)
      else None
    }

    /** TransitionDb. The sender pays for the gas used and nothing else, the coinbase is
        paid just that, and the pool gets the rest back. */
    method TransitionDb(homestead: bool, coinbase: Address, vm: Vm)
        returns (usedGas: nat, failed: bool, err: Option<Error>, ghost start: World, ghost out: VmResult)
      requires gas == 0 && msg.gas <= MAX_UINT64 && gp.gas <= MAX_UINT64 && Conserving(vm)
      modifies this, gp, state
      ensures err == Rejected(old(state.world), old(gp.gas), msg, sender, checkNonce, homestead, vm)
      ensures err.None? ==>
                && out == Executed(old(state.world), msg, sender, homestead, vm) && out.gas <= msg.gas
                && usedGas == Charged(msg.gas, out.gas, out.world.refund)
                && TX_GAS <= IntrinsicCost(msg.data, msg.to.None?, homestead) <= 2 * usedGas <= 2 * msg.gas
                && (failed <==> out.status.Broken?)
                && gp.gas == old(gp.gas) - usedGas
                && state.world == out.world.(balances :=
                     Credit(Credit(out.world.balances, sender, (msg.gas - usedGas) * msg.price), coinbase, usedGas * msg.price))
                && Wealth(state.world.balances) == Wealth(old(state.world).balances)
      // The same account by account: what the machine starts from, what it is given, what is
      // charged, and who ends with how much.
      ensures err.None? ==>
                && start.refund == old(state.world).refund
                && (forall a: Address :: Nonce(start, a) == Nonce(old(state.world), a) + if a == sender && msg.to.Some? then 1 else 0)
                && (forall a: Address :: Balance(start.balances, a) == Balance(old(state.world).balances, a) - if a == sender then msg.gas * msg.price else 0)
                && msg.gas >= IntrinsicCost(msg.data, msg.to.None?, homestead)
                && out == vm(start, Call(sender, msg.to, msg.data, msg.gas - IntrinsicCost(msg.data, msg.to.None?, homestead), msg.value))
                && (var spent := msg.gas - out.gas;
                    usedGas == spent - if out.world.refund <= spent / 2 then out.world.refund else spent / 2)
                && state.world.nonces == out.world.nonces && state.world.refund == out.world.refund
                && forall a: Address :: Balance(state.world.balances, a) == Balance(out.world.balances, a)
                     + (if a == sender then (msg.gas - usedGas) * msg.price else 0) + (if a == coinbase then usedGas * msg.price else 0)
    {
      hide Wealth, IntrinsicCost, Charged, Credit, Balance;
      usedGas, failed := 0, false;
      start, out := state.world, VmResult(state.world, 0, Fine);
      err := PreCheck();
      if err.Some? {
        return;
      }
      err, failed, start, out := Execute(homestead, vm, old(state.world));
      if err.Some? {
        return;
      }
      CostIsPositive(msg.data, msg.to.None?, homestead);
      usedGas := Settle(coinbase);
      CreditAt(out.world.balances, sender, (msg.gas - usedGas) * msg.price);
      CreditAt(Credit(out.world.balances, sender, (msg.gas - usedGas) * msg.price), coinbase, usedGas * msg.price);
    }

    /** Pays the intrinsic gas and runs the machine. */
    method Execute(homestead: bool, vm: Vm, ghost before: World)
        returns (err: Option<Error>, failed: bool, ghost start: World, ghost out: VmResult)
      requires gas == msg.gas <= MAX_UINT64
      requires state.world == before.(balances := Credit(before.balances, sender, -(msg.gas * msg.price)))
      modifies `gas, state
      ensures var cost := IntrinsicCost(msg.data, msg.to.None?, homestead);
              if cost > msg.gas then err == Some(OutOfGas)
              else && out == Executed(before, msg, sender, homestead, vm)
                   && out == vm(start, Call(sender, msg.to, msg.data, msg.gas - cost, msg.value))
                   && err == (if out.status.InsufficientFunds? then Some(InsufficientBalance) else None)
                   && state.world == out.world && gas == out.gas && (failed <==> out.status.Broken?)
                   && (Conserving(vm) ==> gas <= msg.gas - cost && Wealth(state.world.balances) == Wealth(old(state.world).balances))
      ensures start.refund == before.refund
      ensures forall a: Address :: Nonce(start, a) == Nonce(before, a) + if a == sender && msg.to.Some? then 1 else 0
      ensures forall a: Address :: Balance(start.balances, a) == Balance(before.balances, a) - if a == sender then msg.gas * msg.price else 0
    {
      hide Wealth, IntrinsicCost, Credit, Balance;
      failed := false;
      start := Entered(before, msg, sender);
      out := vm(start, Call(sender, msg.to, msg.data, 0, msg.value));
      var creation := msg.to.None?;
      CostIsPositive(msg.data, creation, homestead);
      var cost := IntrinsicGas(msg.data, creation, homestead);
      if cost.None? {
        return Some(OutOfGas), false, start, out;
      }
      var ok := UseGas(cost.value);
      if !ok {
        return Some(OutOfGas), false, start, out;
      }
      if !creation {
        state.SetNonce(sender, Nonce(state.world, sender) + 1);
      }
      start := state.world;
      var res := vm(state.world, Call(sender, msg.to, msg.data, gas, msg.value));
      out := res;
      state.world, gas := res.world, res.gas;
      failed := res.status.Broken?;
      err := if res.status.InsufficientFunds? then Some(InsufficientBalance) else None;
    }

    /** Refunds the sender and pays the coinbase. */
    method Settle(coinbase: Address) returns (usedGas: nat)
      requires gas <= initialGas && gp.gas + initialGas <= MAX_UINT64
      modifies this, gp, state
      ensures usedGas == Charged(old(initialGas), old(gas), old(state.world).refund) && usedGas <= old(initialGas)
      ensures gp.gas == old(gp.gas) + old(initialGas) - usedGas
      ensures state.world == old(state.world).(balances :=
                Credit(Credit(old(state.world).balances, sender, (old(initialGas) - usedGas) * msg.price), coinbase, usedGas * msg.price))
      ensures Wealth(state.world.balances) == Wealth(old(state.world).balances) + old(initialGas) * msg.price
    {
      hide Wealth, Credit, Balance;
      RefundGas();
      usedGas := initialGas - gas;
      state.AddBalance(coinbase, usedGas * msg.price);
      Settles(initialGas, usedGas, msg.price);
    }

    static lemma CostIsPositive(data: seq<Byte>, creation: bool, homestead: bool)
      ensures IntrinsicCost(data, creation, homestead) >= TX_GAS
    {
    }

    static lemma Settles(bought: int, used: int, price: int)
      ensures (bought - used) * price + used * price == bought * price
    {
    }
  }
}
