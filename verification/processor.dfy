/** StateProcessor: the transactions of a block in order, and their receipts. */
module StateProcessors {
  import opened Transactions
  import opened Wrappers
  import opened GasAccounting
  import opened StateTransitions

  /** What a block's header and the chain configuration fix for all its transactions. */
  datatype Env = Env(coinbase: Address, gasLimit: nat, homestead: bool)

  /** The consensus fields, status and cumulative gas, and those derived from the block.
      A contract's address is a digest of its creator and the creator's nonce. */
  datatype Receipt = Receipt(failed: bool, cumulative: nat, txHash: Hash, gasUsed: nat, contract: Option<(Address, nat)>)

  function Created(tx: Tx): Option<(Address, nat)> {
    if tx.to.None? && tx.sender.Some? then Some((tx.sender.value, tx.nonce)) else None
  }

  /** The gas used up to, and not including, receipt `i`. */
  function UsedBefore(rs: seq<Receipt>, i: nat): nat
    requires i <= |rs|
  {
    if i == 0 then 0 else rs[i - 1].cumulative
  }

  /** The receipt of a transaction: it used gas, and the cumulative gas is exact. */
  ghost predicate AccountedAt(txs: seq<Tx>, rs: seq<Receipt>, i: nat)
    requires i < |rs| <= |txs|
  {
    && rs[i].gasUsed > 0 && rs[i].cumulative == UsedBefore(rs, i) + rs[i].gasUsed
    && rs[i].txHash == txs[i].Hash() && rs[i].contract == Created(txs[i])
  }

  ghost predicate Accounted(txs: seq<Tx>, rs: seq<Receipt>) {
    |rs| <= |txs| && forall i: nat {:trigger AccountedAt(txs, rs, i)} :: i < |rs| ==> AccountedAt(txs, rs, i)
  }

  lemma AccountedNext(txs: seq<Tx>, rs: seq<Receipt>, r: Receipt)
    requires Accounted(txs, rs) && |rs| < |txs|
    requires r.gasUsed > 0 && r.cumulative == UsedBefore(rs, |rs|) + r.gasUsed
    requires r.txHash == txs[|rs|].Hash() && r.contract == Created(txs[|rs|])
    ensures Accounted(txs, rs + [r]) && UsedBefore(rs + [r], |rs| + 1) == r.cumulative
  {
    var rs' := rs + [r];
    forall i: nat | i < |rs'| ensures AccountedAt(txs, rs', i) {
      assert UsedBefore(rs', i) == UsedBefore(rs, i);
      assert i < |rs| ==> AccountedAt(txs, rs, i);
    }
  }

  /** Cumulative gas strictly increases. */
  lemma {:induction false} CumulativeIncreases(txs: seq<Tx>, rs: seq<Receipt>, i: nat, j: nat)
    requires Accounted(txs, rs) && i < j < |rs|
    ensures rs[i].cumulative < rs[j].cumulative
    decreases j
  {
    assert AccountedAt(txs, rs, j);
    if i < j - 1 {
      CumulativeIncreases(txs, rs, i, j - 1);
    }
  }

  /** Why a transaction makes a block invalid. */
  function Objection(w: World, pool: nat, tx: Tx, env: Env, vm: Vm): Option<Error> {
    if tx.sender.None? then Some(InvalidSender)
    else StateTransition.Rejected(w, pool, tx, tx.sender.value, true, env.homestead, vm)
  }

  /** A block so far: the state, the gas left and the receipts. */
  datatype Progress = Progress(world: World, pool: nat, receipts: seq<Receipt>)

  datatype Outcome = Processed(progress: Progress) | Invalid(error: Error)

  ghost function GasUsed(w: World, tx: Tx, env: Env, vm: Vm): (used: nat)
    requires Conserving(vm) && tx.sender.Some? && IntrinsicCost(tx.data, tx.to.None?, env.homestead) <= tx.gas
    ensures used <= tx.gas
  {
    var out := StateTransition.Executed(w, tx, tx.sender.value, env.homestead, vm);
    assert out.gas <= tx.gas;
    Charged(tx.gas, out.gas, out.world.refund)
  }

  /** A block with one more transaction: what the machine did, with the gas not used paid
      back to the sender and the gas used paid to the coinbase. */
  ghost function Extended(p: Progress, tx: Tx, env: Env, vm: Vm): Outcome
    requires Conserving(vm)
  {
    if Objection(p.world, p.pool, tx, env, vm).Some? then Invalid(Objection(p.world, p.pool, tx, env, vm).value)
    else
      var out := StateTransition.Executed(p.world, tx, tx.sender.value, env.homestead, vm);
      var used := GasUsed(p.world, tx, env, vm);
      var settled := Credit(Credit(out.world.balances, tx.sender.value, (tx.gas - used) * tx.price), env.coinbase, used * tx.price);
      Processed(Progress(World(settled, out.world.nonces, 0), p.pool - used,
                         p.receipts + [Receipt(out.status.Broken?, UsedBefore(p.receipts, |p.receipts|) + used, tx.Hash(), used, Created(tx))]))
  }

  /** A block with all its transactions, or the first objection to one. */
  ghost function Block(p: Progress, txs: seq<Tx>, env: Env, vm: Vm): Outcome
    requires Conserving(vm)
  {
    if txs == [] then Processed(p)
    else
      match Block(p, txs[..|txs| - 1], env, vm)
      case Invalid(e) => Invalid(e)
      case Processed(q) => Extended(q, txs[|txs| - 1], env, vm)
  }

  /** One objection makes the whole block invalid. */
  lemma {:induction false} InvalidPrefix(p: Progress, txs: seq<Tx>, env: Env, vm: Vm, i: nat)
    requires Conserving(vm) && i <= |txs| && Block(p, txs[..i], env, vm).Invalid?
    ensures Block(p, txs, env, vm) == Block(p, txs[..i], env, vm)
    decreases |txs|
  {
    if i < |txs| {
      assert txs[..|txs| - 1][..i] == txs[..i];
      InvalidPrefix(p, txs[..|txs| - 1], env, vm, i);
    } else {
      assert txs[..i] == txs;
    }
  }

  lemma BlockNext(p: Progress, txs: seq<Tx>, env: Env, vm: Vm, i: nat)
    requires Conserving(vm) && i < |txs| && Block(p, txs[..i], env, vm).Processed?
    ensures Block(p, txs[..i + 1], env, vm) == Extended(Block(p, txs[..i], env, vm).progress, txs[i], env, vm)
  {
    assert txs[..i + 1][..i] == txs[..i];
  }

  /** A prefix of an accepted block is accepted. */
  lemma AcceptedPrefix(p: Progress, txs: seq<Tx>, env: Env, vm: Vm, i: nat)
    requires Conserving(vm) && i <= |txs| && Block(p, txs, env, vm).Processed?
    ensures Block(p, txs[..i], env, vm).Processed?
  {
    if Block(p, txs[..i], env, vm).Invalid? {
      InvalidPrefix(p, txs, env, vm, i);
    }
  }

  lemma ExtendedNonces(p: Progress, tx: Tx, env: Env, vm: Vm, a: Address)
    requires Conserving(vm) && NeverLowers(vm) && Extended(p, tx, env, vm).Processed?
    ensures tx.sender.Some? && tx.nonce == Nonce(p.world, tx.sender.value)
    ensures var w' := Extended(p, tx, env, vm).progress.world;
            && Nonce(w', a) >= Nonce(p.world, a)
            && ((tx.to.Some? || Counts(vm)) && a == tx.sender.value ==> Nonce(w', a) > Nonce(p.world, a))
  {
    hide Conserving, Wealth, Credit, Charged, IntrinsicCost, StateTransition.Entered, StateTransition.Refused, GasUsed;
    var start := StateTransition.Entered(p.world, tx, tx.sender.value);
    var cost := IntrinsicCost(tx.data, tx.to.None?, env.homestead);
    var out := vm(start, Call(tx.sender.value, tx.to, tx.data, tx.gas - cost, tx.value));
    assert out == StateTransition.Executed(p.world, tx, tx.sender.value, env.homestead, vm);
    assert Nonce(out.world, a) >= Nonce(start, a);
  }

  /** A transaction of an accepted block has the nonce of its sender at its turn, and uses it
      up if it is a call, or if the machine does so for creations. */
  lemma NonceUsedUp(p: Progress, txs: seq<Tx>, env: Env, vm: Vm, i: nat, a: Address)
    requires Conserving(vm) && NeverLowers(vm) && i < |txs| && Block(p, txs, env, vm).Processed?
    ensures Block(p, txs[..i], env, vm).Processed? && Block(p, txs[..i + 1], env, vm).Processed? && txs[i].sender.Some?
    ensures var w, w' := Block(p, txs[..i], env, vm).progress.world, Block(p, txs[..i + 1], env, vm).progress.world;
            && txs[i].nonce == Nonce(w, txs[i].sender.value) && Nonce(w', a) >= Nonce(w, a)
            && ((txs[i].to.Some? || Counts(vm)) && a == txs[i].sender.value ==> Nonce(w', a) > Nonce(w, a))
  {
    hide Conserving, NeverLowers, Counts, Extended, Block;
    AcceptedPrefix(p, txs, env, vm, i);
    AcceptedPrefix(p, txs, env, vm, i + 1);
    BlockNext(p, txs, env, vm, i);
    ExtendedNonces(Block(p, txs[..i], env, vm).progress, txs[i], env, vm, a);
  }

  lemma {:induction false} NonceGrows(p: Progress, txs: seq<Tx>, env: Env, vm: Vm, i: nat, j: nat, a: Address)
    requires Conserving(vm) && NeverLowers(vm) && i <= j <= |txs| && Block(p, txs, env, vm).Processed?
    ensures Block(p, txs[..i], env, vm).Processed? && Block(p, txs[..j], env, vm).Processed?
    ensures Nonce(Block(p, txs[..j], env, vm).progress.world, a) >= Nonce(Block(p, txs[..i], env, vm).progress.world, a)
    decreases j
  {
    hide Conserving, NeverLowers, Block;
    AcceptedPrefix(p, txs, env, vm, i);
    if i < j {
      NonceGrows(p, txs, env, vm, i, j - 1, a);
      NonceUsedUp(p, txs, env, vm, j - 1, a);
    }
  }

  /** In an accepted block no call is ever processed twice: what follows of its sender has a
      higher nonce. The same holds of creations if the machine counts them. */
  lemma NeverReplayed(p: Progress, txs: seq<Tx>, env: Env, vm: Vm, i: nat, j: nat)
    requires Conserving(vm) && NeverLowers(vm) && i < j < |txs| && Block(p, txs, env, vm).Processed?
    requires txs[i].sender == txs[j].sender && (txs[i].to.Some? || Counts(vm))
    ensures txs[i].nonce < txs[j].nonce
  {
    hide Conserving, NeverLowers, Counts, Block;
    var a := if txs[i].sender.Some? then txs[i].sender.value else 0;
    NonceUsedUp(p, txs, env, vm, i, a);
    NonceUsedUp(p, txs, env, vm, j, a);
    NonceGrows(p, txs, env, vm, i + 1, j, a);
  }

  class StateProcessor {
    const env: Env
    const vm: Vm

    constructor (env: Env, vm: Vm)
      ensures this.env == env && this.vm == vm
    {
      this.env, this.vm := env, vm;
    }

    /** ApplyTransaction: the receipt, or the reason why the block is invalid. */
    method ApplyTransaction(gp: GasPool, state: StateDB, tx: Tx, used: nat, ghost before: seq<Receipt>)
      returns (receipt: Option<Receipt>, err: Option<Error>, ghost start: World, ghost out: VmResult)
      requires tx.gas <= MAX_UINT64 && gp.gas <= MAX_UINT64 && Conserving(vm) && used == UsedBefore(before, |before|)
      modifies gp, state
      ensures err == Objection(old(state.world), old(gp.gas), tx, env, vm)
      ensures receipt.Some? <==> err.None?
      ensures receipt.Some? ==>
                && Extended(Progress(old(state.world), old(gp.gas), before), tx, env, vm)
                   == Processed(Progress(state.world, gp.gas, before + [receipt.value]))
                && receipt.value.gasUsed > 0 && gp.gas == old(gp.gas) - receipt.value.gasUsed
                && Wealth(state.world.balances) == Wealth(old(state.world).balances)
      // The same field by field.
      ensures receipt.Some? ==>
                && tx.sender.Some? && tx.nonce == Nonce(old(state.world), tx.sender.value)
                && start.refund == old(state.world).refund
                && (forall a: Address :: Nonce(start, a) == Nonce(old(state.world), a) + if Some(a) == tx.sender && tx.to.Some? then 1 else 0)
                && (forall a: Address :: Balance(start.balances, a) == Balance(old(state.world).balances, a) - if Some(a) == tx.sender then tx.gas * tx.price else 0)
                && tx.gas >= IntrinsicCost(tx.data, tx.to.None?, env.homestead)
                && out == vm(start, Call(tx.sender.value, tx.to, tx.data, tx.gas - IntrinsicCost(tx.data, tx.to.None?, env.homestead), tx.value))
                && (receipt.value.failed <==> out.status.Broken?) && receipt.value.cumulative == used + receipt.value.gasUsed
                && receipt.value.txHash == tx.Hash() && receipt.value.contract == (if tx.to.None? then Some((tx.sender.value, tx.nonce)) else None)
                && state.world.nonces == out.world.nonces && state.world.refund == 0
                && out.gas <= tx.gas && (var spent := tx.gas - out.gas;
                    receipt.value.gasUsed == spent - if out.world.refund <= spent / 2 then out.world.refund else spent / 2)
                && forall a: Address :: Balance(state.world.balances, a) == Balance(out.world.balances, a)
                     + (if Some(a) == tx.sender then (tx.gas - receipt.value.gasUsed) * tx.price else 0)
                     + (if a == env.coinbase then receipt.value.gasUsed * tx.price else 0)
    {
      hide Wealth, Charged, Conserving, StateTransition.Executed, Credit;
      start, out := state.world, VmResult(state.world, 0, Fine);
      if tx.sender.None? {
        return None, Some(InvalidSender), start, out;
      }
      var st := new StateTransition(gp, state, tx, tx.sender.value, true);
      var gas, failed;
      gas, failed, err, start, out := st.TransitionDb(env.homestead, env.coinbase, vm);
      if err.Some? {
        return None, err, start, out;
      }
      state.world := state.world.(refund := 0);
      receipt := Some(Receipt(failed, used + gas, tx.Hash(), gas, Created(tx)));
    }

    /** Process: the state, the pool and the receipts are those of the block, or the error is
        its first objection. On success the pool's gas and the gas used add up to the limit,
        the sum of all balances is what it was, and the receipts account for all gas used. */
    method Process(txs: seq<Tx>, state: StateDB) returns (receipts: seq<Receipt>, usedGas: nat, err: Option<Error>, gp: GasPool)
      requires env.gasLimit <= MAX_UINT64 && Conserving(vm) && forall i :: 0 <= i < |txs| ==> txs[i].gas <= MAX_UINT64
      modifies state
      ensures fresh(gp)
      ensures Block(Progress(old(state.world), env.gasLimit, []), txs, env, vm)
              == if err.Some? then Invalid(err.value) else Processed(Progress(state.world, gp.gas, receipts))
      ensures err.None? ==>
                && |receipts| == |txs| && Accounted(txs, receipts) && usedGas == UsedBefore(receipts, |receipts|)
                && gp.gas + usedGas == env.gasLimit
                && Wealth(state.world.balances) == Wealth(old(state.world).balances)
      ensures err.None? && NeverLowers(vm) ==>
                forall i, j :: 0 <= i < j < |txs| && txs[i].sender == txs[j].sender && (txs[i].to.Some? || Counts(vm)) ==> txs[i].nonce < txs[j].nonce
    {
      hide Wealth, Conserving, Extended, Accounted, Objection, NeverLowers, Counts;
      receipts, usedGas, err := [], 0, None;
      gp := new GasPool();
      gp.AddGas(env.gasLimit);
      ghost var start := Progress(state.world, gp.gas, []);
      Unaccounted(txs);
      var i := 0;
      while i < |txs|
        invariant 0 <= i <= |txs| && |receipts| == i && Accounted(txs, receipts) && usedGas == UsedBefore(receipts, i)
        invariant Block(start, txs[..i], env, vm) == Processed(Progress(state.world, gp.gas, receipts))
        invariant gp.gas + usedGas == env.gasLimit && Wealth(state.world.balances) == Wealth(old(state.world).balances)
      {
        BlockNext(start, txs, env, vm, i);
        Objected(Progress(state.world, gp.gas, receipts), txs[i], env, vm);
        var receipt;
        ghost var p := Progress(state.world, gp.gas, receipts);
        ghost var from, res;
        receipt, err, from, res := ApplyTransaction(gp, state, txs[i], usedGas, receipts);
        if err.Some? {
          InvalidPrefix(start, txs, env, vm, i + 1);
          return [], 0, err, gp;
        }
        ExtendedReceipt(p, txs[i], env, vm);
        AccountedNext(txs, receipts, receipt.value);
        usedGas := receipt.value.cumulative;
        receipts := receipts + [receipt.value];
        i := i + 1;
      }
      assert txs[..i] == txs;
      err := None;
      if NeverLowers(vm) {
        forall i, j | 0 <= i < j < |txs| && txs[i].sender == txs[j].sender && (txs[i].to.Some? || Counts(vm)) ensures txs[i].nonce < txs[j].nonce {
          NeverReplayed(start, txs, env, vm, i, j);
        }
      }
    }
  }

  lemma Unaccounted(txs: seq<Tx>)
    ensures Accounted(txs, [])
  {
  }

  lemma Objected(p: Progress, tx: Tx, env: Env, vm: Vm)
    requires Conserving(vm)
    ensures var o := Objection(p.world, p.pool, tx, env, vm); o.Some? ==> Extended(p, tx, env, vm) == Invalid(o.value)
  {
  }

  /** The receipt that a transaction adds. */
  lemma ExtendedReceipt(p: Progress, tx: Tx, env: Env, vm: Vm)
    requires Conserving(vm) && Extended(p, tx, env, vm).Processed?
    ensures var rs := Extended(p, tx, env, vm).progress.receipts;
            && |rs| == |p.receipts| + 1 && rs[..|p.receipts|] == p.receipts
            && var r := rs[|p.receipts|];
               r.cumulative == UsedBefore(p.receipts, |p.receipts|) + r.gasUsed && r.txHash == tx.Hash() && r.contract == Created(tx)
  {
  }

  // Receipts read back from the database hold the consensus fields only.

  function Stripped(rs: seq<Receipt>, blank: Receipt): seq<Receipt> {
    seq(|rs|, i requires 0 <= i < |rs| => blank.(failed := rs[i].failed, cumulative := rs[i].cumulative))
  }

  /** Subtraction of uint64 values. */
  function Minus64(a: nat, b: nat): nat
    requires b <= MAX_UINT64
  {
    if b <= a then a - b else a - b + MAX_UINT64 + 1
  }

  /** A receipt with its derived fields filled in. A contract creation's creator is
      recovered from the signature. */
  function Derived(txs: seq<Tx>, rs: seq<Receipt>, j: nat): Receipt
    requires j < |rs| == |txs| && UsedBefore(rs, j) <= MAX_UINT64
  {
    rs[j].(txHash := txs[j].Hash(),
           contract := if txs[j].to.None? then Created(txs[j]) else rs[j].contract,
           gasUsed := Minus64(rs[j].cumulative, UsedBefore(rs, j)))
  }

  /** SetReceiptsData: fills in the derived fields. */
  method SetReceiptsData(txs: seq<Tx>, receipts: seq<Receipt>) returns (r: Option<seq<Receipt>>)
    requires forall j :: 0 <= j < |receipts| ==> receipts[j].cumulative <= MAX_UINT64
    ensures r.Some? <==> |txs| == |receipts|
    ensures r.Some? ==> |r.value| == |txs| && forall j: nat :: j < |txs| ==> r.value[j] == Derived(txs, receipts, j)
    // Field by field; the gas used is the growth of the cumulative gas, modulo 2^64.
    ensures r.Some? ==> forall j: nat :: j < |txs| ==>
              var x, y := r.value[j], receipts[j];
              && x.txHash == txs[j].Hash() && x.failed == y.failed && x.cumulative == y.cumulative
              && (txs[j].to.Some? ==> x.contract == y.contract)
              && (txs[j].to.None? ==> x.contract == if txs[j].sender.Some? then Some((txs[j].sender.value, txs[j].nonce)) else None)
              && x.gasUsed <= MAX_UINT64
              && y.cumulative == (x.gasUsed + if j == 0 then 0 else receipts[j - 1].cumulative) % (MAX_UINT64 + 1)
  {
    if |txs| != |receipts| {
      return None;
    }
    var rs := receipts;
    var j := 0;
    while j < |rs|
      invariant 0 <= j <= |rs| == |receipts|
      invariant forall k: nat :: k < j ==> rs[k] == Derived(txs, receipts, k)
      invariant forall k :: j <= k < |rs| ==> rs[k] == receipts[k]
    {
      rs := rs[j := rs[j].(txHash := txs[j].Hash())];
      if txs[j].to.None? {
        rs := rs[j := rs[j].(contract := Created(txs[j]))];
      }
      if j == 0 {
        rs := rs[j := rs[j].(gasUsed := rs[j].cumulative)];
      } else {
        rs := rs[j := rs[j].(gasUsed := Minus64(rs[j].cumulative, rs[j - 1].cumulative))];
      }
      j := j + 1;
    }
    r := Some(rs);
  }

  /** The derived fields of a processed block's receipts follow from the other fields. */
  lemma DerivedIsOriginal(txs: seq<Tx>, rs: seq<Receipt>, blank: Receipt, j: nat)
    requires Accounted(txs, rs) && j < |rs| == |txs| && blank.contract.None? && UsedBefore(rs, j) <= MAX_UINT64
    ensures UsedBefore(Stripped(rs, blank), j) == UsedBefore(rs, j)
    ensures Derived(txs, Stripped(rs, blank), j) == rs[j]
  {
    assert UsedBefore(Stripped(rs, blank), j) == UsedBefore(rs, j);
    assert AccountedAt(txs, rs, j);
  }

  /** Storing the consensus fields and filling in the rest gives back all receipts. */
  method Recover(txs: seq<Tx>, receipts: seq<Receipt>, blank: Receipt) returns (r: Option<seq<Receipt>>)
    requires Accounted(txs, receipts) && |receipts| == |txs| && blank.contract.None?
    requires UsedBefore(receipts, |receipts|) <= MAX_UINT64
    ensures r == Some(receipts)
  {
    forall j: nat | j < |txs| ensures receipts[j].cumulative <= MAX_UINT64 {
      if j < |txs| - 1 {
        CumulativeIncreases(txs, receipts, j, |txs| - 1);
      }
    }
    r := SetReceiptsData(txs, Stripped(receipts, blank));
    forall j: nat | j < |txs| ensures r.value[j] == receipts[j] {
      DerivedIsOriginal(txs, receipts, blank, j);
    }
    assert r.value == receipts;
  }
}
