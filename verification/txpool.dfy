/** TxPool: pending and queued transactions by account, the hash map of all of them, the
    price heap and the virtual nonces, updated together by every step of the pool. */
module TxPools {
  import opened Nonces
  import opened Transactions
  import opened Wrappers
  import opened SortedMap
  import opened AccountLists
  import opened PricedLists
  import opened PoolState
  import opened PoolSync
  import opened PoolMoves
  import opened PoolSteps
  import opened GasAccounting
  import L = PoolLimits
  import C = PoolCauses
  import F = PoolFacts
  import R = PoolResets

  class TxPool {
    const config: Config
    const priced: PricedList
    var gasPrice: int
    var homestead: bool
    var head: Head
    var virtuals: map<Address, nat>
    var locals: set<Address>
    var pending: AccountMap
    var queue: AccountMap
    var beats: map<Address, int>
    var all: All

    /** What the pool holds besides the price heap. */
    function V(): View
      reads this
    {
      View(head, gasPrice, homestead, virtuals, locals, pending, queue, beats, all)
    }

    function VirtualNonce(a: Address): nat
      reads `virtuals, `head
    {
      VirtualOf(virtuals, head, a)
    }

    ghost predicate Shape()
      reads `all, `pending, `queue
    {
      Shaped(all, pending, queue)
    }

    /** What holds whatever the chain head: the structures agree, the heap covers the
        pool, remote transactions pay the pool's price, the pool is within its limit and
        just the accounts with pending transactions have a heartbeat. */
    ghost predicate Core()
      reads `all, `pending, `queue, `locals, `gasPrice, `beats, priced
    {
      Shape() && priced.Tracks(all) && PaysFloor(all, locals, gasPrice) && Bounded(all, locals, config) && Beating(beats, pending)
    }

    /** The invariant of the pool between two steps. */
    ghost predicate Valid()
      reads this, priced
    {
      Core() && AllFit(all, head) && config.accountSlots >= 1
    }

    ghost predicate AllSynced()
      reads this
    {
      forall a: Address :: V().SyncedAt(a)
    }

    function Objection(tx: Tx, local: bool): (err: Option<TxError>)
      reads `head, `gasPrice, `homestead, `locals
    {
      FirstObjection(tx, local || IsLocal(locals, tx), head, gasPrice, homestead)
    }

    /** The price heap and the size of the pool. */
    ghost function H(): Ledger
      reads this`all, priced
    {
      Ledger(|all|, priced.items, priced.stales, priced.entered, priced.reentered)
    }

    constructor (c: Config, chainHead: Head)
      requires c.accountSlots >= 1
      ensures Valid() && AllSynced() && fresh(priced) && !priced.reentered && priced.entered == {}
      ensures config == Sanitized(c) && V() == Vacant(chainHead, config) && priced.items == [] && priced.stales == 0
    {
      config := Sanitized(c);
      priced := new PricedList();
      gasPrice, homestead, head := Sanitized(c).priceLimit, false, chainHead;
      virtuals, locals, pending, queue, beats, all := map[], {}, map[], map[], map[], map[];
    }

    /** Deletes one transaction from the pool and counts its heap entry as stale. */
    method Drop(tx: Tx)
      requires HashKeyed(all) && priced.Tracks(all) && Live(tx, all)
      modifies this`all, priced`items, priced`stales
      ensures all == old(all) - {tx.Hash()} && HashKeyed(all) && priced.Tracks(all)
      ensures |all| == |old(all)| - 1 && Wanes(old(H()), H())
      ensures forall t :: t in priced.items ==> t in old(priced.items)
    {
      hide Distinct;
      CoversLess(priced.items, all, tx.Hash());
      all := all - {tx.Hash()};
      priced.Removed(all);
    }

    /** Enters one transaction into the pool and the price heap. An exact counter stays
        exact just if the heap has no entry of the transaction yet. */
    method Enter(tx: Tx)
      requires HashKeyed(all) && priced.Tracks(all) && !Live(tx, all)
      modifies this`all, priced
      ensures all == old(all)[tx.Hash() := tx] && |all| == |old(all)| + 1 && HashKeyed(all) && priced.Tracks(all)
      ensures multiset(priced.items) == multiset(old(priced.items)) + multiset{tx} && priced.stales == old(priced.stales)
      ensures priced.entered == old(priced.entered) + {tx} && (priced.reentered <==> old(priced.reentered) || tx in old(priced.items))
      ensures old(priced.Exact(all)) ==> (priced.Exact(all) <==> tx !in old(priced.items))
    {
      hide Distinct, Covers;
      ghost var before := priced.items;
      priced.Put(tx);
      CoversMore(before, priced.items, all, tx);
      DistinctMore(before, priced.items, tx);
      all := all[tx.Hash() := tx];
    }

    /** Deletes the transactions from the pool and counts their heap entries as stale. */
    method DropAll(txs: seq<Tx>)
      requires HashKeyed(all) && priced.Tracks(all)
      requires Distinct(txs) && forall tx :: tx in txs ==> Live(tx, all)
      modifies this`all, priced`items, priced`stales
      ensures all == old(all) - Hashes(txs) && HashKeyed(all) && priced.Tracks(all) && Wanes(old(H()), H())
    {
      hide Covers, Wanes;
      WanesNothing(H());
      for i := 0 to |txs|
        invariant all == old(all) - Hashes(txs[..i]) && HashKeyed(all) && priced.Tracks(all) && Wanes(old(H()), H())
      {
        HashesStep(old(all), txs, i);
        assert Live(txs[i], old(all));
        ghost var h := H();
        Drop(txs[i]);
        WanesTrans(old(H()), h, H());
      }
      assert txs[..|txs|] == txs;
    }

    /** enqueueTx: puts a transaction into the account's queue, replacing one it outbids. */
    method EnqueueTx(tx: Tx) returns (ok: bool)
      requires tx.sender.Some? && HashKeyed(all)
      requires tx.nonce in At(queue, tx.sender.value) ==> Live(At(queue, tx.sender.value)[tx.nonce], all)
      requires tx.nonce in At(queue, tx.sender.value) || !Live(tx, all) ==> priced.Tracks(all)
      modifies this`queue, this`all, priced
      ensures var a := tx.sender.value; var l := ListOr(old(queue), a, false);
              && ok == Accepts(l, tx, config.priceBump)
              && queue == (if ok then old(queue)[a := AccountLists.Added(l, tx)] else old(queue))
              && all == (if !ok then old(all)
                         else if tx.nonce in l.txs then (old(all) - {l.txs[tx.nonce].Hash()})[tx.Hash() := tx]
                         else old(all)[tx.Hash() := tx])
      ensures old(priced.Tracks(all)) ==> priced.Tracks(all)
      ensures tx.nonce !in At(old(queue), tx.sender.value) && Live(tx, old(all)) ==> unchanged(priced)
      ensures Hears(old(H()), tx, ok, H()) && |all| <= |old(all)| + 1
      ensures ok && tx.nonce !in At(old(queue), tx.sender.value) && !Live(tx, old(all)) ==>
                multiset(priced.items) == multiset(old(priced.items)) + multiset{tx} && priced.stales == old(priced.stales)
    {
      hide Covers, AccountLists.Added;
      var a := tx.sender.value;
      var l := ListOr(queue, a, false);
      if !Accepts(l, tx, config.priceBump) {
        return false;
      }
      queue := queue[a := AccountLists.Added(l, tx)];
      if tx.nonce in l.txs {
        Drop(l.txs[tx.nonce]);
      }
      if !Live(tx, all) {
        Enter(tx);
      }
      ok := true;
    }

    /** enqueueTx for a pooled transaction whose nonce is not queued: it never fails. */
    method RequeueOne(a: Address, tx: Tx)
      requires HashKeyed(all) && tx.sender == Some(a) && tx.nonce !in At(queue, a) && Live(tx, all)
      requires a in queue ==> ListOk(queue[a], false)
      modifies this`queue, this`all, priced
      ensures all == old(all) && unchanged(priced)
      ensures queue - {a} == old(queue) - {a} && At(queue, a) == At(old(queue), a)[tx.nonce := tx]
      ensures a in queue && ListOk(queue[a], false)
    {
      var ok := EnqueueTx(tx);
      assert ok && all == old(all);
    }

    /** Puts transactions that are still pooled back into their account's queue. */
    method Requeue(a: Address, txs: seq<Tx>, ghost m: ByNonce)
      requires HashKeyed(all) && Lists(txs, m) && Owned(m, a) && At(queue, a).Keys !! m.Keys
      requires a in queue ==> ListOk(queue[a], false)
      requires forall tx :: tx in txs ==> Live(tx, all)
      modifies this`queue, this`all, priced
      ensures all == old(all) && unchanged(priced)
      ensures queue - {a} == old(queue) - {a} && At(queue, a) == At(old(queue), a) + m
      ensures a in queue ==> ListOk(queue[a], false)
    {
      ghost var q := At(queue, a);
      assert txs[..0] == [];
      for i := 0 to |txs|
        invariant all == old(all) && unchanged(priced)
        invariant queue - {a} == old(queue) - {a} && At(queue, a) == q + Restrict(m, NoncesOf(txs[..i]))
        invariant a in queue ==> ListOk(queue[a], false)
      {
        ListedStep(q, m, txs, i);
        assert txs[i] in txs;
        RequeueOne(a, txs[i]);
      }
      assert txs[..|txs|] == txs;
      ListedAll(q, m, txs);
    }

    /** removeTx: deletes a transaction; what that strands in pending goes back to the
        queue, and the virtual nonce falls back to the removed one. */
    method RemoveTx(hash: Hash, outofbound: bool)
      requires Shape() && (outofbound ==> priced.Tracks(all))
      modifies this`pending, this`queue, this`beats, this`virtuals, this`all, priced
      ensures Shape() && all == old(all) - {hash} && Withdrawn(old(V()), V())
      ensures if outofbound then priced.Tracks(all) && Wanes(old(H()), H()) else unchanged(priced)
      ensures hash in old(all) && Has(At(old(queue), hash.preimage.sender.value), hash.preimage) ==>
                var a := hash.preimage.sender.value;
                && pending == old(pending) && virtuals == old(virtuals) && beats == old(beats)
                && queue - {a} == old(queue) - {a} && At(queue, a) == At(old(queue), a) - {hash.preimage.nonce}
      ensures hash in old(all) && Has(At(old(pending), hash.preimage.sender.value), hash.preimage) ==>
                var a, n := hash.preimage.sender.value, hash.preimage.nonce;
                && pending - {a} == old(pending) - {a} && queue - {a} == old(queue) - {a} && virtuals - {a} == old(virtuals) - {a}
                && Parts(At(old(pending), a), At(old(queue), a), At(pending, a), At(queue, a), n)
                && VirtualNonce(a) == if old(VirtualNonce(a)) > n then n else old(VirtualNonce(a))
    {
      if hash !in all {
        assert all - {hash} == all;
        NothingWithdrawn(V());
        return;
      }
      hide Parts, Covers, Shaped, Withdrawn;
      var tx := all[hash];
      ghost var before := all;
      FoundLive(hash);
      if outofbound {
        Drop(tx);
      } else {
        all := all - {hash};
      }
      Unlist(tx.sender.value, tx, before);
    }

    lemma FoundLive(hash: Hash)
      requires Shape() && hash in all
      ensures all[hash] == hash.preimage && Live(all[hash], all) && all[hash].sender.Some? && HashKeyed(all)
      ensures var a := all[hash].sender.value; Has(At(pending, a), all[hash]) <==> !Has(At(queue, a), all[hash])
    {
      assert Live(all[hash], all);
      assert Ok(all, pending, queue, all[hash].sender.value);
    }

    /** Takes a transaction that has left the pool off its account's list. */
    method Unlist(a: Address, tx: Tx, ghost before: All)
      requires Shaped(before, pending, queue) && all == before - {tx.Hash()} && tx.sender == Some(a) && Live(tx, before)
      modifies this`pending, this`queue, this`beats, this`virtuals, this`all, priced
      ensures Shape() && all == old(all) && unchanged(priced) && Withdrawn(old(V()).(all := before), V())
      ensures Has(At(old(queue), a), tx) ==>
                && pending == old(pending) && virtuals == old(virtuals) && beats == old(beats)
                && queue - {a} == old(queue) - {a} && At(queue, a) == At(old(queue), a) - {tx.nonce}
      ensures Has(At(old(pending), a), tx) ==>
                && pending - {a} == old(pending) - {a} && queue - {a} == old(queue) - {a} && virtuals - {a} == old(virtuals) - {a}
                && Parts(At(old(pending), a), At(old(queue), a), At(pending, a), At(queue, a), tx.nonce)
                && VirtualNonce(a) == if old(VirtualNonce(a)) > tx.nonce then tx.nonce else old(VirtualNonce(a))
    {
      hide Parts, Withdrawn, Shaped;
      Listed1(before, a, tx);
      if a in pending && tx.nonce in pending[a].txs {
        RemovePending(a, tx, before);
      } else {
        RemoveQueued(a, tx, before);
      }
    }

    lemma Listed1(before: All, a: Address, tx: Tx)
      requires Shaped(before, pending, queue) && tx.sender == Some(a) && Live(tx, before)
      ensures Has(At(pending, a), tx) <==> tx.nonce in At(pending, a)
      ensures Has(At(queue, a), tx) <==> tx.nonce !in At(pending, a)
    {
      assert Ok(before, pending, queue, a);
    }

    /** The pending half of removeTx. */
    method RemovePending(a: Address, tx: Tx, ghost before: All)
      requires Shaped(before, pending, queue) && all == before - {tx.Hash()}
      requires tx.sender == Some(a) && Live(tx, before) && tx.nonce in At(pending, a)
      modifies this`pending, this`queue, this`beats, this`virtuals, this`all, priced
      ensures Shape() && all == old(all) && unchanged(priced) && Withdrawn(old(V()).(all := before), V())
      ensures pending - {a} == old(pending) - {a} && queue - {a} == old(queue) - {a} && virtuals - {a} == old(virtuals) - {a}
      ensures Parts(At(old(pending), a), At(old(queue), a), At(pending, a), At(queue, a), tx.nonce)
      ensures VirtualNonce(a) == if old(VirtualNonce(a)) > tx.nonce then tx.nonce else old(VirtualNonce(a))
    {
      hide Withdrawn;
      assert Ok(before, pending, queue, a);
      ghost var l, q, v := pending[a], At(queue, a), V().(all := before);
      Postpone(a, tx, before);
      LowerVirtual(a, tx.nonce);
      DropPendingOk(before, a, l.txs, q, tx, Stranded(l, {tx.nonce}));
      ShapeUpdate(before, old(pending), old(queue), all, pending, queue, a);
      StrandedParts(l, q, tx.nonce);
      PendingRemoved(v, V(), a, tx);
    }

    /** Takes the transaction off its strict list and queues what that strands. */
    method Postpone(a: Address, tx: Tx, ghost before: All)
      requires HashKeyed(before) && Ok(before, pending, queue, a) && all == before - {tx.Hash()}
      requires tx.sender == Some(a) && Live(tx, before) && tx.nonce in At(pending, a)
      modifies this`pending, this`queue, this`beats, this`all, priced
      ensures all == old(all) && unchanged(priced)
      ensures pending - {a} == old(pending) - {a} && queue - {a} == old(queue) - {a}
      ensures beats == if At(pending, a) == map[] then old(beats) - {a} else old(beats)
      ensures a in pending ==> ListOk(pending[a], true)
      ensures a in queue ==> ListOk(queue[a], false)
      ensures var left := Stranded(old(pending)[a], {tx.nonce});
              && At(pending, a) == old(pending)[a].txs - ({tx.nonce} + left)
              && At(queue, a) == At(old(queue), a) + Restrict(old(pending)[a].txs, left)
    {
      var l := pending[a];
      var left := Stranded(l, {tx.nonce});
      var rest := Without(l, {tx.nonce} + left);
      pending := Stored(pending, a, rest);
      if rest.txs == map[] {
        beats := beats - {a};
      }
      var invalids := RangeTxs(Restrict(l.txs, left));
      OthersLive(before, a, l.txs, At(queue, a), tx, invalids, left);
      Requeue(a, invalids, Restrict(l.txs, left));
    }

    /** Lowers the virtual nonce of `a` to `nonce` if it is above it. */
    method LowerVirtual(a: Address, nonce: nat)
      modifies this`virtuals
      ensures virtuals - {a} == old(virtuals) - {a}
      ensures VirtualNonce(a) == if old(VirtualNonce(a)) > nonce then nonce else old(VirtualNonce(a))
    {
      if VirtualNonce(a) > nonce {
        virtuals := virtuals[a := nonce];
      }
    }

    /** The queue half of removeTx. */
    method RemoveQueued(a: Address, tx: Tx, ghost before: All)
      requires Shaped(before, pending, queue) && all == before - {tx.Hash()}
      requires tx.sender == Some(a) && Live(tx, before) && tx.nonce !in At(pending, a)
      modifies this`queue
      ensures Shape() && Withdrawn(old(V()).(all := before), V())
      ensures queue - {a} == old(queue) - {a} && At(queue, a) == At(old(queue), a) - {tx.nonce}
    {
      hide Withdrawn;
      assert Ok(before, pending, queue, a);
      ghost var v := V().(all := before);
      DropOneOk(before, a, At(pending, a), At(queue, a), tx);
      queue := Stored(queue, a, Without(queue[a], {tx.nonce}));
      ShapeUpdate(before, pending, old(queue), all, pending, queue, a);
      QueuedRemoved(v, V(), a, tx);
    }

    method ValidateTx(tx: Tx, local: bool) returns (err: Option<TxError>)
      ensures err == Objection(tx, local)
      ensures err.None? <==>
                && tx.size <= 32 * 1024 && tx.value >= 0 && tx.gas <= head.gasLimit && tx.sender.Some?
                && (local || tx.sender.value in locals || gasPrice <= tx.price) && head.Nonce(tx.sender.value) <= tx.nonce
                && tx.value + tx.price * tx.gas <= head.Balance(tx.sender.value)
                && IntrinsicCost(tx.data, tx.to.None?, homestead) <= 0xFFFF_FFFF_FFFF_FFFF && IntrinsicCost(tx.data, tx.to.None?, homestead) <= tx.gas
      ensures err == Some(InsufficientFunds) <==>
                && tx.size <= 32 * 1024 && tx.value >= 0 && tx.gas <= head.gasLimit && tx.sender.Some?
                && (local || tx.sender.value in locals || gasPrice <= tx.price) && head.Nonce(tx.sender.value) <= tx.nonce
                && tx.value + tx.price * tx.gas > head.Balance(tx.sender.value)
    {
      ObjectionIs(tx, local || IsLocal(locals, tx), head, gasPrice, homestead);
      if tx.size > MAX_TX_SIZE {
        return Some(OversizedData);
      }
      if tx.value < 0 {
        return Some(NegativeValue);
      }
      if head.gasLimit < tx.gas {
        return Some(GasLimitExceeded);
      }
      if tx.sender.None? {
        return Some(InvalidSender);
      }
      var from := tx.sender.value;
      if !(local || from in locals) && gasPrice > tx.price {
        return Some(UnderpricedTx);
      }
      if head.Nonce(from) > tx.nonce {
        return Some(NonceTooLow);
      }
      if head.Balance(from) < tx.Cost() {
        return Some(InsufficientFunds);
      }
      var gas := IntrinsicGas(tx.data, tx.to.None?, homestead);
      if gas.None? {
        return Some(IntrinsicGasOverflow);
      }
      if tx.gas < gas.value {
        return Some(IntrinsicGasTooLow);
      }
      err := None;
    }

    /** Removes transactions whose heap entries have already been taken out. */
    method RemoveAll(drop: seq<Tx>)
      requires Shape()
      modifies this`pending, this`queue, this`beats, this`virtuals, this`all, priced
      ensures Shape() && all == old(all) - Hashes(drop) && unchanged(priced) && Withdrawn(old(V()), V())
    {
      hide Withdrawn, Shaped, Hashes;
      NothingWithdrawn(V());
      assert drop[..0] == [];
      NothingGiven(all, map[]);
      for i := 0 to |drop|
        invariant Shape() && all == old(all) - Hashes(drop[..i]) && unchanged(priced) && Withdrawn(old(V()), V())
      {
        HashesPrefix(old(all), drop, i);
        ghost var before := V();
        RemoveTx(drop[i].Hash(), false);
        WithdrawnTrans(old(V()), before, V());
      }
      assert drop[..|drop|] == drop;
    }

    /** Whether the pool holds as many transactions as it may. */
    predicate Full()
      reads this
    {
      |all| >= Limit(config)
    }

    /** By how much the stale counter overstates the surplus of heap entries. */
    function Overcount(): int
      reads this`all, priced
    {
      Slack(priced.stales, priced.items, all)
    }

    /** Whether a remote transaction is no dearer than the cheapest pooled one. */
    method CheckUnderpriced(tx: Tx) returns (under: bool)
      requires priced.Tracks(all) && HashKeyed(all)
      modifies priced`items, priced`stales
      ensures priced.Tracks(all) && Overcount() == old(Overcount())
      ensures under <==> !IsLocal(locals, tx) && all != map[] && forall t :: Live(t, all) ==> tx.price <= t.price
      ensures forall t :: t in priced.items ==> t in old(priced.items)
      ensures Single(priced.items, all, locals) <==> Single(old(priced.items), all, locals)
    {
      hide Distinct, Covers, Single, Parted;
      ghost var before, stales := priced.items, priced.stales;
      ghost var gone;
      under, gone := priced.Underpriced(tx, locals, all);
      SlackAfterDrop(before, priced.items, [], gone, all, stales);
      DropTracks(before, priced.items, [], gone, all, stales);
      SingleStays(before, priced.items, gone, all, locals);
      NothingGiven(all, map[]);
    }

    /** Takes the `count` cheapest remote transactions out of the heap and the pool. */
    method DiscardCheapest(count: int)
      requires Shape() && priced.Tracks(all) && count >= 1
      modifies this`pending, this`queue, this`beats, this`virtuals, this`all, priced
      ensures Shape() && priced.Tracks(all) && Withdrawn(old(V()), V()) && RoomMade(old(all), all, locals)
      ensures |old(all)| - count <= |all| <= |old(all)| && (|all| < |old(all)| || NoRemote(all, locals))
      ensures priced.entered == old(priced.entered) && priced.reentered == old(priced.reentered)
      ensures forall t :: t in priced.items ==> t in old(priced.items)
      ensures count == 1 ==> Overcount() == old(Overcount())
      ensures count >= 2 && Sparse(old(all), locals) ==> (Overcount() == old(Overcount()) <==> Single(old(priced.items), old(all), locals))
    {
      hide Withdrawn, Shaped, Covers, Distinct, Parted, Sparse, Single;
      assert HashKeyed(all) by { Keys(); }
      ghost var before, stales := priced.items, priced.stales;
      var drop;
      ghost var gone;
      drop, gone := priced.Discard(count, locals, all);
      SlackKept(before, priced.items, drop, gone, all, stales);
      DropTracks(before, priced.items, drop, gone, all, stales);
      DiscardMakesRoom(before, priced.items, drop, gone, all, locals, count);
      RemoveAll(drop);
    }

    lemma Keys()
      requires Shape()
      ensures HashKeyed(all)
    {
    }

    /** In a full pool, turns away a remote transaction that is no dearer than the
        cheapest pooled one, and otherwise discards the cheapest remote ones. The counter
        stays as exact as it was, unless local transactions alone fill the pool and the one
        remote transaction has two heap entries. */
    method MakeRoom(tx: Tx, local: bool) returns (ok: bool)
      requires Shape() && priced.Tracks(all) && Bounded(all, locals, config) && !Live(tx, all)
      modifies this`pending, this`queue, this`beats, this`virtuals, this`all, priced
      ensures Shape() && priced.Tracks(all) && !Live(tx, all)
      ensures !ok <==> TurnedAway(old(V()), tx, local, config)
      ensures if ok then RoomFor(old(V()), V(), config) else V() == old(V())
      ensures priced.entered == old(priced.entered) && priced.reentered == old(priced.reentered)
      ensures forall t :: t in priced.items ==> t in old(priced.items)
      ensures (!old(Full()) ==> unchanged(priced)) && |all| <= |old(all)|
      ensures Overcount() == old(Overcount()) <==> !ok || |old(all)| <= Limit(config) || Single(old(priced.items), old(all), locals)
    {
      hide Withdrawn, Shaped, Covers, Distinct, Sparse, Single;
      if !Full() {
        return true;
      }
      assert HashKeyed(all) by { Keys(); }
      if !local {
        var under := CheckUnderpriced(tx);
        if under {
          return false;
        }
      }
      DiscardCheapest(|all| - (Limit(config) - 1));
      if |all| < |old(all)| {
        RoomEnough(old(all), all, locals);
      }
      ok := true;
    }

    /** Replaces a pending transaction directly, if `tx` outbids it. */
    method ReplacePending(a: Address, tx: Tx) returns (ok: bool)
      requires Shape() && priced.Tracks(all) && !Live(tx, all)
      requires tx.sender == Some(a) && a in pending && tx.nonce in pending[a].txs
      modifies this`pending, this`all, priced
      ensures Shape() && priced.Tracks(all)
      ensures ok == Accepts(old(pending)[a], tx, config.priceBump)
      ensures pending == if ok then old(pending)[a := AccountLists.Added(old(pending)[a], tx)] else old(pending)
      ensures all == if ok then (old(all) - {old(pending)[a].txs[tx.nonce].Hash()})[tx.Hash() := tx] else old(all)
      ensures ok ==> |all| == |old(all)|
      ensures Hears(old(H()), tx, ok, H())
    {
      hide Covers;
      PendingIsLive(all, pending, queue, a, tx.nonce);
      var l := pending[a];
      if !Accepts(l, tx, config.priceBump) {
        return false;
      }
      ReplacementKeepsShape(all, pending, queue, a, tx);
      pending := pending[a := AccountLists.Added(l, tx)];
      Drop(l.txs[tx.nonce]);
      assert !Live(tx, all);
      Enter(tx);
      ok := true;
    }

    /** Queues a transaction whose nonce is not pending. */
    method QueueNew(a: Address, tx: Tx) returns (r: AddResult)
      requires Shape() && priced.Tracks(all) && !Live(tx, all)
      requires tx.sender == Some(a) && tx.nonce !in At(pending, a)
      modifies this`queue, this`all, priced
      ensures Shape() && priced.Tracks(all)
      ensures var l := ListOr(old(queue), a, false);
              && r == (if Accepts(l, tx, config.priceBump) then Accepted(tx.nonce in l.txs) else Rejected(ReplaceUnderpriced))
              && queue == if r.Accepted? then old(queue)[a := AccountLists.Added(l, tx)] else old(queue)
      ensures all == (if r.Accepted? then Queued(old(all), At(old(queue), a), tx) else old(all)) && |all| <= |old(all)| + 1
      ensures Hears(old(H()), tx, r.Accepted?, H())
      ensures r == Accepted(false) ==>
                multiset(priced.items) == multiset(old(priced.items)) + multiset{tx} && priced.stales == old(priced.stales)
    {
      hide Covers;
      QueuedIsLive(all, pending, queue, a, tx.nonce);
      QueueingKeepsShape(all, pending, queue, a, tx);
      r := Accepted(tx.nonce in At(queue, a));
      var ok := EnqueueTx(tx);
      if !ok {
        r := Rejected(ReplaceUnderpriced);
      }
    }

    /** add: validates a transaction, makes room for it and puts it in place of a pending
        transaction or into the queue. */
    method Add(tx: Tx, local: bool) returns (r: AddResult, ghost room: View)
      requires Core()
      modifies this`pending, this`queue, this`beats, this`virtuals, this`all, this`locals, priced
      ensures Core() && AddedTo(old(V()), tx, local, r, room, V(), config)
      ensures Hears(old(H()), tx, r.Accepted?, H()) && |all| <= |old(all)| + 1
      ensures r == Accepted(false) && !old(Full()) ==>
                multiset(priced.items) == multiset(old(priced.items)) + multiset{tx} && priced.stales == old(priced.stales)
      // In prices: what is not known, objectionable or turned away is accepted just if it pays
      // enough more than the transaction at its nonce, if there is one.
      ensures !Live(tx, old(all)) && old(Objection(tx, local)).None? && r != Rejected(UnderpricedTx) ==>
                (r.Accepted? <==> forall u :: Rivals(u, room.all, tx) ==> tx.price > u.price && 100 * tx.price > u.price * (100 + config.priceBump) - 100)
      ensures r.Accepted? ==> tx.sender.Some? && tx.value + tx.price * tx.gas <= head.Balance(tx.sender.value)
      ensures !old(Full()) ==> room == old(V()) || r.Rejected?
    {
      hide Covers, FirstObjection, MeetsDemands, Fits, Shaped, Placement, RoomFor, Bounded, Beating, Sparse, PlacedIn, TurnedAway, PaysFloor, NoRemote, Distinct, Listed, AddedTo, Hears;
      room := V();
      AddedNot(room, tx, local, config);
      HearsNothing(H(), tx);
      if Live(tx, all) {
        return Rejected(KnownTransaction), room;
      }
      var err := ValidateTx(tx, local);
      if err.Some? {
        return Rejected(err.value), room;
      }
      r, room := AddAdmissible(tx, local);
      AddedInFields(old(V()), tx, local, r, room, V(), config);
    }

    /** The part of add that follows validation. */
    method AddAdmissible(tx: Tx, local: bool) returns (r: AddResult, ghost room: View)
      requires Core() && !Live(tx, all) && V().Objection(tx, local).None?
      modifies this`pending, this`queue, this`beats, this`virtuals, this`all, this`locals, priced
      ensures Core() && AddedTo(old(V()), tx, local, r, room, V(), config)
      ensures Hears(old(H()), tx, r.Accepted?, H()) && |all| <= |old(all)| + 1
      ensures r == Accepted(false) && !old(Full()) ==>
                multiset(priced.items) == multiset(old(priced.items)) + multiset{tx} && priced.stales == old(priced.stales)
    {
      hide Covers, FirstObjection, MeetsDemands, Fits, Shaped, Placement, RoomFor, Bounded, Beating, Sparse, PlacedIn, TurnedAway, PaysFloor, NoRemote, Distinct, Listed, AddedTo, Hears;
      room := V();
      AddedNot(room, tx, local, config);
      HearsNothing(H(), tx);
      AdmissibleIs(tx, local);
      var ok := MakeRoom(tx, local);
      if !ok {
        HearsNothing(H(), tx);
        HearsAfter(old(H()), H(), tx, false, H());
        return Rejected(UnderpricedTx), room;
      }
      room := V();
      ghost var h := H();
      RoomKeeps(old(V()), room, config);
      r := Place(tx.sender.value, tx, local);
      AddedPlaced(old(V()), tx, local, r, room, V(), config);
      HearsAfter(old(H()), h, tx, r.Accepted?, H());
    }

    lemma AdmissibleIs(tx: Tx, local: bool)
      ensures Objection(tx, local).None? ==> tx.sender.Some? && (local || tx.sender.value in locals || gasPrice <= tx.price)
    {
    }

    /** The last part of add: in place of a pending transaction, or else into the queue;
        only the latter makes the sender of a local transaction a local account. */
    method Place(from: Address, tx: Tx, local: bool) returns (r: AddResult)
      requires Shape() && priced.Tracks(all) && PaysFloor(all, locals, gasPrice) && !Live(tx, all) && tx.sender == Some(from)
      requires Beating(beats, pending)
      requires local || from in locals || gasPrice <= tx.price
      requires |all| < Limit(config) || NoRemote(all, locals)
      modifies this`pending, this`queue, this`all, this`locals, priced
      ensures Core() && r == Placement(old(pending), old(queue), tx, config.priceBump) && PlacedIn(old(V()), tx, local, r, V())
      ensures Hears(old(H()), tx, r.Accepted?, H()) && |all| <= |old(all)| + 1
      ensures r == Accepted(false) ==>
                multiset(priced.items) == multiset(old(priced.items)) + multiset{tx} && priced.stales == old(priced.stales)
    {
      hide Covers, Shaped, PaysFloor, Bounded, Beating, Placement, Hears, PlacedIn, NoRemote;
      if from in pending && tx.nonce in pending[from].txs {
        r := PlaceOver(from, tx, local);
      } else {
        r := PlaceQueued(from, tx, local);
      }
    }

    /** In place of a pending transaction. */
    method PlaceOver(from: Address, tx: Tx, local: bool) returns (r: AddResult)
      requires Shape() && priced.Tracks(all) && PaysFloor(all, locals, gasPrice) && !Live(tx, all) && tx.sender == Some(from)
      requires Beating(beats, pending)
      requires |all| < Limit(config) || NoRemote(all, locals)
      requires from in pending && tx.nonce in pending[from].txs
      modifies this`pending, this`all, priced
      ensures Core() && r == Placement(old(pending), old(queue), tx, config.priceBump) && PlacedIn(old(V()), tx, local, r, V())
      ensures Hears(old(H()), tx, r.Accepted?, H()) && r != Accepted(false) && |all| <= |old(all)| + 1
    {
      hide Covers, Shaped, Placed, AccountLists.Added, PaysFloor, Bounded, Beating, Placement, Accepts, Hears;
      ReplacedInPlace(pending, queue, locals, tx, local, ReplaceUnderpriced);
      PlacementIs(pending, queue, tx, config.priceBump);
      PendingIsLive(all, pending, queue, from, tx.nonce);
      ReplacementPays(all, locals, gasPrice, pending[from], tx, config.priceBump);
      var ok := ReplacePending(from, tx);
      r := if ok then Accepted(true) else Rejected(ReplaceUnderpriced);
      PlacedBounded(old(all), all, locals, locals, gasPrice, tx, config);
      PlacedBeats(old(V()), tx, local, r, V());
    }

    /** Queues a transaction, or refuses it; queueing makes the sender of a local one local. */
    method QueueOrRefuse(from: Address, tx: Tx, local: bool) returns (r: AddResult)
      requires Shape() && priced.Tracks(all) && !Live(tx, all) && tx.sender == Some(from) && tx.nonce !in At(pending, from)
      modifies this`queue, this`all, this`locals, priced
      ensures Shape() && priced.Tracks(all) && locals == (if r.Accepted? && local then old(locals) + {from} else old(locals))
      ensures r == Placement(old(pending), old(queue), tx, config.priceBump) && PlacedIn(old(V()), tx, local, r, V())
      ensures (r.Rejected? ==> all == old(all)) && |all| <= |old(all)| + 1 && Hears(old(H()), tx, r.Accepted?, H())
      ensures r == Accepted(false) ==>
                multiset(priced.items) == multiset(old(priced.items)) + multiset{tx} && priced.stales == old(priced.stales)
    {
      hide Covers, Shaped, Placed, AccountLists.Added, Placement, Accepts, Queued, ListOr, Hears, Distinct, Listed;
      ReplacedInPlace(pending, queue, locals, tx, local, ReplaceUnderpriced);
      PlacementIs(pending, queue, tx, config.priceBump);
      QueuedInPlace(pending, queue, locals, tx, local, tx.nonce in At(queue, from));
      r := QueueNew(from, tx);
      if local && r.Accepted? {
        locals := locals + {from};
      }
    }

    /** Into the queue. */
    method PlaceQueued(from: Address, tx: Tx, local: bool) returns (r: AddResult)
      requires Shape() && priced.Tracks(all) && PaysFloor(all, locals, gasPrice) && !Live(tx, all) && tx.sender == Some(from)
      requires Beating(beats, pending)
      requires |all| < Limit(config) || NoRemote(all, locals)
      requires (local || from in locals || gasPrice <= tx.price) && tx.nonce !in At(pending, from)
      modifies this`queue, this`all, this`locals, priced
      ensures Core() && r == Placement(old(pending), old(queue), tx, config.priceBump) && PlacedIn(old(V()), tx, local, r, V())
      ensures Hears(old(H()), tx, r.Accepted?, H()) && |all| <= |old(all)| + 1
      ensures r == Accepted(false) ==>
                multiset(priced.items) == multiset(old(priced.items)) + multiset{tx} && priced.stales == old(priced.stales)
    {
      hide Covers, Shaped, PlacedIn, PaysFloor, Bounded, Beating, Placement, Hears, Distinct, Listed, NoRemote;
      r := QueueOrRefuse(from, tx, local);
      PlacedLive(old(V()), tx, local, r, V());
      assert old(locals) <= locals && (r.Accepted? && local ==> from in locals);
      PlacedBounded(old(all), all, old(locals), locals, gasPrice, tx, config);
      PlacedBeats(old(V()), tx, local, r, V());
    }

    /** SetGasPrice: removes exactly the remote transactions below the new price. The counter
        stays as exact as it was if and only if none of them has two heap entries. */
    method SetGasPrice(price: int)
      requires Valid()
      modifies this`gasPrice, this`pending, this`queue, this`beats, this`virtuals, this`all, priced
      ensures Valid() && Repriced(old(V()), price, V())
      ensures forall a: Address :: old(V()).SyncedAt(a) ==> V().SyncedAt(a)
      ensures priced.entered == old(priced.entered) && priced.reentered == old(priced.reentered)
      ensures Overcount() >= old(Overcount())
      ensures Overcount() == old(Overcount()) <==> SingleBelow(old(priced.items), old(all), locals, price)
      ensures forall t: Tx :: t.Hash() in all <==> t.Hash() in old(all) && ((t.sender.Some? && t.sender.value in locals) || t.price >= price)
    {
      hide Shaped, Covers, Hashes, Withdrawn, Distinct, Listed, SingleBelow, Bounded, Beating, AllFit, PaysFloor, Floored, Synced;
      gasPrice := price;
      ghost var v := V();
      var drop := CapHeap(price);
      RemoveAll(drop);
      WithdrawnBeats(v, V());
      FlooredStays(old(all), all, locals, head, price, config);
      FlooredInFields(old(all), all, locals, price);
      forall a: Address ensures old(V()).SyncedAt(a) ==> V().SyncedAt(a) {
        F.WithdrawnSyncs(v, V(), a);
      }
    }

    /** Takes the remote transactions below a price out of the heap. */
    method CapHeap(price: int) returns (drop: seq<Tx>)
      requires Shape() && priced.Tracks(all)
      modifies priced`items, priced`stales
      ensures priced.Tracks(all - Hashes(drop)) && Floored(all, all - Hashes(drop), locals, price)
      ensures Slack(priced.stales, priced.items, all - Hashes(drop)) >= old(Overcount())
      ensures Slack(priced.stales, priced.items, all - Hashes(drop)) == old(Overcount()) <==> SingleBelow(old(priced.items), all, locals, price)
    {
      hide Shaped, Covers, Parted, Hashes, Distinct, Listed, SingleBelow;
      assert HashKeyed(all) by { Keys(); }
      ghost var before, stales := priced.items, priced.stales;
      ghost var gone;
      drop, gone := priced.Cap(price, locals, all);
      SlackKept(before, priced.items, drop, gone, all, stales);
      DropTracks(before, priced.items, drop, gone, all, stales);
      FlooredByDrop(priced.items, drop, all, price, locals);
      ListedLess(before, priced.items, priced.entered);
    }

    /** Drops what a promoted transaction replaces, and enters it unless it is pooled. */
    method Supersede(l: AccountList, tx: Tx)
      requires HashKeyed(all) && (Live(tx, all) || priced.Tracks(all))
      requires tx.nonce in l.txs ==> priced.Tracks(all) && Live(tx, all) && Live(l.txs[tx.nonce], all) && l.txs[tx.nonce] != tx
      modifies this`all, priced
      ensures all == if tx.nonce in l.txs then old(all) - {l.txs[tx.nonce].Hash()} else old(all)[tx.Hash() := tx]
      ensures old(priced.Tracks(all)) ==> priced.Tracks(all)
      ensures tx.nonce !in l.txs && Live(tx, old(all)) ==> unchanged(priced)
    {
      hide Covers, Distinct, Listed, Wanes;
      if tx.nonce in l.txs {
        Drop(l.txs[tx.nonce]);
      }
      if !Live(tx, all) {
        Enter(tx);
      }
    }

    /** promoteTx: puts a transaction into the account's pending list and moves the
        virtual nonce behind it. */
    method PromoteTx(a: Address, tx: Tx, now: int)
      requires HashKeyed(all) && tx.sender == Some(a) && (Live(tx, all) || priced.Tracks(all))
      requires tx.nonce in At(pending, a) ==>
                 && priced.Tracks(all) && Live(tx, all)
                 && Live(At(pending, a)[tx.nonce], all) && At(pending, a)[tx.nonce] != tx
      modifies this`pending, this`all, this`beats, this`virtuals, priced
      ensures var l := ListOr(old(pending), a, true);
              var ok := Accepts(l, tx, config.priceBump);
              && pending == old(pending)[a := if ok then AccountLists.Added(l, tx) else l]
              && all == (if !ok then old(all) - {tx.Hash()}
                         else if tx.nonce in l.txs then old(all) - {l.txs[tx.nonce].Hash()}
                         else old(all)[tx.Hash() := tx])
              && virtuals == (if ok then old(virtuals)[a := tx.nonce + 1] else old(virtuals))
              && beats == (if ok then old(beats)[a := now] else old(beats))
      ensures old(priced.Tracks(all)) ==> priced.Tracks(all)
      ensures tx.nonce !in At(old(pending), a) && Live(tx, old(all)) ==> unchanged(priced)
    {
      hide Covers, AccountLists.Added, Distinct, Listed, Wanes;
      var l := ListOr(pending, a, true);
      if !Accepts(l, tx, config.priceBump) {
        pending := pending[a := l];
        Drop(tx);
        return;
      }
      pending := pending[a := AccountLists.Added(l, tx)];
      Supersede(l, tx);
      beats := beats[a := now];
      virtuals := virtuals[a := tx.nonce + 1];
    }

    /** promoteTx for pooled transactions at nonces that are not pending: none is lost. */
    method PromoteAll(a: Address, txs: seq<Tx>, ghost m: ByNonce, now: int)
      requires HashKeyed(all) && Lists(txs, m) && Owned(m, a) && At(pending, a).Keys !! m.Keys
      requires a in pending ==> ListOk(pending[a], true)
      requires forall tx :: tx in txs ==> Live(tx, all)
      modifies this`pending, this`all, this`beats, this`virtuals, priced
      ensures all == old(all) && unchanged(priced)
      ensures pending - {a} == old(pending) - {a} && At(pending, a) == At(old(pending), a) + m
      ensures a in pending ==> ListOk(pending[a], true)
      ensures virtuals - {a} == old(virtuals) - {a}
      ensures VirtualNonce(a) == Behind(old(VirtualNonce(a)), txs)
      ensures NotedAt(old(beats), a, now, txs != [], beats)
    {
      hide DistinctNonces, NotedAt;
      NotedNever(beats, a, now);
      ghost var p, v := At(pending, a), VirtualNonce(a);
      assert txs[..0] == [];
      for i := 0 to |txs|
        invariant all == old(all) && unchanged(priced)
        invariant pending - {a} == old(pending) - {a} && At(pending, a) == p + Restrict(m, NoncesOf(txs[..i]))
        invariant a in pending ==> ListOk(pending[a], true)
        invariant virtuals - {a} == old(virtuals) - {a}
        invariant VirtualNonce(a) == Behind(v, txs[..i])
        invariant NotedAt(old(beats), a, now, i > 0, beats)
      {
        ListedStep(p, m, txs, i);
        BehindStep(v, txs, i);
        assert txs[i] in txs;
        ghost var noted := beats;
        PromoteOne(a, txs[i], now);
        NotedAgain(old(beats), a, now, i > 0, noted);
      }
      assert txs[..|txs|] == txs;
      ListedAll(p, m, txs);
    }

    method PromoteOne(a: Address, tx: Tx, now: int)
      requires HashKeyed(all) && tx.sender == Some(a) && Live(tx, all) && tx.nonce !in At(pending, a)
      requires a in pending ==> ListOk(pending[a], true)
      modifies this`pending, this`all, this`beats, this`virtuals, priced
      ensures all == old(all) && unchanged(priced)
      ensures pending - {a} == old(pending) - {a} && At(pending, a) == At(old(pending), a)[tx.nonce := tx]
      ensures a in pending && ListOk(pending[a], true)
      ensures virtuals - {a} == old(virtuals) - {a} && VirtualNonce(a) == tx.nonce + 1 && beats == old(beats)[a := now]
    {
      PromoteTx(a, tx, now);
      assert all == old(all);
    }

    /** Deletes listed transactions of one side of an account from the pool. */
    method DropListed(a: Address, txs: seq<Tx>, ghost p: ByNonce, ghost q: ByNonce, ghost s: set<nat>)
      requires HashKeyed(all) && priced.Tracks(all)
      requires AccountOk(all, a, p, q) && s <= q.Keys && Lists(txs, Restrict(q, s))
      modifies this`all, priced
      ensures HashKeyed(all) && priced.Tracks(all) && all == old(all) - Hashes(txs) && Wanes(old(H()), H())
      ensures AccountOk(all, a, p, q - s) && SameElsewhere(old(all), all, a)
    {
      DropOk(all, a, p, q, s, txs);
      ListedLive(all, a, p, q, s, txs);
      DropAll(txs);
    }

    /** Drops outdated and unpayable transactions from a queued list. */
    method PruneQueue(a: Address, list: AccountList) returns (kept: AccountList)
      requires HashKeyed(all) && priced.Tracks(all) && AccountOk(all, a, At(pending, a), list.txs)
      requires Sound(list) && !list.strict
      modifies this`all, priced
      ensures HashKeyed(all) && priced.Tracks(all) && AccountOk(all, a, At(pending, a), kept.txs)
      ensures SameElsewhere(old(all), all, a) && Shrunk(old(all), all) && Wanes(old(H()), H()) && Sound(kept) && !kept.strict
      ensures kept.txs == Restrict(list.txs, Usable(list.txs, head, a))
    {
      hide Wanes, Covers;
      PrunedIsUsable(list, head, a);
      var outdated := Below(list.txs, head.Nonce(a));
      DropPart(a, list, outdated, At(pending, a));
      ghost var h := H();
      kept := Without(list, outdated);
      FilterLoose(kept, head.Balance(a), head.gasLimit);
      DropPart(a, kept, UnpayableIn(kept, head.Balance(a), head.gasLimit), At(pending, a));
      WanesTrans(old(H()), h, H());
      kept := Filtered(kept, head.Balance(a), head.gasLimit);
    }

    /** Deletes the transactions that a list gives up at nonces `s` from the pool. */
    method DropPart(a: Address, list: AccountList, s: set<nat>, ghost other: ByNonce)
      requires HashKeyed(all) && priced.Tracks(all) && AccountOk(all, a, other, list.txs)
      requires Sound(list) && s <= list.txs.Keys
      modifies this`all, priced
      ensures HashKeyed(all) && priced.Tracks(all) && AccountOk(all, a, other, list.txs - s)
      ensures SameElsewhere(old(all), all, a) && Shrunk(old(all), all) && Wanes(old(H()), H())
    {
      var drops := RangeTxs(Restrict(list.txs, s));
      DropListed(a, drops, other, list.txs, s);
    }

    /** Moves the ready run of a queued list to pending. */
    method PromoteReady(a: Address, list: AccountList, now: int) returns (kept: AccountList)
      requires HashKeyed(all) && AccountOk(all, a, At(pending, a), list.txs)
      requires Sound(list) && !list.strict && (a in pending ==> ListOk(pending[a], true))
      modifies this`pending, this`all, this`beats, this`virtuals, priced
      ensures all == old(all) && unchanged(priced)
      ensures pending - {a} == old(pending) - {a} && virtuals - {a} == old(virtuals) - {a}
      ensures a in pending ==> ListOk(pending[a], true)
      ensures AccountOk(all, a, At(pending, a), kept.txs) && Sound(kept) && !kept.strict
      ensures Promoted(At(old(pending), a), list.txs, old(VirtualNonce(a)), At(pending, a), kept.txs, VirtualNonce(a))
      ensures beats == if At(pending, a) == At(old(pending), a) then old(beats) else old(beats)[a := now]
    {
      hide DistinctNonces, InOrder, ReadyRun, Promoted;
      var run := ReadyRun(list.txs, VirtualNonce(a));
      var ready := InOrder(Restrict(list.txs, run));
      ReadyMoves(all, a, At(pending, a), list.txs, run);
      ReadyPromoted(At(pending, a), list.txs, VirtualNonce(a));
      NewlyReady(At(pending, a), Restrict(list.txs, run));
      PromoteAll(a, ready, Restrict(list.txs, run), now);
      kept := Without(list, run);
    }

    /** Drops the highest nonces beyond the account's queue allowance. */
    method CapQueue(a: Address, list: AccountList) returns (kept: AccountList)
      requires HashKeyed(all) && priced.Tracks(all) && AccountOk(all, a, At(pending, a), list.txs)
      requires Sound(list) && !list.strict
      modifies this`all, priced
      ensures HashKeyed(all) && priced.Tracks(all) && AccountOk(all, a, At(pending, a), kept.txs)
      ensures SameElsewhere(old(all), all, a) && Shrunk(old(all), all) && Wanes(old(H()), H()) && Sound(kept) && !kept.strict
      ensures kept.txs == Allowed(list.txs, a in locals, config.accountQueue)
    {
      hide Lowest, AccountOk, SameElsewhere, Shrunk, Covers, Allowed, Restrict, Sound, Wanes;
      AllowedFits(list.txs, a in locals, config.accountQueue);
      SameShrunk(all, a);
      WanesNothing(H());
      if a in locals {
        return list;
      }
      var over := list.txs.Keys - Lowest(list.txs.Keys, config.accountQueue);
      DropPart(a, list, over, At(pending, a));
      kept := Without(list, over);
    }

    /** Prunes an account's queue, promotes its ready run and caps the rest. */
    method Advance(a: Address, list: AccountList, now: int) returns (kept: AccountList)
      requires HashKeyed(all) && priced.Tracks(all) && AccountOk(all, a, At(pending, a), list.txs)
      requires Sound(list) && !list.strict && (a in pending ==> ListOk(pending[a], true))
      modifies this`pending, this`all, this`beats, this`virtuals, priced
      ensures HashKeyed(all) && priced.Tracks(all) && AccountOk(all, a, At(pending, a), kept.txs) && Sound(kept) && !kept.strict
      ensures SameElsewhere(old(all), all, a) && Shrunk(old(all), all) && Wanes(old(H()), H())
      ensures pending - {a} == old(pending) - {a} && virtuals - {a} == old(virtuals) - {a} && (a in pending ==> ListOk(pending[a], true))
      ensures var usable, v := Restrict(list.txs, Usable(list.txs, head, a)), old(VirtualNonce(a));
              var rest := usable - ReadyRun(usable, v);
              && Promoted(At(old(pending), a), usable, v, At(pending, a), rest, VirtualNonce(a))
              && kept.txs == Allowed(rest, a in locals, config.accountQueue)
      ensures beats == if At(pending, a) == At(old(pending), a) then old(beats) else old(beats)[a := now]
    {
      hide Promoted, AccountOk, SameElsewhere, Allowed, ReadyRun, Usable, Wanes, Covers, Sound, Distinct, Listed;
      kept := PruneQueue(a, list);
      ghost var usable, pooled, h := kept.txs, all, H();
      kept := PromoteReady(a, kept, now);
      RestIs(At(old(pending), a), usable, old(VirtualNonce(a)), At(pending, a), kept.txs, VirtualNonce(a));
      kept := CapQueue(a, kept);
      WanesTrans(old(H()), h, H());
      LessAndLess(old(all), pooled, all, a);
    }

    /** The body of the account loop of promoteExecutables: of the queued transactions the
        usable ones are kept, their ready run is moved to pending, and the rest is cut down
        to the account's allowance. */
    method PromoteAccount(a: Address, now: int)
      requires Shape() && priced.Tracks(all)
      modifies this`pending, this`queue, this`all, this`beats, this`virtuals, priced
      ensures Shape() && priced.Tracks(all) && Shrunk(old(all), all) && Wanes(old(H()), H())
      ensures pending - {a} == old(pending) - {a} && queue - {a} == old(queue) - {a}
      ensures virtuals - {a} == old(virtuals) - {a}
      ensures PromotedAt(old(pending), old(queue), old(virtuals), pending, queue, virtuals, head, locals, config.accountQueue, a)
      ensures beats == if At(pending, a) == At(old(pending), a) then old(beats) else old(beats)[a := now]
    {
      hide Promoted, AccountOk, SameElsewhere, Allowed, ReadyRun, Usable, Wanes, Covers, Sound, Distinct, Listed;
      WanesNothing(H());
      if a !in queue {
        NothingPromoted(At(pending, a), VirtualNonce(a), head, a, a in locals, config.accountQueue);
        return;
      }
      assert Ok(all, pending, queue, a);
      var list := Advance(a, queue[a], now);
      queue := Stored(queue, a, list);
      ShapeUpdate(old(all), old(pending), old(queue), all, pending, queue, a);
    }

    /** Drops the highest pending transaction of `a` and lowers its virtual nonce to it. */
    method DropHighest(a: Address)
      requires Shape() && priced.Tracks(all) && L.Len(pending, a) >= 2
      modifies this`pending, this`virtuals, this`all, priced
      ensures Shape() && priced.Tracks(all) && Shrunk(old(all), all) && Wanes(old(H()), H())
      ensures pending - {a} == old(pending) - {a} && a in pending && L.Len(pending, a) == L.Len(old(pending), a) - 1
      ensures virtuals - {a} == old(virtuals) - {a}
      ensures L.TrimmedAt(At(old(pending), a), old(VirtualNonce(a)), At(pending, a), VirtualNonce(a))
    {
      hide L.TrimmedAt;
      var l := pending[a];
      var over := l.txs.Keys - Lowest(l.txs.Keys, |l.txs| - 1);
      var n := Nonces.Max(l.txs.Keys);
      CapByOne(l.txs);
      L.TrimHighest(l.txs, VirtualNonce(a));
      CutKeepsShape(all, pending, queue, a, n);
      PendingIsLive(all, pending, queue, a, n);
      pending := pending[a := Without(l, over)];
      Drop(l.txs[n]);
      LowerVirtual(a, n);
    }

    /** Shortens each of the given lists, all of length `m`, by one. */
    method DropRound(offenders: seq<Address>, ghost m: nat)
      requires Shape() && priced.Tracks(all) && NoRepeat(offenders) && L.AllLen(pending, offenders, m) && m >= 2
      modifies this`pending, this`virtuals, this`all, priced
      ensures Shape() && priced.Tracks(all) && Shrunk(old(all), all) && Wanes(old(H()), H())
      ensures L.AllLen(pending, offenders, m - 1) && L.SameOutside(old(pending), pending, offenders)
      ensures L.Total(pending) == L.Total(old(pending)) - |offenders| && L.Trimmed(old(pending), old(virtuals), pending, virtuals, head)
    {
      hide L.Trimmed, L.TrimmedAt, NoRepeat, Shaped, Covers, Wanes;
      L.TrimNothing(pending, virtuals, head);
      WanesNothing(H());
      for i := 0 to |offenders|
        invariant Shape() && priced.Tracks(all) && Shrunk(old(all), all) && Wanes(old(H()), H())
        invariant L.AllLen(pending, offenders[..i], m - 1) && L.AllLen(pending, offenders[i..], m)
        invariant L.SameOutside(old(pending), pending, offenders)
        invariant L.Total(pending) == L.Total(old(pending)) - i && L.Trimmed(old(pending), old(virtuals), pending, virtuals, head)
      {
        ghost var before, nonces, h := pending, virtuals, H();
        var a := offenders[i];
        assert a in offenders[i..] && a in offenders;
        DropHighest(a);
        L.AllLenStep(before, pending, offenders, i, m);
        L.SameOutsideStep(old(pending), before, pending, offenders, a);
        L.TotalUpdate(before, pending, a);
        WanesTrans(old(H()), h, H());
        L.TrimStep(old(pending), old(virtuals), before, nonces, pending, virtuals, head, a);
      }
      assert offenders[..|offenders|] == offenders;
    }

    /** Shortens lists of equal length `m` in rounds, until they reach `threshold` or
        the pending transactions fit the limit. */
    method Equalize(offenders: seq<Address>, threshold: nat, pendings: nat, ghost m: nat)
        returns (rest: nat, ghost m': nat)
      requires Shape() && priced.Tracks(all) && NoRepeat(offenders) && L.AllLen(pending, offenders, m)
      requires |offenders| > 0 && 1 <= threshold <= m && pendings == L.Total(pending)
      modifies this`pending, this`virtuals, this`all, priced
      ensures Shape() && priced.Tracks(all) && Shrunk(old(all), all) && Wanes(old(H()), H())
      ensures threshold <= m' <= m && L.AllLen(pending, offenders, m') && L.SameOutside(old(pending), pending, offenders)
      ensures rest == L.Total(pending) && (m' == threshold || rest <= config.globalSlots)
      ensures if m' < m then pendings > config.globalSlots && rest + |offenders| > config.globalSlots else rest == pendings
      ensures L.Trimmed(old(pending), old(virtuals), pending, virtuals, head)
    {
      hide L.Trimmed, NoRepeat, Shaped, Covers, Wanes;
      rest, m' := pendings, m;
      L.TrimNothing(pending, virtuals, head);
      WanesNothing(H());
      var last := offenders[|offenders| - 1];
      assert last in offenders;
      while rest > config.globalSlots && |pending[last].txs| > threshold
        invariant Shape() && priced.Tracks(all) && Shrunk(old(all), all) && Wanes(old(H()), H())
        invariant threshold <= m' <= m && L.AllLen(pending, offenders, m')
        invariant L.SameOutside(old(pending), pending, offenders) && L.Trimmed(old(pending), old(virtuals), pending, virtuals, head)
        invariant rest == L.Total(pending)
        invariant if m' < m then pendings > config.globalSlots && rest + |offenders| > config.globalSlots else rest == pendings
        decreases m'
      {
        ghost var before, nonces, h := pending, virtuals, H();
        DropRound(offenders, m');
        WanesTrans(old(H()), h, H());
        L.TrimTrans(old(pending), old(virtuals), before, nonces, pending, virtuals, head);
        rest, m' := rest - |offenders|, m' - 1;
      }
    }

    /** The pending half of promoteExecutables' limits: while the pending transactions
        exceed the global limit, the longest remote lists are shortened to a common
        length, but not below the account's guaranteed allowance. */
    method TruncatePending() returns (ghost m: nat)
      requires Shape() && priced.Tracks(all) && config.accountSlots >= 1
      modifies this`pending, this`virtuals, this`all, priced
      ensures Shape() && priced.Tracks(all) && Shrunk(old(all), all) && Wanes(old(H()), H())
      ensures L.Trimmed(old(pending), old(virtuals), pending, virtuals, head)
      ensures L.Leveled(old(pending), pending, locals, config.accountSlots, config.globalSlots, m)
    {
      hide L.Trimmed, Shaped, Covers, Wanes, L.Leveling, L.Fair, L.Tight, Distinct, Listed;
      L.TrimNothing(pending, virtuals, head);
      WanesNothing(H());
      m := config.accountSlots;
      var pendings := L.Count(pending);
      if pendings <= config.globalSlots {
        return;
      }
      var spammers := set a | a in pending && L.Spams(pending, locals, config.accountSlots, a);
      L.LevelingStart(pending, locals, config.accountSlots, spammers, m, false);
      var offenders;
      pendings, m, offenders, spammers := LevelAll(pendings, spammers);
      L.LevelingSpams(old(pending), pending, locals, config.accountSlots, offenders, spammers, m, pendings <= config.globalSlots);
      if offenders == [] {
        return;
      }
      if pendings <= config.globalSlots {
        L.LevelingIsFair(old(pending), pending, locals, config.accountSlots, offenders, spammers, m, true);
        return;
      }
      ghost var mid, was, nonces, h := pending, m, virtuals, H();
      L.LevelingAll(old(pending), pending, locals, config.accountSlots, offenders, spammers, m);
      pendings, m := Equalize(offenders, config.accountSlots, pendings, m);
      WanesTrans(old(H()), h, H());
      L.TrimTrans(old(pending), old(virtuals), mid, nonces, pending, virtuals, head);
      L.LastLeveling(old(pending), mid, pending, locals, config.accountSlots, offenders, was, m);
      L.RoundIsTight(old(pending), mid, pending, locals, config.accountSlots, offenders, spammers, was, m, config.globalSlots);
    }

    /** The loop over the large transactors. */
    method LevelAll(pendings0: nat, spammers0: set<Address>) returns (pendings: nat, ghost m: nat, offenders: seq<Address>, spammers: set<Address>)
      requires Shape() && priced.Tracks(all) && pendings0 == L.Total(pending) && pendings0 > config.globalSlots
      requires L.Leveling(pending, pending, locals, config.accountSlots, [], spammers0, config.accountSlots, false)
      modifies this`pending, this`virtuals, this`all, priced
      ensures Shape() && priced.Tracks(all) && Shrunk(old(all), all) && Wanes(old(H()), H())
      ensures pendings == L.Total(pending) && L.Trimmed(old(pending), old(virtuals), pending, virtuals, head)
      ensures L.Leveling(old(pending), pending, locals, config.accountSlots, offenders, spammers, m, pendings <= config.globalSlots)
      ensures (pendings <= config.globalSlots || spammers == {}) && L.Tight(old(pending), pending, config.globalSlots)
    {
      hide L.Trimmed, Shaped, Covers, Wanes, L.Leveling, L.Shortened;
      L.TrimNothing(pending, virtuals, head);
      WanesNothing(H());
      pendings, m, offenders, spammers := pendings0, config.accountSlots, [], spammers0;
      while pendings > config.globalSlots && spammers != {}
        invariant Shape() && priced.Tracks(all) && Shrunk(old(all), all) && Wanes(old(H()), H())
        invariant pendings == L.Total(pending) && L.Trimmed(old(pending), old(virtuals), pending, virtuals, head)
        invariant L.Leveling(old(pending), pending, locals, config.accountSlots, offenders, spammers, m,
                             pendings <= config.globalSlots)
        invariant L.Tight(old(pending), pending, config.globalSlots)
        decreases spammers
      {
        ghost var before, nonces, h := pending, virtuals, H();
        pendings, m, offenders, spammers := LevelNext(old(pending), pendings, m, offenders, spammers);
        WanesTrans(old(H()), h, H());
        L.TrimTrans(old(pending), old(virtuals), before, nonces, pending, virtuals, head);
      }
    }

    /** Pops the next large transactor and brings the earlier ones down to its length. */
    method LevelNext(ghost before: AccountMap, pendings: nat, ghost m: nat, offenders: seq<Address>, spammers: set<Address>)
        returns (pendings': nat, ghost m': nat, offenders': seq<Address>, spammers': set<Address>)
      requires Shape() && priced.Tracks(all) && spammers != {}
      requires pendings == L.Total(pending) && pendings > config.globalSlots
      requires L.Leveling(before, pending, locals, config.accountSlots, offenders, spammers, m, false)
      modifies this`pending, this`virtuals, this`all, priced
      ensures L.Tight(before, pending, config.globalSlots)
      ensures Shape() && priced.Tracks(all) && Shrunk(old(all), all) && Wanes(old(H()), H())
      ensures pendings' == L.Total(pending) && spammers' < spammers && L.Trimmed(old(pending), old(virtuals), pending, virtuals, head)
      ensures L.Leveling(before, pending, locals, config.accountSlots, offenders', spammers', m',
                         pendings' <= config.globalSlots)
    {
      hide L.Trimmed, Shaped, Covers, Wanes, L.Shortened, L.Leveling, Distinct, Listed;
      L.TrimNothing(pending, virtuals, head);
      WanesNothing(H());
      var offender := L.PopLongest(pending, spammers);
      offenders', spammers' := offenders + [offender], spammers - {offender};
      L.LevelingSpams(before, pending, locals, config.accountSlots, offenders, spammers, m, false);
      if offenders == [] {
        pendings', m' := pendings, L.Len(pending, offender);
        L.LevelingFirst(pending, locals, config.accountSlots, spammers, m, offender, false);
        assert offenders' == [offender];
        return;
      }
      L.LevelingAll(before, pending, locals, config.accountSlots, offenders, spammers, m);
      ghost var mid := pending;
      pendings', m' := Equalize(offenders, |pending[offender].txs|, pendings, m);
      L.RoundIsTight(before, mid, pending, locals, config.accountSlots, offenders, spammers, m, m', config.globalSlots);
      L.LevelingNext(before, mid, pending, locals, config.accountSlots, offenders, spammers, m, m', offender,
                     pendings' <= config.globalSlots);
    }

    /** removeTx for a queued transaction: pending is not touched. */
    method RemoveQueuedTx(a: Address, tx: Tx)
      requires Shape() && priced.Tracks(all) && tx.sender == Some(a) && Has(At(queue, a), tx)
      modifies this`pending, this`queue, this`beats, this`virtuals, this`all, priced
      ensures Shape() && priced.Tracks(all) && all == old(all) - {tx.Hash()} && Wanes(old(H()), H())
      ensures pending == old(pending) && virtuals == old(virtuals) && beats == old(beats)
      ensures queue - {a} == old(queue) - {a} && At(queue, a) == At(old(queue), a) - {tx.nonce}
    {
      QueuedIsLive(all, pending, queue, a, tx.nonce);
      RemoveTx(tx.Hash(), true);
    }

    /** removeTx for queued transactions of one account: pending is not touched. */
    method RemoveQueuedTxs(a: Address, txs: seq<Tx>)
      requires Shape() && priced.Tracks(all) && DistinctNonces(txs)
      requires forall tx :: tx in txs ==> tx.sender == Some(a) && Has(At(queue, a), tx)
      modifies this`pending, this`queue, this`beats, this`virtuals, this`all, priced
      ensures Shape() && priced.Tracks(all) && all == old(all) - Hashes(txs) && Wanes(old(H()), H())
      ensures pending == old(pending) && virtuals == old(virtuals) && beats == old(beats)
      ensures queue - {a} == old(queue) - {a} && At(queue, a) == At(old(queue), a) - NoncesOf(txs)
    {
      hide DistinctNonces, Shaped, Covers, Hashes, NoncesOf, Wanes;
      ghost var q := At(queue, a);
      assert txs[..0] == [];
      NothingGiven(all, q);
      WanesNothing(H());
      for i := 0 to |txs|
        invariant Shape() && priced.Tracks(all) && all == old(all) - Hashes(txs[..i]) && Wanes(old(H()), H())
        invariant pending == old(pending) && virtuals == old(virtuals) && beats == old(beats)
        invariant queue - {a} == old(queue) - {a} && At(queue, a) == q - NoncesOf(txs[..i])
      {
        assert txs[i] in txs;
        HashesPrefix(old(all), txs, i);
        NoncesStep(q, txs, i);
        ghost var h := H();
        RemoveQueuedTx(a, txs[i]);
        WanesTrans(old(H()), h, H());
      }
      assert txs[..|txs|] == txs;
    }

    /** Removes the last queued transactions of `a` until `k` are left. */
    method DropLast(a: Address, k: nat)
      requires Shape() && priced.Tracks(all) && k < L.Len(queue, a)
      modifies this`pending, this`queue, this`beats, this`virtuals, this`all, priced
      ensures Shape() && priced.Tracks(all) && Shrunk(old(all), all) && Wanes(old(H()), H())
      ensures pending == old(pending) && virtuals == old(virtuals) && beats == old(beats)
      ensures queue - {a} == old(queue) - {a} && L.Len(queue, a) == k && L.CutTo(At(old(queue), a), At(queue, a))
      ensures L.Total(queue) == L.Total(old(queue)) - (L.Len(old(queue), a) - k)
    {
      hide L.CutTo;
      LastTxs(all, pending, queue, a, k);
      assert Ok(all, pending, queue, a);
      L.CutTail(At(queue, a), k);
      RemoveQueuedTxs(a, Reversed(InOrder(At(queue, a))[k..]));
      L.TotalUpdate(old(queue), queue, a);
    }

    /** The queue half of promoteExecutables' limits: accounts lose their queued
        transactions, those with the latest heartbeat first, until the rest fits. */
    method TruncateQueue()
      requires Shape() && priced.Tracks(all)
      modifies this`pending, this`queue, this`beats, this`virtuals, this`all, priced
      ensures Shape() && priced.Tracks(all) && Shrunk(old(all), all) && Wanes(old(H()), H())
      ensures pending == old(pending) && virtuals == old(virtuals) && beats == old(beats)
      ensures L.Relieved(old(queue), queue, locals, beats, config.globalQueue) && L.KeepsLowest(old(queue), queue)
    {
      hide L.KeepsLowest, Wanes, Shaped, Covers;
      L.KeepsSame(queue);
      WanesNothing(H());
      var queued := L.Count(queue);
      if queued <= config.globalQueue {
        return;
      }
      var remote := set a | a in queue && a !in locals;
      var addrs := L.SortByBeat(remote, beats);
      ghost var i;
      var drop;
      i, drop := DrainQueue(addrs, queued - config.globalQueue);
      DrainedDone(old(queue), addrs, i, drop);
    }

    /** The dropping loop of TruncateQueue. */
    method DrainQueue(addrs: seq<Address>, drop0: nat) returns (ghost i: nat, drop: nat)
      requires Shape() && priced.Tracks(all) && NoRepeat(addrs)
      requires forall a :: a in addrs ==> a in queue
      modifies this`pending, this`queue, this`beats, this`virtuals, this`all, priced
      ensures Shape() && priced.Tracks(all) && Shrunk(old(all), all) && Wanes(old(H()), H())
      ensures pending == old(pending) && virtuals == old(virtuals) && beats == old(beats)
      ensures L.Total(queue) - drop == L.Total(old(queue)) - drop0
      ensures i <= |addrs| && L.Drained(old(queue), queue, addrs, i) && L.KeepsLowest(old(queue), queue)
      ensures drop > 0 ==> i == 0 && forall a :: a in addrs[i..] ==> a !in queue
    {
      hide NoRepeat, L.KeepsLowest, Wanes, Shaped, Covers;
      L.KeepsSame(queue);
      WanesNothing(H());
      drop := drop0;
      var k := |addrs|;
      while drop > 0 && k > 0
        invariant 0 <= k <= |addrs|
        invariant Shape() && priced.Tracks(all) && Shrunk(old(all), all) && Wanes(old(H()), H())
        invariant pending == old(pending) && virtuals == old(virtuals) && beats == old(beats)
        invariant L.Total(queue) - drop == L.Total(old(queue)) - drop0
        invariant L.Drained(old(queue), queue, addrs, k) && L.KeepsLowest(old(queue), queue)
        invariant drop > 0 ==> forall a :: a in addrs[k..] ==> a !in queue
        decreases k
      {
        k := k - 1;
        assert addrs[k] in addrs;
        ghost var h := H();
        drop := DrainOne(old(queue), addrs, k, drop);
        WanesTrans(old(H()), h, H());
      }
      i := k;
    }

    /** What the drained queue amounts to. */
    lemma DrainedDone(before: AccountMap, addrs: seq<Address>, i: nat, drop: nat)
      requires i <= |addrs| && L.Drained(before, queue, addrs, i) && L.ByBeat(addrs, beats)
      requires forall a :: a in addrs <==> a in before && a !in locals
      requires drop > 0 ==> i == 0 && forall a :: a in addrs[i..] ==> a !in queue
      ensures L.NewestFirst(before, queue, locals, beats)
      ensures drop > 0 ==> forall a :: a in queue ==> a in locals
      ensures forall a :: L.Len(queue, a) <= L.Len(before, a)
      ensures forall a :: a in locals ==> At(queue, a) == At(before, a)
    {
      L.DrainedNewestFirst(before, queue, locals, beats, addrs, i);
      assert forall a :: a in addrs[i..] ==> a in addrs;
      if drop > 0 {
        assert addrs[0..] == addrs;
      }
    }

    /** Removes the queued transactions of one account, or as many as exceed the limit. */
    method DrainOne(ghost before: AccountMap, addrs: seq<Address>, i: nat, drop: nat) returns (drop': nat)
      requires Shape() && priced.Tracks(all) && i < |addrs| && drop > 0 && NoRepeat(addrs)
      requires L.Drained(before, queue, addrs, i + 1) && addrs[i] in before && L.KeepsLowest(before, queue)
      requires forall a :: a in addrs[i + 1..] ==> a !in queue
      modifies this`pending, this`queue, this`beats, this`virtuals, this`all, priced
      ensures Shape() && priced.Tracks(all) && Shrunk(old(all), all) && Wanes(old(H()), H())
      ensures pending == old(pending) && virtuals == old(virtuals) && beats == old(beats)
      ensures L.Total(queue) - drop' == L.Total(old(queue)) - drop
      ensures L.Drained(before, queue, addrs, i) && L.KeepsLowest(before, queue)
      ensures drop' > 0 ==> forall a :: a in addrs[i..] ==> a !in queue
    {
      hide L.KeepsLowest, NoRepeat, L.CutTo;
      var a := addrs[i];
      L.SuffixStep(addrs, i + 1);
      assert a in queue;
      assert Ok(all, pending, queue, a);
      drop' := DrainAccount(a, drop);
      L.KeepsStep(before, old(queue), queue, a);
      L.DrainedStep(before, old(queue), queue, addrs, i + 1);
      forall b | drop' > 0 && b in addrs[i..] ensures b !in queue {
        if b != a {
          Elsewhere(old(queue), queue, a, b);
        }
      }
    }

    /** Removes all of an account's queued transactions, or the last `drop` of them. */
    method DrainAccount(a: Address, drop: nat) returns (drop': nat)
      requires Shape() && priced.Tracks(all) && a in queue && drop > 0 && L.Len(queue, a) > 0
      modifies this`pending, this`queue, this`beats, this`virtuals, this`all, priced
      ensures Shape() && priced.Tracks(all) && Shrunk(old(all), all) && Wanes(old(H()), H())
      ensures pending == old(pending) && virtuals == old(virtuals) && beats == old(beats)
      ensures queue - {a} == old(queue) - {a} && L.CutTo(At(old(queue), a), At(queue, a)) && L.Len(queue, a) < L.Len(old(queue), a)
      ensures L.Total(queue) - drop' == L.Total(old(queue)) - drop && (drop' > 0 ==> a !in queue)
    {
      hide L.CutTo;
      var size := |queue[a].txs|;
      L.CutNothing(At(queue, a));
      if size <= drop {
        DropWhole(a);
        drop' := drop - size;
        assert old(queue) - {a} - {a} == old(queue) - {a};
      } else {
        DropLast(a, size - drop);
        drop' := 0;
      }
    }

    /** Removes all queued transactions of `a`. */
    method DropWhole(a: Address)
      requires Shape() && priced.Tracks(all)
      modifies this`pending, this`queue, this`beats, this`virtuals, this`all, priced
      ensures Shape() && priced.Tracks(all) && Shrunk(old(all), all) && Wanes(old(H()), H())
      ensures pending == old(pending) && virtuals == old(virtuals) && beats == old(beats)
      ensures queue == old(queue) - {a}
      ensures L.Total(queue) == L.Total(old(queue)) - L.Len(old(queue), a)
    {
      WholeQueue(all, pending, queue, a);
      RemoveQueuedTxs(a, InOrder(At(queue, a)));
      L.TotalUpdate(old(queue), queue, a);
      EmptyIsAbsent(all, pending, queue, a);
      assert queue - {a} == queue;
    }

    /** The account loop of promoteExecutables: every account given is promoted, and no
        other account is touched. */
    method PromoteAccounts(accounts: seq<Address>, now: int)
      requires Shape() && priced.Tracks(all) && NoRepeat(accounts)
      modifies this`pending, this`queue, this`all, this`beats, this`virtuals, priced
      ensures Shape() && priced.Tracks(all) && Wanes(old(H()), H())
      ensures PromotedTo(old(V()), L.Members(accounts), now, V(), config)
    {
      hide NoRepeat, PromotedAt, PromotedTo, Shaped, Covers, Wanes, Shrunk, L.Members;
      NothingPromotedTo(V(), now, config);
      WanesNothing(H());
      assert L.Members(accounts[..0]) == {} by { NoAccounts(accounts); }
      for i := 0 to |accounts|
        invariant Shape() && priced.Tracks(all) && Wanes(old(H()), H())
        invariant PromotedTo(old(V()), L.Members(accounts[..i]), now, V(), config)
      {
        L.MembersNext(accounts, i);
        ghost var v, h := V(), H();
        PromoteAccount(accounts[i], now);
        assert PromotedOne(v, accounts[i], now, V(), config);
        PromotedNext(old(V()), L.Members(accounts[..i]), now, v, accounts[i], V(), config);
        WanesTrans(old(H()), h, H());
      }
      assert accounts[..|accounts|] == accounts;
    }

    lemma NoAccounts(accounts: seq<Address>)
      ensures L.Members(accounts[..0]) == {}
    {
    }

    /** promoteExecutables: moves what has become executable to pending, drops what has
        become invalid, and enforces the pool's limits. */
    method PromoteExecutables(accounts: seq<Address>, now: int) returns (ghost mid: View, ghost m: nat)
      requires Shape() && priced.Tracks(all) && config.accountSlots >= 1 && NoRepeat(accounts)
      modifies this`pending, this`queue, this`all, this`beats, this`virtuals, priced
      ensures Shape() && priced.Tracks(all) && Wanes(old(H()), H())
      ensures PromotedTo(old(V()), L.Members(accounts), now, mid, config) && TruncatedTo(mid, m, V(), config)
    {
      hide PromotedTo, TruncatedTo, NoRepeat, Covers, Shaped, Wanes;
      PromoteAccounts(accounts, now);
      mid := V();
      ghost var h := H();
      m := EnforceLimits();
      WanesTrans(old(H()), h, H());
    }

    /** The global limits of promoteExecutables. */
    method EnforceLimits() returns (ghost m: nat)
      requires Shape() && priced.Tracks(all) && config.accountSlots >= 1
      modifies this`pending, this`queue, this`all, this`beats, this`virtuals, priced
      ensures Shape() && priced.Tracks(all) && Wanes(old(H()), H())
      ensures TruncatedTo(old(V()), m, V(), config)
    {
      hide L.KeepsLowest, L.Fair, L.NewestFirst, L.Trimmed, TruncatedTo, Shaped, Covers, Wanes, Shrunk;
      m := TruncatePending();
      ghost var mid, h := V(), H();
      TruncateQueue();
      WanesTrans(old(H()), h, H());
      TruncatedBoth(old(V()), m, mid, V(), config);
    }

    /** addTx: one transaction, with the promotion it may enable. */
    method AddTx(tx: Tx, local: bool, now: int) returns (r: AddResult, ghost b: Batch)
      requires Valid()
      modifies this`pending, this`queue, this`beats, this`virtuals, this`all, this`locals, priced
      ensures Valid() && BatchStep(old(V()), [tx], local, now, b, config) && b.last == V() && b.answers == [r]
      ensures forall a: Address :: old(V()).SyncedAt(a) ==> V().SyncedAt(a)
      ensures C.LostWithCause(old(all), all, head, old(locals), config, C.BatchStrain(old(V()), [tx], b), [tx])
      ensures C.AllAnswered(old(V()), local, all, config, C.BatchStrain(old(V()), [tx], b), [tx])
      ensures Hears(old(H()), tx, r.Accepted?, H())
      ensures r == Accepted(false) && !old(Full()) && |all| == |old(all)| + 1 ==>
                multiset(priced.items) == multiset(old(priced.items)) + multiset{tx} && priced.stales == old(priced.stales)
    {
      hide AddedTo, PromotedTo, TruncatedTo, Shaped, Covers, AllFit, Bounded, Beating, PaysFloor, BatchStep, Synced, C.LostWithCause, C.AllAnswered, C.BatchStrain;
      ghost var room;
      r, room := Add(tx, local);
      ghost var end := V();
      ghost var mid, m := end, 0;
      AddedFits(old(V()), tx, local, r, room, end, config);
      SenderKnown(old(V()), tx, local, r, room, end, config);
      if r == Accepted(false) {
        mid, m := PromoteExecutables([tx.sender.value], now);
        assert L.Members([tx.sender.value]) == {tx.sender.value};
        CutsKeep(end, {tx.sender.value}, now, mid, m, V(), config);
      }
      b := Batch([old(V()), end], [room], [r], mid, m, V());
      BatchOfOne(old(V()), tx, local, now, b, config);
      BatchSummary(old(V()), [tx], local, now, b);
    }

    /** What a batch means for synchrony, for what was pooled and for what was given. */
    lemma BatchSummary(v: View, txs: seq<Tx>, local: bool, now: int, b: Batch)
      requires v.Shape() && BatchStep(v, txs, local, now, b, config)
      ensures |b.answers| == |txs| == |b.views| - 1 && forall a: Address :: v.SyncedAt(a) ==> b.last.SyncedAt(a)
      ensures C.LostWithCause(v.all, b.last.all, v.head, v.locals, config, C.BatchStrain(v, txs, b), txs)
      ensures C.AllAnswered(v, local, b.last.all, config, C.BatchStrain(v, txs, b), txs)
    {
      hide BatchStep, C.LostWithCause, C.AllAnswered, C.BatchStrain, Synced, Shaped;
      C.AnswersCount(v, txs, local, now, b, config);
      C.BatchLoses(v, txs, local, now, b, config);
      C.BatchAnswers(v, txs, local, now, b, config);
      forall a: Address ensures v.SyncedAt(a) ==> b.last.SyncedAt(a) {
        F.BatchSyncs(v, txs, local, now, b, config, a);
      }
    }

    /** addTxsLocked: a batch of transactions, then one promotion of the accounts that
        gained one. */
    method AddTxs(txs: seq<Tx>, local: bool, now: int) returns (errs: seq<AddResult>, ghost b: Batch)
      requires Core() && config.accountSlots >= 1
      modifies this`pending, this`queue, this`beats, this`virtuals, this`all, this`locals, priced
      ensures Core() && BatchStep(old(V()), txs, local, now, b, config) && b.last == V() && b.answers == errs && |errs| == |txs|
      ensures forall a: Address :: old(V()).SyncedAt(a) ==> V().SyncedAt(a)
      ensures C.LostWithCause(old(all), all, head, old(locals), config, C.BatchStrain(old(V()), txs, b), txs)
      ensures C.AllAnswered(old(V()), local, all, config, C.BatchStrain(old(V()), txs, b), txs)
      ensures HearsAll(old(H()), txs, H())
    {
      hide Chained, PromotedTo, TruncatedTo, Shaped, Covers, Bounded, Beating, PaysFloor, Dirty, HearsAll, Wanes, Synced, C.LostWithCause, C.AllAnswered, C.BatchStrain;
      var dirty;
      ghost var views, rooms;
      errs, dirty, views, rooms := AddEach(txs, local);
      ghost var end, h := V(), H();
      ghost var mid, m := end, 0;
      if dirty != {} {
        var addrs := RangeKeys(dirty);
        mid, m := PromoteExecutables(addrs, now);
        assert L.Members(addrs) == dirty;
        CutsKeep(end, dirty, now, mid, m, V(), config);
        HearsWaned(old(H()), txs, h, H());
      }
      b := Batch(views, rooms, errs, mid, m, V());
      BatchSummary(old(V()), txs, local, now, b);
    }

    /** The adding loop of addTxsLocked; returns the accounts that gained a transaction. */
    method AddEach(txs: seq<Tx>, local: bool)
      returns (errs: seq<AddResult>, dirty: set<Address>, ghost views: seq<View>, ghost rooms: seq<View>)
      requires Core()
      modifies this`pending, this`queue, this`beats, this`virtuals, this`all, this`locals, priced
      ensures Core() && Chained(txs, local, views, rooms, errs, config) && views[0] == old(V()) && views[|txs|] == V()
      ensures dirty == Dirty(txs, errs) && HearsAll(old(H()), txs, H())
    {
      hide Chained, Shaped, Covers, Bounded, Beating, PaysFloor, Dirty, AddedTo, HearsAll, Hears;
      errs, dirty, views, rooms := [], {}, [V()], [];
      NoneAdded(local, V(), config);
      HearsNone(H());
      assert txs[..0] == [];
      for i := 0 to |txs|
        invariant Core() && |errs| == i && |views| == i + 1 && Chained(txs[..i], local, views, rooms, errs, config)
        invariant views[0] == old(V()) && views[i] == V()
        invariant dirty == Dirty(txs[..i], errs) && HearsAll(old(H()), txs[..i], H())
      {
        assert txs[..i + 1] == txs[..i] + [txs[i]];
        ghost var v, h := V(), H();
        ghost var room;
        var r;
        r, room := Add(txs[i], local);
        ChainedNext(txs[..i], local, views, rooms, errs, txs[i], r, room, V(), config);
        HearsNext(old(H()), txs[..i], h, txs[i], r.Accepted?, H());
        SenderKnown(v, txs[i], local, r, room, V(), config);
        if r == Accepted(false) {
          dirty := dirty + {txs[i].sender.value};
        }
        errs, views, rooms := errs + [r], views + [V()], rooms + [room];
      }
      assert txs[..|txs|] == txs;
    }

    /** Drops the unpayable transactions of a pending list and queues what they strand. */
    method DemoteUnpayable(a: Address, list: AccountList) returns (kept: AccountList)
      requires HashKeyed(all) && priced.Tracks(all) && AccountOk(all, a, At(queue, a), list.txs)
      requires Sound(list) && list.strict && (a in queue ==> ListOk(queue[a], false))
      modifies this`queue, this`all, priced
      ensures HashKeyed(all) && priced.Tracks(all) && AccountOk(all, a, At(queue, a), kept.txs)
      ensures Sound(kept) && kept.strict && (a in queue ==> ListOk(queue[a], false))
      ensures queue - {a} == old(queue) - {a} && SameElsewhere(old(all), all, a) && Shrunk(old(all), all) && Wanes(old(H()), H())
      ensures var unpayable := UnpayableIn(list, head.Balance(a), head.gasLimit);
              && kept.txs == list.txs - (unpayable + Stranded(list, unpayable))
              && At(queue, a) == At(old(queue), a) + Restrict(list.txs, Stranded(list, unpayable))
    {
      hide DistinctNonces, AccountOk, SameElsewhere, Shrunk, Owned, Filtered, Wanes, Covers;
      var unpayable := UnpayableIn(list, head.Balance(a), head.gasLimit);
      var left := Stranded(list, unpayable);
      FilterIsFullScan(list, head.Balance(a), head.gasLimit);
      DropPart(a, list, unpayable, At(queue, a));
      DemotionMoves(all, a, At(queue, a), list, unpayable);
      kept := Filtered(list, head.Balance(a), head.gasLimit);
      var invalids := RangeTxs(Restrict(list.txs, left));
      Requeue(a, invalids, Restrict(list.txs, left));
    }

    lemma SoundKeyed(l: AccountList)
      requires Sound(l)
      ensures Keyed(l.txs)
    {
    }

    /** Queues a whole pending list that does not start at the state nonce. */
    method DemoteGapped(a: Address, list: AccountList) returns (kept: AccountList)
      requires HashKeyed(all) && AccountOk(all, a, At(queue, a), list.txs)
      requires Sound(list) && list.strict && (a in queue ==> ListOk(queue[a], false))
      modifies this`queue, this`all, priced
      ensures all == old(all) && unchanged(priced)
      ensures AccountOk(all, a, At(queue, a), kept.txs) && Sound(kept) && kept.strict
      ensures queue - {a} == old(queue) - {a} && (a in queue ==> ListOk(queue[a], false))
      ensures if list.txs == map[] || head.Nonce(a) in list.txs then kept == list && queue == old(queue)
              else kept.txs == map[] && At(queue, a) == At(old(queue), a) + list.txs
    {
      hide DistinctNonces, AccountOk, Sound, Owned, Keyed;
      if |list.txs| == 0 || head.Nonce(a) in list.txs {
        return list;
      }
      ghost var q := At(queue, a);
      SoundKeyed(list);
      var txs := RangeTxs(list.txs);
      WholeListMoves(all, a, q, list.txs, txs);
      Requeue(a, txs, list.txs);
      kept := Without(list, list.txs.Keys);
    }

    /** The body of the account loop of demoteUnexecutables. */
    method DemoteAccount(a: Address)
      requires Shape() && priced.Tracks(all) && a in pending
      modifies this`pending, this`queue, this`beats, this`all, priced
      ensures Shape() && priced.Tracks(all) && Shrunk(old(all), all) && Wanes(old(H()), H())
      ensures pending - {a} == old(pending) - {a} && queue - {a} == old(queue) - {a}
      ensures At(pending, a) == Staying(At(old(pending), a), head, a)
      ensures At(queue, a) == At(old(queue), a) + Returning(At(old(pending), a), head, a)
      ensures beats == if At(pending, a) == map[] then old(beats) - {a} else old(beats)
    {
      hide AccountOk, SameElsewhere, Shrunk, Staying, Returning, Covers, Sound, Shaped, Ok, Stored, ListOk, HashKeyed, Wanes;
      Unpacked(all, pending, queue, a);
      var list := DemoteList(a, pending[a]);
      pending := Stored(pending, a, list);
      if |list.txs| == 0 {
        beats := beats - {a};
      }
      Repacked(all, pending, queue, a, list);
      ShapeUpdate(old(all), old(pending), old(queue), all, pending, queue, a);
    }

    /** Takes outdated, unpayable and gapped transactions off a pending list. */
    method DemoteList(a: Address, list: AccountList) returns (kept: AccountList)
      requires HashKeyed(all) && priced.Tracks(all) && AccountOk(all, a, At(queue, a), list.txs)
      requires Sound(list) && list.strict && (a in queue ==> ListOk(queue[a], false))
      modifies this`queue, this`all, priced
      ensures HashKeyed(all) && priced.Tracks(all) && AccountOk(all, a, At(queue, a), kept.txs)
      ensures Sound(kept) && kept.strict && (a in queue ==> ListOk(queue[a], false))
      ensures queue - {a} == old(queue) - {a} && SameElsewhere(old(all), all, a) && Shrunk(old(all), all) && Wanes(old(H()), H())
      ensures kept.txs == Staying(list.txs, head, a) && At(queue, a) == At(old(queue), a) + Returning(list.txs, head, a)
    {
      hide AccountOk, SameElsewhere, Shrunk, Staying, Returning, Stranded, UnpayableIn, Wanes, Covers;
      kept := DropOutdated(a, list);
      ghost var l1, pooled, h := kept, all, H();
      kept := DemoteUnpayable(a, kept);
      WanesTrans(old(H()), h, H());
      ghost var p2, q2 := kept.txs, At(queue, a);
      kept := DemoteGapped(a, kept);
      DemotedLists(list, l1, At(old(queue), a), p2, q2, kept.txs, At(queue, a), head, a);
      LessAndLess(old(all), pooled, all, a);
    }

    /** Drops the transactions of a pending list below the state nonce. */
    method DropOutdated(a: Address, list: AccountList) returns (kept: AccountList)
      requires HashKeyed(all) && priced.Tracks(all) && AccountOk(all, a, At(queue, a), list.txs)
      requires Sound(list) && list.strict
      modifies this`all, priced
      ensures HashKeyed(all) && priced.Tracks(all) && AccountOk(all, a, At(queue, a), kept.txs)
      ensures Sound(kept) && kept.strict && SameElsewhere(old(all), all, a) && Shrunk(old(all), all) && Wanes(old(H()), H())
      ensures kept == Without(list, Below(list.txs, head.Nonce(a)))
    {
      hide AccountOk, Wanes, Covers;
      var outdated := Below(list.txs, head.Nonce(a));
      DropPart(a, list, outdated, At(queue, a));
      kept := Without(list, outdated);
    }

    /** demoteUnexecutables: every account keeps the funded run that starts at its state
        nonce; everything else that is usable returns to the queue. */
    method DemoteUnexecutables()
      requires Shape() && priced.Tracks(all)
      modifies this`pending, this`queue, this`beats, this`all, priced
      ensures Shape() && priced.Tracks(all) && Wanes(old(H()), H())
      ensures DemotedTo(old(V()), V())
    {
      hide NoRepeat, DemotedTo, PartlyDemoted, Shaped, Covers, Wanes, Staying, Returning, L.Members, Shrunk;
      NoneDemoted(V());
      WanesNothing(H());
      var accounts := RangeKeys(pending.Keys);
      assert L.Members(accounts[..0]) == {} by { NoAccounts(accounts); }
      for i := 0 to |accounts|
        invariant Shape() && priced.Tracks(all) && Wanes(old(H()), H())
        invariant PartlyDemoted(old(V()), L.Members(accounts[..i]), V())
      {
        L.MembersNext(accounts, i);
        assert accounts[i] in accounts;
        StillPending(old(V()), L.Members(accounts[..i]), V(), accounts[i]);
        ghost var v, h := V(), H();
        DemoteAccount(accounts[i]);
        assert DemotedOne(v, accounts[i], V());
        DemotedNext(old(V()), L.Members(accounts[..i]), v, accounts[i], V());
        WanesTrans(old(H()), h, H());
      }
      assert accounts[..|accounts|] == accounts;
      assert L.Members(accounts) == old(pending).Keys by { AllAccounts(accounts, old(pending).Keys); }
      AllDemoted(old(V()), V());
    }

    lemma AllAccounts(accounts: seq<Address>, keys: set<Address>)
      requires forall a :: a in accounts <==> a in keys
      ensures L.Members(accounts) == keys
    {
    }

    /** The nonce loop of reset: the virtual nonce moves behind the last pending transaction. */
    method SetVirtuals()
      requires Shape()
      modifies this`virtuals
      ensures forall a: Address :: VirtualNonce(a) == Next(At(pending, a), old(VirtualNonce(a)))
    {
      hide NoRepeat, Sound, InOrder, HashKeyed;
      var accounts := RangeKeys(pending.Keys);
      for i := 0 to |accounts|
        invariant forall a: Address :: a in accounts[..i] ==> VirtualNonce(a) == Next(At(pending, a), old(VirtualNonce(a)))
        invariant forall a: Address :: a !in accounts[..i] ==> VirtualNonce(a) == old(VirtualNonce(a))
      {
        OnceStep(accounts, pending.Keys, i);
        var a := accounts[i];
        assert Ok(all, pending, queue, a);
        var txs := InOrder(pending[a].txs);
        LastInOrder(pending[a].txs);
        virtuals := virtuals[a := txs[|txs| - 1].nonce + 1];
      }
      assert accounts[..|accounts|] == accounts;
    }

    /** reset: moves the pool to a new chain head. Reinjected transactions are those of
        abandoned blocks. */
    method Reset(newHead: Head, reinject: seq<Tx>, now: int) returns (ghost s: Moves)
      requires Valid()
      modifies this`head, this`pending, this`queue, this`beats, this`virtuals, this`all, this`locals, priced
      ensures Valid() && ResetStep(old(V()), newHead, reinject, now, s, config) && s.last == V() && |s.batch.answers| == |reinject| == |s.batch.views| - 1
      ensures C.LostWithCause(old(all), all, newHead, locals, config, C.ResetStrain(old(V()), reinject, s), reinject)
      ensures C.AllAnswered(old(V()).(head := newHead), false, all, config, C.ResetStrain(old(V()), reinject, s), reinject)
      ensures forall a: Address :: ResetSyncs(old(V()), newHead, reinject, s, a)
      ensures HearsAll(old(H()), reinject, H()) && locals == old(locals)
    {
      hide ResetStep, C.LostWithCause, C.AllAnswered, C.ResetStrain, ResetSyncs;
      hide Shaped, Covers, BatchStep, DemotedTo, PromotedTo, TruncatedTo, RealignedTo, Bounded, Beating, PaysFloor, AllFit, Wanes, HearsAll;
      head, virtuals := newHead, map[];
      ghost var v := V();
      ghost var b;
      var errs;
      errs, b := AddTxs(reinject, false, now);
      ghost var h := H();
      DemoteUnexecutables();
      DemotedKeeps(b.last, V(), config);
      HearsWaned(old(H()), reinject, h, H());
      ghost var demoted := V();
      SetVirtuals();
      ghost var realigned := V();
      assert RealignedTo(demoted, realigned) by { RealignedBy(demoted, realigned); }
      h := H();
      var addrs := RangeKeys(queue.Keys);
      ghost var mid, m := PromoteExecutables(addrs, now);
      assert L.Members(addrs) == realigned.queue.Keys by { AllAccounts(addrs, realigned.queue.Keys); }
      CutsKeep(realigned, realigned.queue.Keys, now, mid, m, V(), config);
      ResetFits(b.last, demoted, realigned, now, mid, m, V(), config);
      HearsWaned(old(H()), reinject, h, H());
      s := Moves(b, demoted, realigned, mid, m, V());
      ResetBy(old(V()), newHead, reinject, now, s);
      ResetSummary(old(V()), newHead, reinject, now, s);
    }

    lemma ResetBy(v: View, newHead: Head, reinject: seq<Tx>, now: int, s: Moves)
      requires BatchStep(v.(head := newHead, virtuals := map[]), reinject, false, now, s.batch, config)
      requires DemotedTo(s.batch.last, s.demoted) && RealignedTo(s.demoted, s.realigned)
      requires PromotedTo(s.realigned, s.realigned.queue.Keys, now, s.mid, config) && TruncatedTo(s.mid, s.m, s.last, config)
      ensures ResetStep(v, newHead, reinject, now, s, config)
    {
      hide BatchStep, DemotedTo, RealignedTo, PromotedTo, TruncatedTo;
    }

    /** When a reset leaves an account in sync: before the limits are enforced, if and only if
        its pending list had no hole when it was demoted and its virtual nonce had not fallen
        below the state nonce; an account that was in sync and sends no reinjected
        transaction has no hole. While pool and reinjected transactions do not exceed the pending
        limit, an account that was in sync ends in sync if and only if the reinjected ones leave
        no hole before those pending. */
    ghost predicate ResetSyncs(v: View, newHead: Head, reinject: seq<Tx>, s: Moves, a: Address) {
      var grounded := At(s.demoted.pending, a) != map[] || s.batch.last.Virtual(a) == newHead.Nonce(a);
      && (s.mid.SyncedAt(a) <==> NoHole(At(s.batch.last.pending, a), newHead, a) && grounded)
      && (s.mid.SyncedAt(a) ==> s.last.SyncedAt(a))
      && (v.SyncedAt(a) && (forall t :: t in reinject ==> t.sender != Some(a)) ==>
            && (s.last.SyncedAt(a) <==> grounded)
            && (reinject == [] ==> s.last.SyncedAt(a)))
      && (v.SyncedAt(a) && |v.all| + |reinject| <= config.globalSlots ==>
            (s.last.SyncedAt(a) <==> !R.Holed(v, newHead, reinject, config, a)))
    }

    lemma ResetSyncsAt(v: View, newHead: Head, reinject: seq<Tx>, now: int, s: Moves, a: Address)
      requires v.Shape() && ResetStep(v, newHead, reinject, now, s, config)
      ensures ResetSyncs(v, newHead, reinject, s, a)
    {
      hide ResetStep, Synced, Shaped, NoHole, R.Holed;
      F.ResetSynced(v, newHead, reinject, now, s, config, a);
      if v.SyncedAt(a) && forall t :: t in reinject ==> t.sender != Some(a) {
        F.ResetKeepsSync(v, newHead, reinject, now, s, config, a);
        if reinject == [] {
          F.RoomyReset(v, newHead, reinject, now, s, config, a);
        }
      }
      if v.SyncedAt(a) && |v.all| + |reinject| <= config.globalSlots {
        R.ReinjectedReset(v, newHead, reinject, now, s, config, a);
      }
    }

    lemma ResetSummary(v: View, newHead: Head, reinject: seq<Tx>, now: int, s: Moves)
      requires v.Shape() && ResetStep(v, newHead, reinject, now, s, config)
      ensures |s.batch.answers| == |reinject| == |s.batch.views| - 1 && s.last.locals == v.locals
      ensures C.LostWithCause(v.all, s.last.all, newHead, v.locals, config, C.ResetStrain(v, reinject, s), reinject)
      ensures C.AllAnswered(v.(head := newHead), false, s.last.all, config, C.ResetStrain(v, reinject, s), reinject)
      ensures forall a: Address :: ResetSyncs(v, newHead, reinject, s, a)
    {
      var v0 := v.(head := newHead, virtuals := map[]);
      assert BatchStep(v0, reinject, false, now, s.batch, config);
      BatchFits(v0, reinject, false, now, s.batch, config);
      ResetSettings(v, newHead, reinject, now, s);
      hide ResetStep, BatchStep, C.LostWithCause, C.AllAnswered, C.ResetStrain, Shaped, ResetSyncs;
      C.AnswersCount(v0, reinject, false, now, s.batch, config);
      C.ResetLoses(v, newHead, reinject, now, s, config);
      C.ResetAnswers(v, newHead, reinject, now, s, config);
      forall a: Address ensures ResetSyncs(v, newHead, reinject, s, a) {
        ResetSyncsAt(v, newHead, reinject, now, s, a);
      }
    }

    lemma ResetSettings(v: View, newHead: Head, reinject: seq<Tx>, now: int, s: Moves)
      requires ResetStep(v, newHead, reinject, now, s, config)
      ensures SameSettings(s.batch.last, s.last)
    {
      hide BatchStep, Shaped, PromotedAt, Untouched, BeatsNoted, BeatsKept, DemotedAt, L.Trimmed, L.Fair, L.Total, L.KeepsLowest, L.NewestFirst;
    }

    /** The eviction tick: the queues of stale remote accounts go, and nothing else. */
    method Evict(now: int)
      requires Valid()
      modifies this`pending, this`queue, this`beats, this`virtuals, this`all, priced
      ensures Valid() && Evicted(old(V()), now, V(), config) && Wanes(old(H()), H())
      ensures forall a: Address :: old(V()).SyncedAt(a) ==> V().SyncedAt(a)
    {
      hide NoRepeat, Covers, Shaped, Wanes, Bounded, Beating, PaysFloor, AllFit, Synced;
      WanesNothing(H());
      var accounts := RangeKeys(queue.Keys);
      for i := 0 to |accounts|
        invariant Shape() && priced.Tracks(all) && Shrunk(old(all), all) && Wanes(old(H()), H())
        invariant pending == old(pending) && virtuals == old(virtuals) && beats == old(beats)
        invariant forall a: Address :: At(queue, a) ==
                    if a in accounts[..i] && Stale(old(V()), a, now, config) then map[] else At(old(queue), a)
      {
        OnceStep(accounts, old(queue).Keys, i);
        ghost var h := H();
        EvictAccount(accounts[i], now);
        WanesTrans(old(H()), h, H());
      }
      assert accounts[..|accounts|] == accounts;
      ShrunkKeeps(old(all), all, locals, head, gasPrice, config);
      F.EvictedSyncs(old(V()), now, V(), config);
    }

    method EvictAccount(a: Address, now: int)
      requires Shape() && priced.Tracks(all)
      modifies this`pending, this`queue, this`beats, this`virtuals, this`all, priced
      ensures Shape() && priced.Tracks(all) && Shrunk(old(all), all) && Wanes(old(H()), H())
      ensures pending == old(pending) && virtuals == old(virtuals) && beats == old(beats)
      ensures forall b: Address :: At(queue, b) == if b == a && Stale(old(V()), a, now, config) then map[] else At(old(queue), b)
    {
      hide Covers, Shaped, Wanes;
      WanesNothing(H());
      if a !in locals && (a !in beats || now - beats[a] > config.lifetime) {
        DropWhole(a);
        forall b | b != a ensures At(queue, b) == At(old(queue), b) {
          Elsewhere(old(queue), queue, a, b);
        }
      }
    }

    /** One step of the pool. */
    method Take(step: Step, now: int)
      requires Valid()
      modifies this, priced
      ensures Valid() && Stepped(old(V()), step, now, V(), config) && HearsAll(old(H()), Given(step), H())
      ensures (step.NewHead? ==> step.reinject == []) ==> forall a: Address :: old(V()).SyncedAt(a) ==> V().SyncedAt(a)
    {
      hide Shaped, Covers, BatchStep, ResetStep, Evicted, Repriced, Bounded, Beating, PaysFloor, AllFit, Synced, HearsAll, Wanes, Hears;
      HearsNone(H());
      ghost var h := H();
      match step
      case AddOne(tx, local) =>
        ghost var b;
        var r;
        r, b := AddTx(tx, local, now);
        assert [] + [tx] == [tx];
        HearsNext(h, [], h, tx, r.Accepted?, H());
      case AddMany(txs, local) =>
        ghost var b;
        var errs;
        errs, b := AddTxs(txs, local, now);
        BatchFits(old(V()), txs, local, now, b, config);
      case ChangePrice(price) =>
        SetGasPrice(price);
        HearsSame(h, H());
      case EvictionTick =>
        Evict(now);
        HearsWaned(h, [], h, H());
      case NewHead(newHead, reinject, isHomestead) =>
        if isHomestead {
          homestead := true;
        }
        ghost var v := V();
        ghost var s := Reset(newHead, reinject, now);
        assert forall a: Address :: old(V()).SyncedAt(a) == v.SyncedAt(a);
        SyncsWithout(v, newHead, reinject, s);
    }

    lemma SyncsWithout(v: View, newHead: Head, reinject: seq<Tx>, s: Moves)
      requires forall a: Address :: ResetSyncs(v, newHead, reinject, s, a)
      ensures reinject == [] ==> forall a: Address :: v.SyncedAt(a) ==> s.last.SyncedAt(a)
    {
      hide Synced, NoHole;
      forall a: Address ensures reinject == [] && v.SyncedAt(a) ==> s.last.SyncedAt(a) {
        assert ResetSyncs(v, newHead, reinject, s, a);
      }
    }

    /** Status: looking pending up by nonce tells exactly where the transaction is. */
    method Status(hash: Hash) returns (status: TxStatus)
      requires Shape()
      ensures status == if hash !in all then Unknown
                        else if Has(At(pending, hash.preimage.sender.value), hash.preimage) then InPending
                        else InQueue
      ensures status == InQueue ==> Has(At(queue, hash.preimage.sender.value), hash.preimage)
    {
      if hash !in all {
        return Unknown;
      }
      var tx := all[hash];
      var a := tx.sender.value;
      assert Ok(all, pending, queue, a) && Live(tx, all);
      status := if a in pending && tx.nonce in pending[a].txs then InPending else InQueue;
    }

    /** Stats: the two counts add up to the size of the pool. */
    method Stats() returns (pendings: nat, queued: nat)
      requires Shape()
      ensures pendings == L.Total(pending) && queued == L.Total(queue) && pendings + queued == |all|
    {
      pendings := L.Count(pending);
      queued := L.Count(queue);
      L.SizeIsTotal(all, pending, queue);
    }
  }

  datatype TxStatus = Unknown | InQueue | InPending
}
