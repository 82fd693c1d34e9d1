/** Three short runs of the pool that show where a promise of its code ends. */
module PoolCases {
  import opened Nonces
  import opened Transactions
  import opened Wrappers
  import opened SortedMap
  import opened AccountLists
  import opened PricedLists
  import opened PoolState
  import opened PoolSync
  import opened PoolMoves
  import opened PoolSteps
  import opened TxPools
  import L = PoolLimits
  import C = PoolCauses

  /** A transfer without data. */
  function Transfer(sender: Address, nonce: nat, price: int): Tx {
    Tx(Some(sender), nonce, price, 21000, 0, Some(0), [], 100)
  }

  lemma TransferIsAdmissible(v: View, sender: Address, nonce: nat, price: int)
    requires v.head.gasLimit >= 21000 && v.gasPrice <= price && v.head.Nonce(sender) <= nonce && price * 21000 <= v.head.Balance(sender)
    ensures v.Objection(Transfer(sender, nonce, price), false).None?
  {
    assert MeetsDemands(Transfer(sender, nonce, price), false || IsLocal(v.locals, Transfer(sender, nonce, price)), v.head, v.gasPrice, v.homestead);
  }

  /** Adds a transaction while every limit is far. */
  method Enlist(pool: TxPool, sender: Address, nonce: nat, price: int)
    requires pool.Valid() && C.Roomy(pool.all, pool.config)
    requires pool.head.gasLimit >= 21000 && pool.gasPrice <= price && pool.head.Nonce(sender) <= nonce && price * 21000 <= pool.head.Balance(sender)
    requires forall u :: Live(u, pool.all) ==> u.sender != Some(sender) || u.nonce != nonce
    modifies pool, pool.priced
    ensures pool.Valid() && pool.all == old(pool.all)[Transfer(sender, nonce, price).Hash() := Transfer(sender, nonce, price)]
    ensures |pool.all| == |old(pool.all)| + 1
    ensures multiset(pool.priced.items) == multiset(old(pool.priced.items)) + multiset{Transfer(sender, nonce, price)}
    ensures pool.priced.stales == old(pool.priced.stales)
    ensures pool.head == old(pool.head) && pool.gasPrice == old(pool.gasPrice) && pool.locals == old(pool.locals)
    ensures old(pool.AllSynced()) ==> pool.AllSynced()
  {
    hide BatchStep, Shaped, Covers, Bounded, PaysFloor, AllFit, Beating, Synced, C.LostWithCause, C.AllAnswered, C.BatchStrain, Hears, FirstObjection;
    var tx := Transfer(sender, nonce, price);
    ghost var v := pool.V();
    TransferIsAdmissible(v, sender, nonce, price);
    assert !Live(tx, pool.all);
    ghost var b;
    var r;
    r, b := pool.AddTx(tx, false, 0);
    C.RoomyAdd(v, tx, false, 0, b, pool.config);
    BatchFits(v, [tx], false, 0, b, pool.config);
    assert pool.all.Keys == old(pool.all).Keys + {tx.Hash()};
  }

  /** In an account in sync, a transaction at the state nonce is pending; without one there,
      nothing is. */
  lemma StateNonceDecides(v: View, a: Address, t: Tx)
    requires v.Shape() && v.SyncedAt(a) && t.sender == Some(a) && Live(t, v.all)
    ensures t.nonce == v.head.Nonce(a) ==> Has(At(v.pending, a), t)
    ensures At(v.pending, a) != map[] ==> exists u :: Live(u, v.all) && u.sender == Some(a) && u.nonce == v.head.Nonce(a)
  {
    assert Ok(v.all, v.pending, v.queue, a);
    var p, st := At(v.pending, a), v.head.Nonce(a);
    if p != map[] {
      var n :| n in p;
      assert st in p && Has(p, p[st]);
      assert Live(p[st], v.all);
    }
  }

  /** The eviction tick takes the one transaction that is not executable. */
  lemma EvictsGap(v: View, now: int, v': View, c: Config, t: Tx)
    requires v.Good(c) && (forall a: Address :: v.SyncedAt(a)) && Evicted(v, now, v', c)
    requires Live(t, v.all) && !IsLocal(v.locals, t)
    requires forall u :: Live(u, v.all) ==> u.sender.Some? && (u.nonce == v.head.Nonce(u.sender.value) <==> u != t)
    requires forall u :: Live(u, v.all) && u != t ==> u.sender != t.sender
    ensures v'.all == v.all - {t.Hash()}
  {
    hide PaysFloor, AllFit, Bounded, Synced;
    forall u ensures Live(u, v'.all) <==> Live(u, v.all) && u != t {
      EvictsGapAt(v, now, v', c, t, u);
    }
    C.SameHashes(v'.all, v.all - {t.Hash()});
  }

  lemma EvictsGapAt(v: View, now: int, v': View, c: Config, t: Tx, u: Tx)
    requires v.Good(c) && (forall a: Address :: v.SyncedAt(a)) && Evicted(v, now, v', c)
    requires Live(t, v.all) && !IsLocal(v.locals, t)
    requires forall u :: Live(u, v.all) ==> u.sender.Some? && (u.nonce == v.head.Nonce(u.sender.value) <==> u != t)
    requires forall u :: Live(u, v.all) && u != t ==> u.sender != t.sender
    ensures Live(u, v'.all) <==> Live(u, v.all) && u != t
  {
    hide PaysFloor, AllFit, Bounded, Synced;
    if u.sender.Some? {
      var a := u.sender.value;
      assert Ok(v.all, v.pending, v.queue, a) && Ok(v'.all, v'.pending, v'.queue, a);
      if Live(u, v.all) {
        StateNonceDecides(v, a, u);
      }
    }
  }

  const DEFAULTS := Config(1, 10, 16, 4096, 64, 1024, 10800)

  const RICH := Head(map[], map[1 := 50000, 2 := 50000, 3 := 50000, 4 := 50000], 1000000)

  /** The hash map of a few transactions. */
  function Pooled(txs: seq<Tx>): All {
    if txs == [] then map[] else Pooled(txs[..|txs| - 1])[txs[|txs| - 1].Hash() := txs[|txs| - 1]]
  }

  lemma {:induction false} PooledLive(txs: seq<Tx>)
    ensures HashKeyed(Pooled(txs)) && |Pooled(txs)| <= |txs| && forall t :: Live(t, Pooled(txs)) <==> t in txs
  {
    if txs != [] {
      var n := |txs| - 1;
      PooledLive(txs[..n]);
      assert Pooled(txs).Keys == Pooled(txs[..n]).Keys + {txs[n].Hash()};
      assert txs == txs[..n] + [txs[n]];
    }
  }

  ghost predicate Affordable(head: Head, gasPrice: int, t: Tx) {
    && t.sender.Some? && t == Transfer(t.sender.value, t.nonce, t.price) && head.gasLimit >= 21000
    && gasPrice <= t.price && head.Nonce(t.sender.value) <= t.nonce && t.price * 21000 <= head.Balance(t.sender.value)
  }

  /** Transfers that a new pool takes without meeting a limit. */
  ghost predicate Suited(c: Config, head: Head, txs: seq<Tx>) {
    && c.priceLimit >= 1 && c.priceBump >= 1 && c.accountSlots >= 1
    && |txs| <= c.accountQueue && |txs| <= c.globalSlots && |txs| <= c.globalQueue
    && (forall i :: 0 <= i < |txs| ==> Affordable(head, c.priceLimit, txs[i]))
    && (forall i, j :: 0 <= i < j < |txs| ==> txs[i].sender != txs[j].sender || txs[i].nonce != txs[j].nonce)
  }

  /** A new pool that has been given these transfers one by one. */
  method Filled(c: Config, start: Head, txs: seq<Tx>) returns (pool: TxPool)
    requires Suited(c, start, txs)
    ensures fresh(pool) && fresh(pool.priced) && pool.config == c && pool.Valid() && pool.AllSynced() && pool.all == Pooled(txs)
    ensures multiset(pool.priced.items) == multiset(txs) && pool.priced.stales == 0
    ensures pool.head == start && pool.gasPrice == c.priceLimit && pool.locals == {}
  {
    hide Shaped, Covers, Bounded, PaysFloor, AllFit, Beating, Synced, Distinct, Listed;
    pool := new TxPool(c, start);
    assert txs[..0] == [];
    for i := 0 to |txs|
      invariant fresh(pool) && fresh(pool.priced) && pool.config == c && pool.Valid() && pool.AllSynced() && pool.all == Pooled(txs[..i])
      invariant multiset(pool.priced.items) == multiset(txs[..i]) && pool.priced.stales == 0
      invariant pool.head == start && pool.gasPrice == c.priceLimit && pool.locals == {}
    {
      PooledLive(txs[..i]);
      assert txs[..i + 1][..i] == txs[..i] && txs[..i + 1] == txs[..i] + [txs[i]];
      Enlist(pool, txs[i].sender.value, txs[i].nonce, txs[i].price);
    }
    assert txs[..|txs|] == txs;
  }

  /** A transaction comes back while its old heap entry is still there; when both entries are
      taken out at once, the stale counter is one too high. The transaction was queued without
      anything pending before it, so that the eviction tick took it at once. */
  method Reentry() returns (pool: TxPool)
    ensures pool.Valid() && pool.config == DEFAULTS && pool.Overcount() > 0
  {
    hide Shaped, Covers, Bounded, PaysFloor, AllFit, Beating, Synced, Distinct, Listed, Withdrawn;
    var txs := [Transfer(1, 0, 1), Transfer(2, 0, 1), Transfer(3, 0, 1), Transfer(4, 1, 1)];
    assert Suited(DEFAULTS, RICH, txs);
    pool := Filled(DEFAULTS, RICH, txs);
    EvictAndReturn(pool, txs);
    assert !SingleBelow(pool.priced.items, pool.all, pool.locals, 2) by { assert Live(txs[3], pool.all); }
    pool.SetGasPrice(2);
  }

  method EvictAndReturn(pool: TxPool, txs: seq<Tx>)
    requires txs == [Transfer(1, 0, 1), Transfer(2, 0, 1), Transfer(3, 0, 1), Transfer(4, 1, 1)]
    requires pool.Valid() && pool.AllSynced() && pool.all == Pooled(txs) && multiset(pool.priced.items) == multiset(txs) && pool.priced.stales == 0
    requires pool.config == DEFAULTS && pool.head == RICH && pool.gasPrice == 1 && pool.locals == {}
    modifies pool, pool.priced
    ensures pool.Valid() && Live(txs[3], pool.all) && pool.locals == {} && multiset(pool.priced.items)[txs[3]] >= 2
  {
    hide Shaped, Covers, Bounded, PaysFloor, AllFit, Beating, Synced, Distinct, Listed, Withdrawn;
    var t := txs[3];
    PooledLive(txs);
    ghost var v := pool.V();
    assert |pool.priced.items| == |multiset(pool.priced.items)| == |multiset(txs)| == 4;
    pool.Evict(0);
    EvictsGap(v, 0, pool.V(), DEFAULTS, t);
    assert v.all.Keys == pool.all.Keys + {t.Hash()};
    Enlist(pool, 4, 1, 1);
  }

  // A hole in the pending transactions of an account.

  /** A transaction that only a larger block could hold. */
  const BULKY := Tx(Some(7), 4, 1, 30000, 0, Some(0), [], 100)

  /** The state before and after the chain has lost two blocks with a transaction each of
      account 7; blocks have become smaller. */
  const BEFORE := Head(map[7 := 5], map[7 := 50000], 1000000)
  const AFTER := Head(map[7 := 3], map[7 := 50000], 25000)

  lemma QueuedIsLive(v: View, a: Address)
    requires v.Shape()
    ensures forall n :: n in At(v.queue, a) ==> var t := At(v.queue, a)[n]; Live(t, v.all) && t.sender == Some(a) && t.nonce == n
  {
    assert Ok(v.all, v.pending, v.queue, a);
    forall n | n in At(v.queue, a) ensures Live(At(v.queue, a)[n], v.all) {
      assert Has(At(v.queue, a), At(v.queue, a)[n]);
    }
  }

  /** Two transactions from the state nonce of an account in sync are both pending. */
  lemma PairPending(v: View, a: Address, t: Tx, u: Tx)
    requires v.Shape() && v.SyncedAt(a) && t.sender == u.sender == Some(a) && t.nonce == v.head.Nonce(a) && u.nonce == t.nonce + 1
    requires forall w :: Live(w, v.all) && w.sender == Some(a) <==> w == t || w == u
    ensures At(v.pending, a) == map[t.nonce := t, u.nonce := u] && At(v.queue, a) == map[]
  {
    var p, q := At(v.pending, a), At(v.queue, a);
    assert Ok(v.all, v.pending, v.queue, a);
    assert Live(t, v.all) && Live(u, v.all);
    assert Has(p, t) && Has(p, u);
    forall n | n in p ensures n == t.nonce || n == u.nonce {
      assert Has(p, p[n]);
    }
    QueuedIsLive(v, a);
  }

  const PAIR := [Transfer(7, 5, 1), Transfer(7, 6, 1)]

  /** A pool with two pending transactions of account 7 and no other. */
  method WithPair(c: Config, start: Head) returns (pool: TxPool)
    requires Suited(c, start, PAIR) && start.Nonce(7) == 5
    ensures fresh(pool) && fresh(pool.priced) && pool.config == c && pool.Valid() && pool.head == start && pool.gasPrice == c.priceLimit && pool.locals == {}
    ensures At(pool.pending, 7) == map[5 := Transfer(7, 5, 1), 6 := Transfer(7, 6, 1)] && At(pool.queue, 7) == map[]
    ensures |pool.all| <= 2 && forall t :: Live(t, pool.all) <==> t in PAIR
  {
    hide Shaped, Covers, Bounded, PaysFloor, AllFit, Beating, Distinct, Listed, Synced, Suited;
    pool := Filled(c, start, PAIR);
    PooledLive(PAIR);
    PairPending(pool.V(), 7, PAIR[0], PAIR[1]);
  }

  /** A transaction at a nonce of its own is queued while the pool is not full. */
  lemma Queues(v: View, tx: Tx, local: bool, r: AddResult, room: View, v': View, c: Config, a: Address)
    requires v.Shape() && AddedTo(v, tx, local, r, room, v', c) && !Live(tx, v.all) && v.Objection(tx, local).None? && |v.all| < Limit(c)
    requires tx.sender == Some(a) && tx.nonce !in At(v.pending, a) && tx.nonce !in At(v.queue, a)
    ensures r == Accepted(false) && v' == v.(queue := v'.queue, locals := v'.locals, all := v'.all, pending := v'.pending)
    ensures At(v'.pending, a) == At(v.pending, a) && At(v'.queue, a) == At(v.queue, a)[tx.nonce := tx] && |v'.all| <= |v.all| + 1
    ensures forall b: Address :: b != a ==> At(v'.pending, b) == At(v.pending, b) && At(v'.queue, b) == At(v.queue, b)
    ensures local || v'.locals == v.locals
  {
    hide FirstObjection, Shaped;
    AddedLive(v, tx, local, r, room, v', c);
    L.GrownPool(v.all, v'.all, tx);
    forall b: Address | b != a ensures At(v'.pending, b) == At(v.pending, b) && At(v'.queue, b) == At(v.queue, b) {
      Elsewhere(v.pending, v'.pending, a, b);
      Elsewhere(v.queue, v'.queue, a, b);
    }
  }

  lemma LoneReady(tx: Tx)
    ensures ReadyRun(map[tx.nonce := tx], tx.nonce) == {tx.nonce}
  {
    var q, n := map[tx.nonce := tx], tx.nonce;
    assert q.Keys == {n} && Min(q.Keys) == n && RunEnd(q.Keys, n) > n;
  }

  lemma LoneUsable(p: ByNonce, tx: Tx, head: Head, a: Address, local: bool, limit: nat)
    requires head.Nonce(a) <= tx.nonce && !Unpayable(tx, head.Balance(a), head.gasLimit)
    ensures var q := map[tx.nonce := tx];
            && Restrict(q, Usable(q, head, a)) == q && p + Restrict(q, {tx.nonce}) == p[tx.nonce := tx]
            && Allowed(q - {tx.nonce}, local, limit) == map[]
  {
  }

  /** The only queued transaction of an account, if it is next, becomes pending. */
  lemma LonePromotes(v: View, accounts: set<Address>, now: int, v': View, c: Config, a: Address, tx: Tx)
    requires PromotedTo(v, accounts, now, v', c) && a in accounts && At(v.queue, a) == map[tx.nonce := tx]
    requires tx.nonce == v.Virtual(a) == v.head.Nonce(a) && !Unpayable(tx, v.head.Balance(a), v.head.gasLimit)
    ensures At(v'.pending, a) == At(v.pending, a)[tx.nonce := tx] && At(v'.queue, a) == map[]
  {
    hide Shaped, BeatsNoted, ReadyRun, Lowest, Usable, Allowed, Restrict;
    var p, q, n := At(v.pending, a), At(v.queue, a), tx.nonce;
    assert PromotedAt(v.pending, v.queue, v.virtuals, v'.pending, v'.queue, v'.virtuals, v.head, v.locals, c.accountQueue, a);
    LoneUsable(p, tx, v.head, a, a in v.locals, c.accountQueue);
    LoneReady(tx);
  }

  /** An account without queued transactions is not changed by promotion. */
  lemma NothingPromotes(v: View, accounts: set<Address>, now: int, v': View, c: Config, a: Address)
    requires PromotedTo(v, accounts, now, v', c) && At(v.queue, a) == map[]
    ensures At(v'.pending, a) == At(v.pending, a) && At(v'.queue, a) == map[] && v'.Virtual(a) == v.Virtual(a)
  {
    hide Shaped, BeatsNoted;
    if a in accounts {
      assert PromotedAt(v.pending, v.queue, v.virtuals, v'.pending, v'.queue, v'.virtuals, v.head, v.locals, c.accountQueue, a);
      assert Restrict(map[], Usable(map[], v.head, a)) == map[];
    } else {
      assert Untouched(v.pending, v.queue, v.virtuals, v'.pending, v'.queue, v'.virtuals, v.head, a);
    }
  }

  /** While every limit is far, nothing is truncated. */
  lemma NothingTruncated(v: View, m: nat, v': View, c: Config, a: Address)
    requires v.Shape() && TruncatedTo(v, m, v', c) && |v.all| <= c.globalSlots && |v.all| <= c.globalQueue
    ensures v'.pending == v.pending && v'.queue == v.queue && v'.Virtual(a) == v.Virtual(a)
  {
    hide Shaped, L.Fair, L.NewestFirst, L.KeepsLowest, L.CutTo, L.Total;
    L.SizeIsTotal(v.all, v.pending, v.queue);
    assert L.TrimmedAt(At(v.pending, a), v.Virtual(a), At(v'.pending, a), v'.Virtual(a));
  }

  /** A list that starts at the state nonce and can be paid for is not demoted. */
  lemma NothingDemotes(v: View, v': View, a: Address)
    requires DemotedTo(v, v') && v.head.Nonce(a) in At(v.pending, a)
    requires forall n :: n in At(v.pending, a) ==> v.head.Nonce(a) <= n && !Unpayable(At(v.pending, a)[n], v.head.Balance(a), v.head.gasLimit)
    ensures At(v'.pending, a) == At(v.pending, a) && At(v'.queue, a) == At(v.queue, a)
  {
    hide Shaped, BeatsKept;
    assert DemotedAt(v.pending, v.queue, v'.pending, v'.queue, v.head, a);
    AllStay(At(v.pending, a), v.head, a);
    assert Returning(At(v.pending, a), v.head, a) == map[];
  }

  lemma Bulky(v: View, r: AddResult, room: View, v': View, c: Config)
    requires AddedTo(v, BULKY, false, r, room, v', c) && v.head.gasLimit < BULKY.gas
    ensures r.Rejected? && v' == v
  {
  }

  lemma MidSmall(v: View, accounts: set<Address>, now: int, mid: View, m: nat, v': View, c: Config)
    requires PromotedTo(v, accounts, now, mid, c) && TruncatedTo(mid, m, v', c)
    ensures mid.Shape() && SameSettings(v, v') && |v'.all| <= |mid.all| <= |v.all|
  {
    hide Shaped, PromotedAt, Untouched, BeatsNoted, L.Trimmed, L.Fair, L.NewestFirst, L.KeepsLowest, L.Total;
    L.SmallerPool(v.all, mid.all);
    L.SmallerPool(mid.all, v'.all);
  }

  /** The batch of reinjected transactions leaves nonces 3, 5 and 6 pending. */
  lemma HoleOpens(v: View, now: int, b: Batch, c: Config)
    requires v.Shape() && BatchStep(v, [Transfer(7, 3, 1), BULKY], false, now, b, c)
    requires v.head == AFTER && v.Virtual(7) == 3 && v.gasPrice <= 1 && |v.all| + 2 <= c.globalSlots && |v.all| + 2 <= c.globalQueue
    requires !Live(Transfer(7, 3, 1), v.all) && !Live(BULKY, v.all)
    requires At(v.pending, 7) == map[5 := Transfer(7, 5, 1), 6 := Transfer(7, 6, 1)] && At(v.queue, 7) == map[]
    ensures At(b.last.pending, 7) == map[3 := Transfer(7, 3, 1), 5 := Transfer(7, 5, 1), 6 := Transfer(7, 6, 1)]
    ensures At(b.last.queue, 7) == map[] && |b.last.all| <= |v.all| + 2
  {
    hide AddedTo, PromotedTo, TruncatedTo, Shaped, FirstObjection;
    var t, txs := Transfer(7, 3, 1), [Transfer(7, 3, 1), BULKY];
    assert AddedTo(b.views[0], txs[0], false, b.answers[0], b.rooms[0], b.views[1], c);
    assert AddedTo(b.views[1], txs[1], false, b.answers[1], b.rooms[1], b.views[2], c);
    TransferIsAdmissible(v, 7, 3, 1);
    Queues(v, t, false, b.answers[0], b.rooms[0], b.views[1], c, 7);
    Bulky(b.views[1], b.answers[1], b.rooms[1], b.views[2], c);
    assert Dirty(txs, b.answers) == {7} by { assert txs[0].sender.value == 7; }
    LonePromotes(b.views[2], {7}, now, b.mid, c, 7, t);
    MidSmall(b.views[2], {7}, now, b.mid, b.m, b.last, c);
    NothingTruncated(b.mid, b.m, b.last, c, 7);
  }

  /** An account with nothing to demote and nothing queued only has its virtual nonce set. */
  lemma RealignsOnly(v: View, now: int, s: Moves, c: Config, a: Address)
    requires DemotedTo(v, s.demoted) && RealignedTo(s.demoted, s.realigned)
    requires PromotedTo(s.realigned, s.realigned.queue.Keys, now, s.mid, c) && TruncatedTo(s.mid, s.m, s.last, c)
    requires v.head.Nonce(a) in At(v.pending, a) && At(v.queue, a) == map[] && |v.all| <= c.globalSlots && |v.all| <= c.globalQueue
    requires forall n :: n in At(v.pending, a) ==> v.head.Nonce(a) <= n && !Unpayable(At(v.pending, a)[n], v.head.Balance(a), v.head.gasLimit)
    ensures At(s.last.pending, a) == At(v.pending, a) && s.last.Virtual(a) == Next(At(v.pending, a), v.Virtual(a)) && s.last.head == v.head
  {
    NothingDemotes(v, s.demoted, a);
    DemotedKeeps(v, s.demoted, c);
    L.SmallerPool(v.all, s.demoted.all);
    assert s.demoted.Virtual(a) == v.Virtual(a);
    hide PromotedTo, TruncatedTo, DemotedTo, Shaped, Unpayable, Next;
    NothingPromotes(s.realigned, s.realigned.queue.Keys, now, s.mid, c, a);
    MidSmall(s.realigned, s.realigned.queue.Keys, now, s.mid, s.m, s.last, c);
    NothingTruncated(s.mid, s.m, s.last, c, a);
  }

  lemma HoleIsPayable()
    ensures forall n: nat :: !Unpayable(Transfer(7, n, 1), AFTER.Balance(7), AFTER.gasLimit)
  {
  }

  /** Demotion then looks for a gap at the state nonce only, and promotion starts from behind
      the last pending transaction. */
  lemma HoleStays(v: View, now: int, s: Moves, c: Config)
    requires v.Shape() && ResetStep(v, AFTER, [Transfer(7, 3, 1), BULKY], now, s, c)
    requires v.gasPrice <= 1 && |v.all| + 2 <= c.globalSlots && |v.all| + 2 <= c.globalQueue
    requires !Live(Transfer(7, 3, 1), v.all) && !Live(BULKY, v.all)
    requires At(v.pending, 7) == map[5 := Transfer(7, 5, 1), 6 := Transfer(7, 6, 1)] && At(v.queue, 7) == map[]
    ensures At(s.last.pending, 7).Keys == {3, 5, 6} && s.last.Virtual(7) == 7 && s.last.head == AFTER
  {
    hide BatchStep, PromotedTo, TruncatedTo, DemotedTo, RealignedTo, Shaped, Unpayable;
    var v0, last := v.(head := AFTER, virtuals := map[]), s.batch.last;
    HoleOpens(v0, now, s.batch, c);
    BatchFits(v0, [Transfer(7, 3, 1), BULKY], false, now, s.batch, c);
    HoleIsPayable();
    RealignsOnly(last, now, s, c, 7);
    assert IsMax(Nonces.Max({3, 5, 6}), {3, 5, 6});
  }

  /** After a reorganisation with one of two reinjected transactions turned away, nonces 3, 5
      and 6 of an account are pending although 4 is in no list. */
  method Hole() returns (pool: TxPool)
    ensures pool.Valid() && pool.config == DEFAULTS && pool.head == AFTER
    ensures At(pool.pending, 7).Keys == {3, 5, 6} && pool.V().Virtual(7) == 7 && !pool.V().SyncedAt(7)
  {
    hide Shaped, Covers, Bounded, PaysFloor, AllFit, Beating, Distinct, Listed, ResetStep, C.LostWithCause, C.AllAnswered, C.ResetStrain, HearsAll;
    pool := WithPair(DEFAULTS, BEFORE);
    ghost var v := pool.V();
    ghost var s := pool.Reset(AFTER, [Transfer(7, 3, 1), BULKY], 0);
    HoleStays(v, 0, s, DEFAULTS);
    assert 4 !in At(pool.pending, 7);
  }

  // An executable transaction that waits in the queue.

  /** One transaction of account 8 and two of account 7 are one too many for pending. */
  const SMALL := Config(1, 10, 1, 2, 64, 1024, 10800)
  const OLDER := Head(map[7 := 5], map[7 := 50000, 8 := 50000], 1000000)
  const NEWER := Head(map[7 := 7], map[7 := 50000, 8 := 50000], 1000000)

  lemma StrandTotal(v: View, m: nat, v': View, c: Config)
    requires TruncatedTo(v, m, v', c) && c.accountSlots == 1 && c.globalSlots == 2 && v.locals == {} && L.Len(v.pending, 8) == 1
    ensures L.Len(v'.pending, 7) < 2
  {
    hide Shaped, L.NewestFirst, L.KeepsLowest, L.Total, L.Trimmed;
    assert L.Len(v'.pending, 8) == 1 by {
      assert v'.pending == v.pending || L.FairAt(v.pending, v'.pending, v.locals, m, 8);
    }
    L.TotalWithout(v'.pending, 7);
    L.TotalWithout(v'.pending - {7}, 8);
    assert At(v'.pending - {7}, 8) == At(v'.pending, 8);
  }

  lemma CutLowers(p: ByNonce, p': ByNonce, v': nat)
    requires p.Keys == {5, 6} && |p'| < 2 && L.TrimmedAt(p, 7, p', v')
    ensures p'.Keys <= {5, 6} && v' < 7
  {
    assert |{5, 6}| == 2;
    assert p'.Keys <= p.Keys && p'.Keys != p.Keys;
    var s := p.Keys - p'.Keys;
    assert s != {};
    assert IsMin(Min(s), s);
  }

  /** Truncation takes an outdated transaction, and the virtual nonce falls below the state
      nonce. */
  lemma StrandCut(v: View, m: nat, v': View, c: Config)
    requires TruncatedTo(v, m, v', c) && c.accountSlots == 1 && c.globalSlots == 2 && v.locals == {}
    requires At(v.pending, 7).Keys == {5, 6} && v.Virtual(7) == 7 && L.Len(v.pending, 8) == 1
    ensures At(v'.pending, 7).Keys <= {5, 6} && v'.Virtual(7) < 7
  {
    hide Shaped, L.NewestFirst, L.KeepsLowest, L.Total, L.Fair;
    StrandTotal(v, m, v', c);
    assert L.TrimmedAt(At(v.pending, 7), v.Virtual(7), At(v'.pending, 7), v'.Virtual(7));
    CutLowers(At(v.pending, 7), At(v'.pending, 7), v'.Virtual(7));
  }

  lemma QueueStays(v: View, m: nat, v': View, c: Config)
    requires v.Shape() && TruncatedTo(v, m, v', c) && |v.all| <= c.globalQueue
    ensures v'.queue == v.queue
  {
    hide Shaped, L.NewestFirst, L.KeepsLowest, L.Total, L.Fair, L.Trimmed;
    L.SizeIsTotal(v.all, v.pending, v.queue);
  }

  lemma Elsewise(v: View, accounts: set<Address>, now: int, v': View, c: Config, a: Address)
    requires PromotedTo(v, accounts, now, v', c) && a !in accounts
    ensures At(v'.pending, a) == At(v.pending, a) && At(v'.queue, a) == At(v.queue, a) && v'.Virtual(a) == v.Virtual(a)
    ensures SameSettings(v, v')
  {
    assert Untouched(v.pending, v.queue, v.virtuals, v'.pending, v'.queue, v'.virtuals, v.head, a);
  }

  /** What the reinjected transaction of account 8 does to account 7. */
  lemma StrandBatch(v: View, now: int, b: Batch, c: Config)
    requires v.Shape() && BatchStep(v, [Transfer(8, 0, 1)], false, now, b, c) && c == SMALL
    requires v.head == NEWER && v.Virtual(7) == 7 && v.Virtual(8) == 0 && v.gasPrice <= 1 && v.locals == {} && |v.all| <= 2
    requires At(v.pending, 7).Keys == {5, 6} && At(v.queue, 7) == At(v.pending, 8) == At(v.queue, 8) == map[]
    ensures At(b.last.pending, 7).Keys <= {5, 6} && At(b.last.queue, 7) == map[] && b.last.Virtual(7) < 7 && |b.last.all| <= 3
  {
    hide AddedTo, PromotedTo, TruncatedTo, Shaped, FirstObjection;
    var t, txs := Transfer(8, 0, 1), [Transfer(8, 0, 1)];
    assert AddedTo(b.views[0], txs[0], false, b.answers[0], b.rooms[0], b.views[1], c);
    TransferIsAdmissible(v, 8, 0, 1);
    NotListed(v, t, 8);
    Queues(v, t, false, b.answers[0], b.rooms[0], b.views[1], c, 8);
    assert Dirty(txs, b.answers) == {8} by { assert txs[0].sender.value == 8; }
    LonePromotes(b.views[1], {8}, now, b.mid, c, 8, t);
    Elsewise(b.views[1], {8}, now, b.mid, c, 7);
    MidSmall(b.views[1], {8}, now, b.mid, b.m, b.last, c);
    assert L.Len(b.mid.pending, 8) == 1;
    StrandCut(b.mid, b.m, b.last, c);
    QueueStays(b.mid, b.m, b.last, c);
  }

  lemma NotListed(v: View, t: Tx, a: Address)
    requires v.Shape() && t.sender == Some(a) && At(v.pending, a) == At(v.queue, a) == map[]
    ensures !Live(t, v.all)
  {
    assert Ok(v.all, v.pending, v.queue, a);
  }

  /** With its outdated transactions gone, account 7 keeps a virtual nonce that is too low. */
  lemma StrandReset(v: View, now: int, s: Moves, c: Config)
    requires v.Shape() && ResetStep(v, NEWER, [Transfer(8, 0, 1)], now, s, c) && c == SMALL
    requires v.gasPrice <= 1 && v.locals == {} && |v.all| <= 2
    requires At(v.pending, 7).Keys == {5, 6} && At(v.queue, 7) == At(v.pending, 8) == At(v.queue, 8) == map[]
    ensures At(s.last.pending, 7) == At(s.last.queue, 7) == map[] && s.last.Virtual(7) < 7 && |s.last.all| <= 3
    ensures s.last.head == NEWER && s.last.locals == {} && s.last.gasPrice == v.gasPrice
  {
    hide BatchStep, PromotedTo, TruncatedTo, DemotedTo, Shaped;
    var v0, last := v.(head := NEWER, virtuals := map[]), s.batch.last;
    StrandBatch(v0, now, s.batch, c);
    BatchFits(v0, [Transfer(8, 0, 1)], false, now, s.batch, c);
    OutdatedGo(last, s.demoted);
    DemotedKeeps(last, s.demoted, c);
    L.SmallerPool(last.all, s.demoted.all);
    NothingPromotes(s.realigned, s.realigned.queue.Keys, now, s.mid, c, 7);
    MidSmall(s.realigned, s.realigned.queue.Keys, now, s.mid, s.m, s.last, c);
    QueueStays(s.mid, s.m, s.last, c);
    EmptyStays(s.mid, s.m, s.last, c, 7);
  }

  lemma OutdatedGo(v: View, v': View)
    requires DemotedTo(v, v') && v.head.Nonce(7) == 7 && At(v.pending, 7).Keys <= {5, 6} && At(v.queue, 7) == map[]
    ensures At(v'.pending, 7) == At(v'.queue, 7) == map[] && v'.Virtual(7) == v.Virtual(7)
  {
    hide Shaped, BeatsKept;
    assert DemotedAt(v.pending, v.queue, v'.pending, v'.queue, v.head, 7);
    var p := At(v.pending, 7);
    assert forall n :: n in p ==> n < 7;
    assert Staying(p, v.head, 7) == map[] && Returning(p, v.head, 7) == map[];
  }

  lemma EmptyStays(v: View, m: nat, v': View, c: Config, a: Address)
    requires TruncatedTo(v, m, v', c) && At(v.pending, a) == map[]
    ensures At(v'.pending, a) == map[] && v'.Virtual(a) == v.Virtual(a)
  {
    hide Shaped, L.NewestFirst, L.KeepsLowest, L.Total, L.Fair;
    assert L.TrimmedAt(At(v.pending, a), v.Virtual(a), At(v'.pending, a), v'.Virtual(a));
  }

  /** The next transaction of the account is executable and yet not promoted. */
  lemma StrandWaits(v: View, now: int, b: Batch, c: Config)
    requires v.Shape() && BatchStep(v, [Transfer(7, 7, 1)], false, now, b, c) && c == SMALL
    requires v.head == NEWER && v.Virtual(7) < 7 && v.gasPrice <= 1 && v.locals == {} && |v.all| <= 3
    requires At(v.pending, 7) == At(v.queue, 7) == map[]
    ensures At(b.last.pending, 7) == map[] && At(b.last.queue, 7) == map[7 := Transfer(7, 7, 1)]
  {
    hide AddedTo, PromotedTo, TruncatedTo, Shaped, FirstObjection;
    var t, txs := Transfer(7, 7, 1), [Transfer(7, 7, 1)];
    assert AddedTo(b.views[0], txs[0], false, b.answers[0], b.rooms[0], b.views[1], c);
    TransferIsAdmissible(v, 7, 7, 1);
    NotListed(v, t, 7);
    Queues(v, t, false, b.answers[0], b.rooms[0], b.views[1], c, 7);
    assert Dirty(txs, b.answers) == {7} by { assert txs[0].sender.value == 7; }
    LoneStays(b.views[1], {7}, now, b.mid, c, 7, t);
    MidSmall(b.views[1], {7}, now, b.mid, b.m, b.last, c);
    QueueStays(b.mid, b.m, b.last, c);
    EmptyStays(b.mid, b.m, b.last, c, 7);
  }

  /** The only queued transaction of an account stays queued if it is not next. */
  lemma LoneStays(v: View, accounts: set<Address>, now: int, v': View, c: Config, a: Address, tx: Tx)
    requires PromotedTo(v, accounts, now, v', c) && a in accounts && At(v.queue, a) == map[tx.nonce := tx] && c.accountQueue >= 1
    requires v.Virtual(a) < tx.nonce && v.head.Nonce(a) <= tx.nonce && !Unpayable(tx, v.head.Balance(a), v.head.gasLimit)
    ensures At(v'.pending, a) == At(v.pending, a) && At(v'.queue, a) == At(v.queue, a)
  {
    hide Shaped, BeatsNoted, ReadyRun, Lowest, Usable, Allowed, Restrict;
    var p, q, n := At(v.pending, a), At(v.queue, a), tx.nonce;
    assert PromotedAt(v.pending, v.queue, v.virtuals, v'.pending, v'.queue, v'.virtuals, v.head, v.locals, c.accountQueue, a);
    LoneUsable(p, tx, v.head, a, a in v.locals, c.accountQueue);
    LoneAllowed(p, tx, v.Virtual(a), a in v.locals, c.accountQueue);
  }

  lemma LoneAllowed(p: ByNonce, tx: Tx, start: nat, local: bool, limit: nat)
    requires start < tx.nonce && limit >= 1
    ensures var q := map[tx.nonce := tx];
            ReadyRun(q, start) == {} && p + Restrict(q, {}) == p && Allowed(q - {}, local, limit) == q
  {
    var q, n := map[tx.nonce := tx], tx.nonce;
    assert q.Keys == {n} && Min(q.Keys) == n;
  }

  /** A reorganisation whose reinjected transaction overfills pending leaves another account
      with a virtual nonce below its state nonce; its next transaction then waits in the queue
      although nothing is missing before it. */
  method Strand() returns (pool: TxPool)
    ensures pool.Valid() && pool.config == SMALL && pool.head == NEWER
    ensures At(pool.pending, 7) == map[] && At(pool.queue, 7) == map[7 := Transfer(7, 7, 1)] && !pool.V().SyncedAt(7)
  {
    hide Shaped, Covers, Bounded, PaysFloor, AllFit, Beating, Distinct, Listed, ResetStep, BatchStep;
    hide C.LostWithCause, C.AllAnswered, C.ResetStrain, C.BatchStrain, HearsAll, Hears;
    pool := WithPair(SMALL, OLDER);
    ghost var v := pool.V();
    NoneListed(v, 8);
    ghost var s := pool.Reset(NEWER, [Transfer(8, 0, 1)], 0);
    StrandReset(v, 0, s, SMALL);
    ghost var b;
    var r;
    r, b := pool.AddTx(Transfer(7, 7, 1), false, 0);
    StrandWaits(s.last, 0, b, SMALL);
  }

  lemma NoneListed(v: View, a: Address)
    requires v.Shape() && forall t :: Live(t, v.all) ==> t.sender != Some(a)
    ensures At(v.pending, a) == At(v.queue, a) == map[]
  {
    assert Ok(v.all, v.pending, v.queue, a);
    assert forall n :: n in At(v.pending, a) ==> Has(At(v.pending, a), At(v.pending, a)[n]);
    assert forall n :: n in At(v.queue, a) ==> Has(At(v.queue, a), At(v.queue, a)[n]);
  }
}
