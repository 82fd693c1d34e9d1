/** The steps of the pool as relations between what it holds before and after: nothing
    here refers to the price heap, whose state decides no more than which of several
    equally cheap transactions makes room. */
module PoolSteps {
  import opened Nonces
  import opened Transactions
  import opened Wrappers
  import opened SortedMap
  import opened AccountLists
  import opened PricedLists
  import opened PoolState
  import opened PoolSync
  import opened PoolMoves
  import opened GasAccounting
  import L = PoolLimits

  /** What the pool demands of a transaction before it looks at the pool's contents. Local
      transactions and those of local accounts are exempt from the price floor. */
  predicate MeetsDemands(tx: Tx, exempt: bool, head: Head, gasPrice: int, homestead: bool) {
    && tx.size <= 32 * 1024 && tx.value >= 0 && tx.gas <= head.gasLimit && tx.sender.Some?
    && (exempt || gasPrice <= tx.price)
    && head.Nonce(tx.sender.value) <= tx.nonce
    && tx.value + tx.price * tx.gas <= head.Balance(tx.sender.value)
    && IntrinsicCost(tx.data, tx.to.None?, homestead) <= MAX_UINT64
    && IntrinsicCost(tx.data, tx.to.None?, homestead) <= tx.gas
  }

  /** The first of the pool's demands that a transaction does not meet. */
  function FirstObjection(tx: Tx, exempt: bool, head: Head, gasPrice: int, homestead: bool): (err: Option<TxError>)
    ensures err.None? <==> MeetsDemands(tx, exempt, head, gasPrice, homestead)
    ensures err != Some(KnownTransaction) && err != Some(ReplaceUnderpriced)
  {
    if tx.size > MAX_TX_SIZE then Some(OversizedData)
    else if tx.value < 0 then Some(NegativeValue)
    else if head.gasLimit < tx.gas then Some(GasLimitExceeded)
    else if tx.sender.None? then Some(InvalidSender)
    else if !exempt && gasPrice > tx.price then Some(UnderpricedTx)
    else if head.Nonce(tx.sender.value) > tx.nonce then Some(NonceTooLow)
    else if head.Balance(tx.sender.value) < tx.Cost() then Some(InsufficientFunds)
    else if IntrinsicCost(tx.data, tx.to.None?, homestead) > MAX_UINT64 then Some(IntrinsicGasOverflow)
    else if tx.gas < IntrinsicCost(tx.data, tx.to.None?, homestead) then Some(IntrinsicGasTooLow)
    else None
  }

  /** Which objection it is: something is wrong, and everything that is looked at before is
      right. */
  lemma ObjectionIs(tx: Tx, exempt: bool, head: Head, gasPrice: int, homestead: bool)
    ensures var err := FirstObjection(tx, exempt, head, gasPrice, homestead);
            var small, plain, fits := tx.size <= 32 * 1024, tx.value >= 0, tx.gas <= head.gasLimit;
            && (err == Some(OversizedData) <==> !small)
            && (err == Some(NegativeValue) <==> small && !plain)
            && (err == Some(GasLimitExceeded) <==> small && plain && !fits)
            && (err == Some(InvalidSender) <==> small && plain && fits && tx.sender.None?)
            && (tx.sender.Some? ==>
                  var a := tx.sender.value;
                  var pays, next := exempt || gasPrice <= tx.price, head.Nonce(a) <= tx.nonce;
                  var funded, cost := tx.value + tx.price * tx.gas <= head.Balance(a), IntrinsicCost(tx.data, tx.to.None?, homestead);
                  && (err == Some(UnderpricedTx) <==> small && plain && fits && !pays)
                  && (err == Some(NonceTooLow) <==> small && plain && fits && pays && !next)
                  && (err == Some(InsufficientFunds) <==> small && plain && fits && pays && next && !funded)
                  && (err == Some(IntrinsicGasOverflow) <==> small && plain && fits && pays && next && funded && cost > 0xFFFF_FFFF_FFFF_FFFF)
                  && (err == Some(IntrinsicGasTooLow) <==>
                        small && plain && fits && pays && next && funded && tx.gas < cost <= 0xFFFF_FFFF_FFFF_FFFF))
  {
  }

  function Limit(c: Config): nat {
    c.globalSlots + c.globalQueue
  }

  /** What a pool holds besides its price heap. */
  datatype View = View(head: Head, gasPrice: int, homestead: bool, virtuals: map<Address, nat>, locals: set<Address>,
                       pending: AccountMap, queue: AccountMap, beats: map<Address, int>, all: All)
  {
    function Virtual(a: Address): nat {
      VirtualOf(virtuals, head, a)
    }

    function Objection(tx: Tx, local: bool): Option<TxError> {
      FirstObjection(tx, local || IsLocal(locals, tx), head, gasPrice, homestead)
    }

    ghost predicate Shape() {
      Shaped(all, pending, queue)
    }

    ghost predicate SyncedAt(a: Address) {
      SyncedIn(pending, queue, virtuals, head, a)
    }

    ghost predicate LooseAt(a: Address) {
      LooseIn(pending, queue, virtuals, head, a)
    }

    ghost predicate UnbrokenAt(a: Address) {
      Unbroken(At(pending, a), At(queue, a))
    }

    /** The lists agree with the hash map, remote transactions pay the floor, the state at
        the head could still execute every transaction, the pool is within its limit, and
        just the accounts with pending transactions have a heartbeat. */
    ghost predicate Good(c: Config) {
      Shape() && PaysFloor(all, locals, gasPrice) && AllFit(all, head) && Bounded(all, locals, c) && Beating(beats, pending)
    }
  }

  /** Every transaction of a remote account pays at least the pool's gas price. */
  ghost predicate PaysFloor(all: All, locals: set<Address>, gasPrice: int) {
    forall tx :: Live(tx, all) && !IsLocal(locals, tx) ==> tx.price >= gasPrice
  }

  /** Every pooled transaction is one that the state at the head could still execute. */
  ghost predicate AllFit(all: All, head: Head) {
    forall tx :: Live(tx, all) ==> Fits(head, tx)
  }

  /** The pool is within its limit, or all transactions but one are local. */
  ghost predicate Bounded(all: All, locals: set<Address>, c: Config) {
    |all| <= Limit(c) || Sparse(all, locals)
  }

  /** A transaction that outbids a pooled one pays the floor, whoever submitted it. */
  lemma ReplacementPays(all: All, locals: set<Address>, gasPrice: int, l: AccountList, tx: Tx, bump: nat)
    requires PaysFloor(all, locals, gasPrice) && tx.nonce in l.txs && Live(l.txs[tx.nonce], all) && l.txs[tx.nonce].sender == tx.sender
    ensures Accepts(l, tx, bump) ==> IsLocal(locals, tx) || gasPrice <= tx.price
  {
  }

  /** What is left when the remote transactions below a price have gone. */
  lemma FlooredStays(all: All, all': All, locals: set<Address>, head: Head, price: int, c: Config)
    requires Floored(all, all', locals, price)
    requires AllFit(all, head) && Bounded(all, locals, c)
    ensures PaysFloor(all', locals, price) && AllFit(all', head) && Bounded(all', locals, c)
  {
    BoundedStays(all, all', locals, c);
  }

  /** Just the accounts with pending transactions have a heartbeat. */
  ghost predicate Beating(beats: map<Address, int>, pending: AccountMap) {
    forall a: Address :: a in beats <==> At(pending, a) != map[]
  }

  /** What keeps floor, fit and limit: that transactions only leave. */
  lemma ShrunkKeeps(all: All, all': All, locals: set<Address>, head: Head, gasPrice: int, c: Config)
    requires Shrunk(all, all')
    ensures PaysFloor(all, locals, gasPrice) ==> PaysFloor(all', locals, gasPrice)
    ensures AllFit(all, head) ==> AllFit(all', head)
    ensures Bounded(all, locals, c) ==> Bounded(all', locals, c)
  {
    if Bounded(all, locals, c) {
      BoundedStays(all, all', locals, c);
    }
  }

  lemma BoundedStays(all: All, all': All, locals: set<Address>, c: Config)
    requires Bounded(all, locals, c) && Shrunk(all, all')
    ensures Bounded(all', locals, c)
  {
    L.SmallerPool(all, all');
  }

  /** A new pool. */
  function Vacant(head: Head, c: Config): View {
    View(head, c.priceLimit, false, map[], {}, map[], map[], map[], map[])
  }

  ghost predicate NoRemote(all: All, locals: set<Address>) {
    forall t :: Live(t, all) ==> IsLocal(locals, t)
  }

  /** Only the lists and what goes with them differ. */
  ghost predicate SameSettings(v: View, v': View) {
    v' == v.(virtuals := v'.virtuals, pending := v'.pending, queue := v'.queue, beats := v'.beats, all := v'.all)
  }

  // Transactions leave the pool.

  /** The nonces of the listed transactions that are no longer pooled. */
  function Dead(p: ByNonce, all: All): set<nat> {
    set n | n in p && !Live(p[n], all)
  }

  /** What stays pending: everything below the lowest transaction that left. */
  function Standing(p: ByNonce, all: All): ByNonce {
    if Dead(p, all) == {} then p else map n | n in p && n < Min(Dead(p, all)) :: p[n]
  }

  /** What is queued then: what was, and what was pending further up. */
  function Fallen(p: ByNonce, q: ByNonce, all: All): ByNonce {
    (map n | n in q && Live(q[n], all) :: q[n]) + (map n | n in p && n !in Standing(p, all) && Live(p[n], all) :: p[n])
  }

  ghost predicate WithdrawnAt(p: ByNonce, q: ByNonce, v: nat, p': ByNonce, q': ByNonce, v': nat, all': All) {
    p' == Standing(p, all') && q' == Fallen(p, q, all') && v' == L.Low(v, Dead(p, all'))
  }

  ghost predicate WithdrawnIn(v: View, v': View, a: Address) {
    WithdrawnAt(At(v.pending, a), At(v.queue, a), v.Virtual(a), At(v'.pending, a), At(v'.queue, a), v'.Virtual(a), v'.all)
  }

  /** An account's heartbeat is forgotten when its last pending transaction goes. */
  ghost predicate BeatsKept(beats: map<Address, int>, pending: AccountMap, beats': map<Address, int>, pending': AccountMap) {
    && (forall a: Address :: a in beats' <==> a in beats && (At(pending, a) != map[] ==> At(pending', a) != map[]))
    && (forall a: Address :: a in beats' ==> beats'[a] == beats[a])
  }

  /** Some transactions left the pool one by one. */
  ghost predicate Withdrawn(v: View, v': View) {
    && SameSettings(v, v') && v'.Shape() && Shrunk(v.all, v'.all) && BeatsKept(v.beats, v.pending, v'.beats, v'.pending)
    && forall a: Address :: WithdrawnIn(v, v', a)
  }

  lemma NothingWithdrawn(v: View)
    requires v.Shape()
    ensures Withdrawn(v, v)
  {
    forall a: Address ensures WithdrawnIn(v, v, a) {
      assert Ok(v.all, v.pending, v.queue, a);
      AllStand(v.all, a, At(v.pending, a), At(v.queue, a));
    }
  }

  lemma AllStand(all: All, a: Address, p: ByNonce, q: ByNonce)
    requires AccountOk(all, a, p, q)
    ensures Dead(p, all) == {} && Standing(p, all) == p && Fallen(p, q, all) == q
  {
    forall n | n in p ensures Live(p[n], all) {
      assert Has(p, p[n]);
    }
    forall n | n in q ensures Live(q[n], all) {
      assert Has(q, q[n]);
    }
  }

  /** Leaving in two portions is leaving at once. */
  lemma WithdrawnAgain(p: ByNonce, q: ByNonce, v: nat, p': ByNonce, q': ByNonce, v': nat, all': All,
                       p'': ByNonce, q'': ByNonce, v'': nat, all'': All)
    requires p.Keys !! q.Keys && Shrunk(all', all'')
    requires WithdrawnAt(p, q, v, p', q', v', all') && WithdrawnAt(p', q', v', p'', q'', v'', all'')
    ensures WithdrawnAt(p, q, v, p'', q'', v'', all'')
  {
    DeadAgain(p, all', all'');
    FallenAgain(p, q, all', all'');
    LowAgain(p, v, all', all'');
  }

  lemma DeadAgain(p: ByNonce, all': All, all'': All)
    requires Shrunk(all', all'')
    ensures Dead(p, all') <= Dead(p, all'') && Dead(Standing(p, all'), all'') <= Dead(p, all'')
    ensures Dead(Standing(p, all'), all'') == {} ==> Dead(p, all'') == {} || (Dead(p, all') != {} && Min(Dead(p, all'')) == Min(Dead(p, all')))
    ensures Dead(Standing(p, all'), all'') != {} ==> Min(Dead(p, all'')) == Min(Dead(Standing(p, all'), all''))
    ensures Standing(Standing(p, all'), all'') == Standing(p, all'')
  {
    var s := Standing(p, all');
    StandingWithin(p, all');
    assert forall n :: n in Dead(s, all'') <==> n in s && n in Dead(p, all'');
    if Dead(s, all'') != {} {
      var m, k := Min(Dead(s, all'')), Min(Dead(p, all''));
      assert m in Dead(p, all'') && k <= m && k in s;
    } else if Dead(p, all'') != {} {
      var m := Min(Dead(p, all''));
      assert m !in s;
      assert Min(Dead(p, all')) in Dead(p, all'');
    }
  }

  lemma FallenAt(p: ByNonce, q: ByNonce, all: All, n: nat)
    requires p.Keys !! q.Keys
    ensures n in Fallen(p, q, all) <==> (n in q && Live(q[n], all)) || (n in p && n !in Standing(p, all) && Live(p[n], all))
    ensures n in Fallen(p, q, all) ==> Fallen(p, q, all)[n] == if n in q then q[n] else p[n]
  {
    hide Standing;
  }

  lemma FallenAgain(p: ByNonce, q: ByNonce, all': All, all'': All)
    requires p.Keys !! q.Keys && Shrunk(all', all'')
    ensures Fallen(Standing(p, all'), Fallen(p, q, all'), all'') == Fallen(p, q, all'')
  {
    var s, s' := Standing(p, all'), Standing(p, all'');
    DeadAgain(p, all', all'');
    StandingWithin(p, all');
    StandingWithin(s, all'');
    hide Standing, Fallen, Dead, Live;
    var f, g, h := Fallen(s, Fallen(p, q, all'), all''), Fallen(p, q, all''), Fallen(p, q, all');
    forall n: nat ensures n in s ==> n !in h {
      FallenAt(p, q, all', n);
    }
    forall n: nat ensures (n in f <==> n in g) && (n in f ==> f[n] == g[n]) {
      FallenAt(p, q, all', n);
      FallenAt(p, q, all'', n);
      FallenAt(s, h, all'', n);
    }
  }

  lemma StandingWithin(p: ByNonce, all: All)
    ensures Standing(p, all).Keys <= p.Keys && forall n :: n in Standing(p, all) ==> Standing(p, all)[n] == p[n]
  {
  }

  lemma LowAgain(p: ByNonce, v: nat, all': All, all'': All)
    requires Shrunk(all', all'')
    ensures L.Low(L.Low(v, Dead(p, all')), Dead(Standing(p, all'), all'')) == L.Low(v, Dead(p, all''))
  {
    DeadAgain(p, all', all'');
    hide Standing;
    if Dead(p, all'') != {} && Dead(p, all') != {} {
      assert Min(Dead(p, all')) in Dead(p, all'');
    }
  }

  lemma BeatsAgain(v: View, v': View, v'': View)
    requires BeatsKept(v.beats, v.pending, v'.beats, v'.pending) && BeatsKept(v'.beats, v'.pending, v''.beats, v''.pending)
    requires forall a: Address :: At(v.pending, a) == map[] ==> At(v'.pending, a) == map[]
    requires forall a: Address :: At(v'.pending, a) == map[] ==> At(v''.pending, a) == map[]
    ensures BeatsKept(v.beats, v.pending, v''.beats, v''.pending)
  {
  }

  lemma WithdrawnTrans(v: View, v': View, v'': View)
    requires v.Shape() && Withdrawn(v, v') && Withdrawn(v', v'')
    ensures Withdrawn(v, v'')
  {
    hide Standing, Fallen, Dead, BeatsKept;
    forall a: Address
      ensures WithdrawnIn(v, v'', a)
      ensures At(v.pending, a) == map[] ==> At(v'.pending, a) == map[]
      ensures At(v'.pending, a) == map[] ==> At(v''.pending, a) == map[]
    {
      assert Ok(v.all, v.pending, v.queue, a) && WithdrawnIn(v, v', a) && WithdrawnIn(v', v'', a);
      WithdrawnAgain(At(v.pending, a), At(v.queue, a), v.Virtual(a), At(v'.pending, a), At(v'.queue, a), v'.Virtual(a), v'.all,
                     At(v''.pending, a), At(v''.queue, a), v''.Virtual(a), v''.all);
      StandingWithin(At(v.pending, a), v'.all);
      StandingWithin(At(v'.pending, a), v''.all);
    }
    BeatsAgain(v, v', v'');
  }

  /** One transaction leaves the queue. */
  lemma QueuedWithdraws(all: All, a: Address, p: ByNonce, q: ByNonce, v: nat, tx: Tx)
    requires AccountOk(all, a, p, q) && Has(q, tx)
    ensures WithdrawnAt(p, q, v, p, q - {tx.nonce}, v, all - {tx.Hash()})
  {
    var all' := all - {tx.Hash()};
    forall n | n in p ensures Live(p[n], all') {
      assert Has(p, p[n]);
    }
    forall n | n in q ensures Live(q[n], all') <==> n != tx.nonce {
      assert Has(q, q[n]);
    }
    assert Dead(p, all') == {};
  }

  /** One transaction leaves pending; what lies above it is queued. */
  lemma PendingWithdraws(all: All, a: Address, p: ByNonce, q: ByNonce, v: nat, p': ByNonce, q': ByNonce, tx: Tx)
    requires AccountOk(all, a, p, q) && Has(p, tx) && Parts(p, q, p', q', tx.nonce)
    ensures WithdrawnAt(p, q, v, p', q', if v > tx.nonce then tx.nonce else v, all - {tx.Hash()})
  {
    var all' := all - {tx.Hash()};
    forall n | n in p ensures Live(p[n], all') <==> n != tx.nonce {
      assert Has(p, p[n]);
    }
    forall n | n in q ensures Live(q[n], all') {
      assert Has(q, q[n]);
    }
    assert Dead(p, all') == {tx.nonce} && Min({tx.nonce}) == tx.nonce;
    assert p' == Standing(p, all');
    hide Standing, Fallen, Dead, Live, AccountOk;
    var f := Fallen(p, q, all');
    forall n: nat ensures (n in q' <==> n in f) && (n in q' ==> q'[n] == f[n]) {
      FallenAt(p, q, all', n);
    }
  }

  /** Accounts other than that of the transaction that left are as they were. */
  lemma OthersWithdraw(v: View, v': View, a: Address)
    requires v.Shape() && SameElsewhere(v.all, v'.all, a) && v'.head == v.head
    requires v'.pending - {a} == v.pending - {a} && v'.queue - {a} == v.queue - {a} && v'.virtuals - {a} == v.virtuals - {a}
    ensures forall b: Address :: b != a ==> WithdrawnIn(v, v', b)
  {
    forall b: Address | b != a ensures WithdrawnIn(v, v', b) {
      assert Ok(v.all, v.pending, v.queue, b);
      OkElsewhere(v.all, v.pending, v.queue, v'.all, v'.pending, v'.queue, a, b);
      Elsewhere(v.pending, v'.pending, a, b);
      Elsewhere(v.queue, v'.queue, a, b);
      VirtualElsewhere(v.virtuals, v'.virtuals, v.head, a, b);
      AllStand(v'.all, b, At(v.pending, b), At(v.queue, b));
    }
  }

  /** A pending transaction leaves the pool. */
  lemma PendingRemoved(v: View, v': View, a: Address, tx: Tx)
    requires v.Shape() && v'.Shape() && SameSettings(v, v') && v'.all == v.all - {tx.Hash()} && tx.sender == Some(a) && Has(At(v.pending, a), tx)
    requires v'.pending - {a} == v.pending - {a} && v'.queue - {a} == v.queue - {a} && v'.virtuals - {a} == v.virtuals - {a}
    requires Parts(At(v.pending, a), At(v.queue, a), At(v'.pending, a), At(v'.queue, a), tx.nonce)
    requires v'.Virtual(a) == if v.Virtual(a) > tx.nonce then tx.nonce else v.Virtual(a)
    requires v'.beats == if At(v'.pending, a) == map[] then v.beats - {a} else v.beats
    ensures Withdrawn(v, v')
  {
    assert Ok(v.all, v.pending, v.queue, a);
    assert SameElsewhere(v.all, v'.all, a);
    OthersWithdraw(v, v', a);
    PendingWithdraws(v.all, a, At(v.pending, a), At(v.queue, a), v.Virtual(a), At(v'.pending, a), At(v'.queue, a), tx);
    assert WithdrawnIn(v, v', a);
    hide WithdrawnIn, Parts, Shaped, Ok, AccountOk;
    BeatsRemoved(v, v', a);
  }

  lemma BeatsRemoved(v: View, v': View, a: Address)
    requires v'.pending - {a} == v.pending - {a} && At(v.pending, a) != map[]
    requires v'.beats == if At(v'.pending, a) == map[] then v.beats - {a} else v.beats
    ensures BeatsKept(v.beats, v.pending, v'.beats, v'.pending)
  {
    forall b: Address | b != a ensures At(v'.pending, b) == At(v.pending, b) {
      Elsewhere(v.pending, v'.pending, a, b);
    }
  }

  /** A queued transaction leaves the pool. */
  lemma QueuedRemoved(v: View, v': View, a: Address, tx: Tx)
    requires v.Shape() && v'.Shape() && v' == v.(queue := v'.queue, all := v.all - {tx.Hash()}) && tx.sender == Some(a) && Has(At(v.queue, a), tx)
    requires v'.queue - {a} == v.queue - {a} && At(v'.queue, a) == At(v.queue, a) - {tx.nonce}
    ensures Withdrawn(v, v')
  {
    assert Ok(v.all, v.pending, v.queue, a);
    assert SameElsewhere(v.all, v'.all, a);
    OthersWithdraw(v, v', a);
    QueuedWithdraws(v.all, a, At(v.pending, a), At(v.queue, a), v.Virtual(a), tx);
  }

  lemma WithdrawnBeats(v: View, v': View)
    requires Withdrawn(v, v') && Beating(v.beats, v.pending)
    ensures Beating(v'.beats, v'.pending)
  {
    hide Dead, Standing, Fallen, Shaped;
    forall a: Address ensures a in v'.beats <==> At(v'.pending, a) != map[] {
      assert WithdrawnIn(v, v', a);
      StandingWithin(At(v.pending, a), v'.all);
    }
  }

  // Adding.

  /** A full pool turns a remote transaction away if it is no dearer than the cheapest. */
  ghost predicate TurnedAway(v: View, tx: Tx, local: bool, c: Config) {
    && |v.all| >= Limit(c) && !local && !IsLocal(v.locals, tx) && v.all != map[]
    && forall t :: Live(t, v.all) ==> tx.price <= t.price
  }

  /** A pool that is not full stays as it is. A full one gives up a cheapest remote
      transaction, or every remote one if there are more local ones than it may hold. */
  ghost predicate RoomFor(v: View, room: View, c: Config) {
    if |v.all| < Limit(c) then room == v
    else
      && Withdrawn(v, room) && RoomMade(v.all, room.all, v.locals)
      && |room.all| + 1 >= Limit(c) && (|room.all| < Limit(c) || NoRemote(room.all, v.locals))
  }

  ghost predicate PlacedIn(room: View, tx: Tx, local: bool, r: AddResult, v': View)
    requires tx.sender.Some?
  {
    && v' == room.(pending := v'.pending, queue := v'.queue, locals := v'.locals, all := v'.all) && v'.Shape()
    && Placed(room.pending, room.queue, room.locals, v'.pending, v'.queue, v'.locals, tx, local, r)
    && (r.Rejected? ==> v' == room)
  }

  /** add: what becomes of a transaction and of the pool. */
  ghost predicate AddedTo(v: View, tx: Tx, local: bool, r: AddResult, room: View, v': View, c: Config) {
    if Live(tx, v.all) then r == Rejected(KnownTransaction) && v' == v
    else if v.Objection(tx, local).Some? then r == Rejected(v.Objection(tx, local).value) && v' == v
    else if TurnedAway(v, tx, local, c) then r == Rejected(UnderpricedTx) && v' == v
    else
      RoomFor(v, room, c) && r == Placement(room.pending, room.queue, tx, c.priceBump) && PlacedIn(room, tx, local, r, v')
  }

  /** Nothing but the transaction itself enters. */
  lemma PlacedLive(room: View, tx: Tx, local: bool, r: AddResult, v': View)
    requires tx.sender.Some? && room.Shape() && PlacedIn(room, tx, local, r, v')
    ensures forall t :: Live(t, v'.all) ==> t == tx || Live(t, room.all)
  {
    var a := tx.sender.value;
    forall t | Live(t, v'.all) && t != tx ensures Live(t, room.all) {
      var b := t.sender.value;
      assert Ok(v'.all, v'.pending, v'.queue, b) && Ok(room.all, room.pending, room.queue, b);
      if b != a {
        Elsewhere(room.pending, v'.pending, a, b);
        Elsewhere(room.queue, v'.queue, a, b);
      }
    }
  }

  lemma AddedLive(v: View, tx: Tx, local: bool, r: AddResult, room: View, v': View, c: Config)
    requires v.Shape() && AddedTo(v, tx, local, r, room, v', c)
    ensures forall t :: Live(t, v'.all) ==> t == tx || Live(t, v.all)
    ensures v'.Shape() && v' == v.(virtuals := v'.virtuals, locals := v'.locals, pending := v'.pending, queue := v'.queue, beats := v'.beats, all := v'.all)
    ensures v.locals <= v'.locals && (local || v'.locals == v.locals)
    ensures r.Accepted? ==> tx.sender.Some? && v.Objection(tx, local).None? && !Live(tx, v.all)
  {
    hide Shaped, Placement, FirstObjection;
    if v' != v {
      RoomShape(v, room, c);
      PlacedLive(room, tx, local, r, v');
    }
  }

  lemma RoomShape(v: View, room: View, c: Config)
    requires v.Shape() && RoomFor(v, room, c)
    ensures room.Shape() && SameSettings(v, room) && Shrunk(v.all, room.all)
  {
  }

  lemma AddedFits(v: View, tx: Tx, local: bool, r: AddResult, room: View, v': View, c: Config)
    requires v.Shape() && AddedTo(v, tx, local, r, room, v', c) && AllFit(v.all, v.head)
    ensures v'.head == v.head && AllFit(v'.all, v'.head)
  {
    hide Shaped, Placement;
    AddedLive(v, tx, local, r, room, v', c);
    if v' != v {
      assert Fits(v.head, tx) by { AdmissibleFits(v, tx, local); }
    }
  }

  lemma AdmissibleFits(v: View, tx: Tx, local: bool)
    requires v.Objection(tx, local).None?
    ensures Fits(v.head, tx) && tx.sender.Some? && v.head.Nonce(tx.sender.value) <= tx.nonce
  {
  }

  /** What Discard hands out leaves room as it should. */
  lemma DiscardMakesRoom(before: seq<Tx>, after: seq<Tx>, drop: seq<Tx>, gone: multiset<Tx>, all: All, locals: set<Address>, count: int)
    requires Covers(before, all) && Parted(before, after, drop, gone, all) && count >= 1
    requires forall tx :: tx in drop ==> Live(tx, all) && !IsLocal(locals, tx)
    requires forall d :: d in drop ==> NoneCheaper(after, locals, d)
    requires |drop| <= Max0(count) && (|drop| < count ==> forall tx :: tx in after ==> IsLocal(locals, tx))
    ensures var rest := all - Hashes(drop);
            && RoomMade(all, rest, locals) && |all| - count <= |rest| <= |all| && (|rest| < |all| || NoRemote(rest, locals))
  {
    var rest := all - Hashes(drop);
    SlackAfterDrop(before, after, drop, gone, all, 0);
    L.FewerHashes(all, drop);
    forall t | t in drop ensures CheapestIn(rest, locals, t) {
      assert NoneCheaper(after, locals, t);
    }
    if |drop| == count {
      assert drop[0] in drop && drop[0].Hash() in Hashes(drop);
    }
  }

  /** Where remote transactions are no more than one, taking any leaves none. */
  lemma RoomEnough(all: All, all': All, locals: set<Address>)
    requires RoomMade(all, all', locals) && HashKeyed(all) && |all'| < |all|
    ensures Sparse(all, locals) ==> NoRemote(all', locals)
  {
    if Sparse(all, locals) && !NoRemote(all', locals) {
      var u :| Live(u, all') && !IsLocal(locals, u);
      forall h | h in all ensures h in all' {
        assert Live(h.preimage, all);
      }
      L.SubsetSize(all.Keys, all'.Keys);
      assert false;
    }
  }

  lemma RoomKeeps(v: View, room: View, c: Config)
    requires RoomFor(v, room, c) && v.Shape() && PaysFloor(v.all, v.locals, v.gasPrice) && Beating(v.beats, v.pending)
    ensures Beating(room.beats, room.pending)
    ensures room.locals == v.locals && room.gasPrice == v.gasPrice && room.head == v.head && room.Shape()
    ensures PaysFloor(room.all, room.locals, room.gasPrice) && (|room.all| < Limit(c) || NoRemote(room.all, room.locals))
  {
    if |v.all| >= Limit(c) {
      WithdrawnBeats(v, room);
    }
  }

  lemma PlacedBeats(room: View, tx: Tx, local: bool, r: AddResult, v': View)
    requires tx.sender.Some? && PlacedIn(room, tx, local, r, v') && Beating(room.beats, room.pending)
    ensures Beating(v'.beats, v'.pending)
  {
    hide Shaped;
    var a := tx.sender.value;
    forall b: Address ensures b in v'.beats <==> At(v'.pending, b) != map[] {
      if b != a {
        Elsewhere(room.pending, v'.pending, a, b);
      } else {
        assert tx.nonce in At(room.pending, a)[tx.nonce := tx];
      }
    }
  }

  /** The pool with one transaction more, or one in place of another, keeps floor and limit. */
  lemma PlacedBounded(all: All, all': All, locals: set<Address>, locals': set<Address>, gasPrice: int, tx: Tx, c: Config)
    requires PaysFloor(all, locals, gasPrice) && (|all| < Limit(c) || NoRemote(all, locals)) && locals <= locals'
    requires forall t :: Live(t, all') ==> t == tx || Live(t, all)
    requires |all'| <= |all| + 1
    requires IsLocal(locals', tx) || gasPrice <= tx.price || !Live(tx, all')
    ensures PaysFloor(all', locals', gasPrice) && Bounded(all', locals', c)
  {
  }

  /** The transactions of the pool that claim the nonce of `tx`. */
  ghost predicate Rivals(u: Tx, all: All, tx: Tx) {
    Live(u, all) && u.sender == tx.sender && u.nonce == tx.nonce
  }

  /** What add does, in prices, nonces and numbers of transactions. A transaction is known, or
      objectionable, or turned away by a full pool, or refused because it does not pay enough
      more than the one at its nonce; otherwise it takes the place of that one. */
  lemma AddedInFields(v: View, tx: Tx, local: bool, r: AddResult, room: View, v': View, c: Config)
    requires v.Shape() && AddedTo(v, tx, local, r, room, v', c)
    ensures r == Rejected(KnownTransaction) <==> tx.Hash() in v.all
    ensures tx.Hash() !in v.all && v.Objection(tx, local).Some? ==> r == Rejected(v.Objection(tx, local).value) && v' == v
    ensures tx.Hash() !in v.all && v.Objection(tx, local).None? ==>
              var full := |v.all| >= c.globalSlots + c.globalQueue;
              && tx.sender.Some?
              && (r == Rejected(UnderpricedTx) <==>
                    full && v.all != map[] && !local && tx.sender.value !in v.locals && forall t: Tx :: t.Hash() in v.all ==> tx.price <= t.price)
              && (r == Rejected(UnderpricedTx) ==> v' == v)
              && (r != Rejected(UnderpricedTx) ==>
                    && (!full ==> room == v)
                    && (r.Accepted? <==> forall u :: Rivals(u, room.all, tx) ==> tx.price > u.price && 100 * tx.price > u.price * (100 + c.priceBump) - 100)
                    && (r == Accepted(true) ==> exists u :: Rivals(u, room.all, tx)) && (r == Accepted(false) ==> forall u :: !Rivals(u, room.all, tx))
                    && (r.Rejected? ==> r == Rejected(ReplaceUnderpriced) && v' == room)
                    && (r.Accepted? ==> forall t: Tx :: Live(t, v'.all) <==> t == tx || (Live(t, room.all) && !Rivals(t, room.all, tx))))
  {
    if tx.Hash() !in v.all && v.Objection(tx, local).None? && !TurnedAway(v, tx, local, c) {
      AdmissibleFits(v, tx, local);
      RoomShape(v, room, c);
      PlacedInFields(room, tx, local, r, v', c);
    }
  }

  /** What making room does: nothing while the pool is not full; otherwise only transactions of
      remote accounts leave, each no dearer than any remote one that stays and, if as dear, not
      of a lower nonce; one if the pool was at its limit, and all of them if local ones overfill it. */
  lemma RoomInFields(v: View, room: View, c: Config)
    requires v.Shape() && RoomFor(v, room, c)
    ensures |v.all| < c.globalSlots + c.globalQueue ==> room == v
    ensures |v.all| >= c.globalSlots + c.globalQueue ==>
              && (forall t: Tx :: t.Hash() in room.all ==> t.Hash() in v.all)
              && (forall t: Tx, y: Tx :: t.Hash() in v.all && t.Hash() !in room.all && y.Hash() in room.all && y.sender.Some? && y.sender.value !in v.locals ==>
                    t.price < y.price || (t.price == y.price && t.nonce >= y.nonce))
              && (forall t: Tx :: t.Hash() in v.all && t.Hash() !in room.all && t.sender.Some? ==> t.sender.value !in v.locals)
              && |room.all| + 1 >= c.globalSlots + c.globalQueue
              && (|room.all| < c.globalSlots + c.globalQueue || forall t: Tx :: t.Hash() in room.all ==> t.sender.Some? && t.sender.value in v.locals)
  {
    hide Withdrawn;
    forall t: Tx, y: Tx | t.Hash() in v.all && t.Hash() !in room.all && y.Hash() in room.all && y.sender.Some? && y.sender.value !in v.locals && |v.all| >= Limit(c)
      ensures t.price < y.price || (t.price == y.price && t.nonce >= y.nonce)
    {
      assert Live(t, v.all) && !Live(t, room.all) && Live(y, room.all);
      assert CheapestIn(room.all, v.locals, t);
    }
    forall t: Tx | t.Hash() in v.all && t.Hash() !in room.all && t.sender.Some? && |v.all| >= Limit(c) ensures t.sender.value !in v.locals {
      assert Live(t, v.all) && !Live(t, room.all);
    }
    forall t: Tx | t.Hash() in room.all && |v.all| >= Limit(c) ensures t.Hash() in v.all && (|room.all| < Limit(c) || (t.sender.Some? && t.sender.value in v.locals)) {
      assert Live(t, room.all);
    }
  }

  lemma PlacedInFields(room: View, tx: Tx, local: bool, r: AddResult, v': View, c: Config)
    requires room.Shape() && tx.sender.Some? && !Live(tx, room.all)
    requires r == Placement(room.pending, room.queue, tx, c.priceBump) && PlacedIn(room, tx, local, r, v')
    ensures r.Accepted? <==> forall u :: Rivals(u, room.all, tx) ==> tx.price > u.price && 100 * tx.price > u.price * (100 + c.priceBump) - 100
    ensures r == Accepted(true) ==> exists u :: Rivals(u, room.all, tx)
    ensures r == Accepted(false) ==> forall u :: !Rivals(u, room.all, tx)
    ensures r.Accepted? ==> forall t :: Live(t, v'.all) <==> t == tx || (Live(t, room.all) && !Rivals(t, room.all, tx))
  {
    var a := tx.sender.value;
    var p, q := At(room.pending, a), At(room.queue, a);
    assert Ok(room.all, room.pending, room.queue, a);
    forall u | Rivals(u, room.all, tx) ensures Outbids(u, tx, c.priceBump) <==> tx.price > u.price && 100 * tx.price > u.price * (100 + c.priceBump) - 100 {
      OutbidsInPrices(u, tx, c.priceBump);
    }
    hide Outbids;
    assert tx.nonce in p ==> Has(p, p[tx.nonce]) && Rivals(p[tx.nonce], room.all, tx);
    assert tx.nonce in q ==> Has(q, q[tx.nonce]) && Rivals(q[tx.nonce], room.all, tx);
    if r.Accepted? {
      forall t ensures Live(t, v'.all) <==> t == tx || (Live(t, room.all) && !Rivals(t, room.all, tx)) {
        PlacedKeeps(room, tx, local, r, v', t);
      }
    }
  }

  lemma PlacedKeeps(room: View, tx: Tx, local: bool, r: AddResult, v': View, t: Tx)
    requires room.Shape() && tx.sender.Some? && r.Accepted? && PlacedIn(room, tx, local, r, v')
    ensures Live(t, v'.all) <==> t == tx || (Live(t, room.all) && !Rivals(t, room.all, tx))
  {
    hide AccountOk;
    var a := tx.sender.value;
    if t.sender == Some(a) {
      assert Ok(v'.all, v'.pending, v'.queue, a) && Ok(room.all, room.pending, room.queue, a);
      OwnAgree(v'.all, v'.pending, v'.queue, a, t);
      OwnAgree(room.all, room.pending, room.queue, a, t);
      PlacedAtNonce(At(room.pending, a), At(room.queue, a), At(v'.pending, a), At(v'.queue, a), tx, t);
    } else if t.sender.Some? {
      var b := t.sender.value;
      OwnAgree(v'.all, v'.pending, v'.queue, b, t);
      OwnAgree(room.all, room.pending, room.queue, b, t);
      Elsewhere(room.pending, v'.pending, a, b);
      Elsewhere(room.queue, v'.queue, a, b);
    }
  }

  lemma OwnAgree(all: All, pending: AccountMap, queue: AccountMap, a: Address, t: Tx)
    requires Shaped(all, pending, queue) && t.sender == Some(a)
    ensures Live(t, all) <==> Has(At(pending, a), t) || Has(At(queue, a), t)
    ensures At(pending, a).Keys !! At(queue, a).Keys
  {
    assert Ok(all, pending, queue, a);
  }

  lemma PlacedAtNonce(p: ByNonce, q: ByNonce, p': ByNonce, q': ByNonce, tx: Tx, t: Tx)
    requires p.Keys !! q.Keys
    requires if tx.nonce in p then p' == p[tx.nonce := tx] && q' == q else p' == p && q' == q[tx.nonce := tx]
    ensures Has(p', t) || Has(q', t) <==> t == tx || ((Has(p, t) || Has(q, t)) && t.nonce != tx.nonce)
  {
  }

  lemma AddedNot(v: View, tx: Tx, local: bool, c: Config)
    ensures Live(tx, v.all) ==> AddedTo(v, tx, local, Rejected(KnownTransaction), v, v, c)
    ensures !Live(tx, v.all) && v.Objection(tx, local).Some? ==> AddedTo(v, tx, local, Rejected(v.Objection(tx, local).value), v, v, c)
    ensures !Live(tx, v.all) && v.Objection(tx, local).None? && TurnedAway(v, tx, local, c) ==> AddedTo(v, tx, local, Rejected(UnderpricedTx), v, v, c)
  {
    hide FirstObjection, TurnedAway;
  }

  lemma AddedPlaced(v: View, tx: Tx, local: bool, r: AddResult, room: View, v': View, c: Config)
    requires !Live(tx, v.all) && v.Objection(tx, local).None? && !TurnedAway(v, tx, local, c) && RoomFor(v, room, c)
    requires tx.sender.Some? && r == Placement(room.pending, room.queue, tx, c.priceBump) && PlacedIn(room, tx, local, r, v')
    ensures AddedTo(v, tx, local, r, room, v', c)
  {
    hide FirstObjection, TurnedAway, RoomFor, Placement, PlacedIn;
  }

  // Promotion and the limits.

  /** A heartbeat is noted for every account that gains a pending transaction. */
  ghost predicate BeatsNoted(beats: map<Address, int>, pending: AccountMap, beats': map<Address, int>, pending': AccountMap, now: int) {
    forall a: Address ::
      if At(pending', a) != At(pending, a) then a in beats' && beats'[a] == now
      else (a in beats' <==> a in beats) && (a in beats ==> beats'[a] == beats[a])
  }

  /** Every account given is promoted and no other is touched. */
  ghost predicate PromotedTo(v: View, accounts: set<Address>, now: int, v': View, c: Config) {
    && SameSettings(v, v') && v'.Shape() && Shrunk(v.all, v'.all) && BeatsNoted(v.beats, v.pending, v'.beats, v'.pending, now)
    && (forall b: Address :: b in accounts ==>
          PromotedAt(v.pending, v.queue, v.virtuals, v'.pending, v'.queue, v'.virtuals, v.head, v.locals, c.accountQueue, b))
    && (forall b: Address :: b !in accounts ==> Untouched(v.pending, v.queue, v.virtuals, v'.pending, v'.queue, v'.virtuals, v.head, b))
  }

  /** One account is promoted. */
  ghost predicate PromotedOne(v: View, a: Address, now: int, v': View, c: Config) {
    && SameSettings(v, v') && v'.Shape() && Shrunk(v.all, v'.all)
    && v'.pending - {a} == v.pending - {a} && v'.queue - {a} == v.queue - {a} && v'.virtuals - {a} == v.virtuals - {a}
    && PromotedAt(v.pending, v.queue, v.virtuals, v'.pending, v'.queue, v'.virtuals, v.head, v.locals, c.accountQueue, a)
    && v'.beats == if At(v'.pending, a) == At(v.pending, a) then v.beats else v.beats[a := now]
  }

  lemma NothingPromotedTo(v: View, now: int, c: Config)
    requires v.Shape()
    ensures PromotedTo(v, {}, now, v, c)
  {
  }

  lemma PromotedNext(v: View, s: set<Address>, now: int, v': View, a: Address, v'': View, c: Config)
    requires PromotedTo(v, s, now, v', c) && a !in s && PromotedOne(v', a, now, v'', c)
    ensures PromotedTo(v, s + {a}, now, v'', c)
  {
    hide PromotedAt, Untouched, Shaped;
    assert Shrunk(v.all, v''.all);
    forall b: Address
      ensures b in s + {a} ==> PromotedAt(v.pending, v.queue, v.virtuals, v''.pending, v''.queue, v''.virtuals, v.head, v.locals, c.accountQueue, b)
      ensures b !in s + {a} ==> Untouched(v.pending, v.queue, v.virtuals, v''.pending, v''.queue, v''.virtuals, v.head, b)
    {
      if b != a {
        UntouchedElsewhere(v'.pending, v'.queue, v'.virtuals, v''.pending, v''.queue, v''.virtuals, v.head, a, b);
      }
      PromotedSame(v.pending, v.queue, v.virtuals, v'.pending, v'.queue, v'.virtuals, v''.pending, v''.queue, v''.virtuals,
                   v.head, v.locals, c.accountQueue, b);
    }
    BeatsNext(v, s, now, v', a, v'', c);
  }

  lemma BeatsNext(v: View, s: set<Address>, now: int, v': View, a: Address, v'': View, c: Config)
    requires PromotedTo(v, s, now, v', c) && a !in s && PromotedOne(v', a, now, v'', c)
    ensures BeatsNoted(v.beats, v.pending, v''.beats, v''.pending, now)
  {
    hide PromotedAt, Shaped;
    assert At(v'.pending, a) == At(v.pending, a) by {
      assert Untouched(v.pending, v.queue, v.virtuals, v'.pending, v'.queue, v'.virtuals, v.head, a);
    }
    forall b: Address | b != a ensures At(v''.pending, b) == At(v'.pending, b) {
      Elsewhere(v'.pending, v''.pending, a, b);
    }
  }

  /** Pending cut fairly to the common length `m`, the queues of remote accounts cut latest
      heartbeat first, both to their lowest nonces and neither more than the limits ask for. */
  ghost predicate TruncatedTo(v: View, m: nat, v': View, c: Config) {
    && SameSettings(v, v') && v'.Shape() && Shrunk(v.all, v'.all) && v'.beats == v.beats
    && L.Trimmed(v.pending, v.virtuals, v'.pending, v'.virtuals, v.head)
    && L.Leveled(v.pending, v'.pending, v.locals, c.accountSlots, c.globalSlots, m)
    && L.KeepsLowest(v.queue, v'.queue) && L.Relieved(v.queue, v'.queue, v.locals, v.beats, c.globalQueue)
  }

  /** Both truncations, one after the other. */
  lemma TruncatedBoth(v: View, m: nat, v': View, v'': View, c: Config)
    requires v'.Shape() && v''.Shape() && Shrunk(v.all, v'.all) && Shrunk(v'.all, v''.all)
    requires v' == v.(virtuals := v'.virtuals, pending := v'.pending, all := v'.all) && v'' == v'.(queue := v''.queue, all := v''.all)
    requires L.Trimmed(v.pending, v.virtuals, v'.pending, v'.virtuals, v.head)
    requires L.Leveled(v.pending, v'.pending, v.locals, c.accountSlots, c.globalSlots, m)
    requires L.KeepsLowest(v.queue, v''.queue) && L.Relieved(v.queue, v''.queue, v.locals, v.beats, c.globalQueue)
    ensures TruncatedTo(v, m, v'', c)
  {
    hide L.Trimmed, L.Leveled, L.KeepsLowest, L.Relieved, Shaped;
  }

  /** Truncation leaves no choice: pending lists and virtual nonces are determined by the state
      before, and so are the queues unless two remote accounts have the same heartbeat. */
  lemma TruncatedOnce(v: View, m: nat, v': View, m2: nat, v2: View, c: Config, a: Address)
    requires TruncatedTo(v, m, v', c) && TruncatedTo(v, m2, v2, c)
    ensures At(v'.pending, a) == At(v2.pending, a) && v'.Virtual(a) == v2.Virtual(a)
    ensures L.Ordered(v.queue, v.locals, v.beats) ==> At(v'.queue, a) == At(v2.queue, a)
  {
    hide Shaped, L.Leveled, L.Relieved, L.Ordered;
    L.LeveledOnce(v.pending, v'.pending, v2.pending, v.locals, c.accountSlots, c.globalSlots, m, m2, a);
    assert L.TrimmedAt(At(v.pending, a), v.Virtual(a), At(v'.pending, a), v'.Virtual(a));
    assert L.TrimmedAt(At(v.pending, a), v.Virtual(a), At(v2.pending, a), v2.Virtual(a));
    if L.Ordered(v.queue, v.locals, v.beats) {
      L.RelievedOnce(v.queue, v'.queue, v2.queue, v.locals, v.beats, c.globalQueue, a);
      assert L.CutTo(At(v.queue, a), At(v'.queue, a)) && L.CutTo(At(v.queue, a), At(v2.queue, a));
    }
  }

  /** Promotion and truncation only take transactions out. */
  lemma CutsKeep(v: View, accounts: set<Address>, now: int, mid: View, m: nat, v': View, c: Config)
    requires PromotedTo(v, accounts, now, mid, c) && TruncatedTo(mid, m, v', c)
    ensures SameSettings(v, v') && v'.Shape() && Shrunk(v.all, v'.all)
    ensures PaysFloor(v.all, v.locals, v.gasPrice) ==> PaysFloor(v'.all, v.locals, v.gasPrice)
    ensures AllFit(v.all, v.head) ==> AllFit(v'.all, v.head)
    ensures Bounded(v.all, v.locals, c) ==> Bounded(v'.all, v.locals, c)
    ensures Beating(v.beats, v.pending) && c.accountSlots >= 1 ==> Beating(v'.beats, v'.pending)
  {
    if Beating(v.beats, v.pending) && c.accountSlots >= 1 {
      PromotedBeats(v, accounts, now, mid, c);
      TruncatedBeats(mid, m, v', c);
    }
    hide PromotedAt, Untouched, Shaped, BeatsNoted, L.Trimmed, L.Fair, L.Total, L.KeepsLowest, L.NewestFirst, Beating;
    assert Shrunk(v.all, v'.all);
    ShrunkKeeps(v.all, v'.all, v.locals, v.head, v.gasPrice, c);
  }

  lemma PromotedBeats(v: View, accounts: set<Address>, now: int, v': View, c: Config)
    requires PromotedTo(v, accounts, now, v', c) && Beating(v.beats, v.pending)
    ensures Beating(v'.beats, v'.pending)
  {
    hide Shaped, Allowed, Usable, ReadyRun;
    forall a: Address ensures a in v'.beats <==> At(v'.pending, a) != map[] {
      if a in accounts {
        assert PromotedAt(v.pending, v.queue, v.virtuals, v'.pending, v'.queue, v'.virtuals, v.head, v.locals, c.accountQueue, a);
        assert At(v.pending, a).Keys <= At(v'.pending, a).Keys;
      } else {
        assert Untouched(v.pending, v.queue, v.virtuals, v'.pending, v'.queue, v'.virtuals, v.head, a);
      }
    }
  }

  lemma TruncatedBeats(v: View, m: nat, v': View, c: Config)
    requires TruncatedTo(v, m, v', c) && Beating(v.beats, v.pending) && c.accountSlots >= 1
    ensures Beating(v'.beats, v'.pending)
  {
    hide Shaped, L.Trimmed, L.Total, L.KeepsLowest, L.NewestFirst;
    forall a: Address ensures a in v'.beats <==> At(v'.pending, a) != map[] {
      assert v'.pending == v.pending || L.FairAt(v.pending, v'.pending, v.locals, m, a);
    }
  }

  // A batch of transactions.

  /** The stages of addTxsLocked: one view before and after each transaction, the answers,
      the view after promotion, and the last one. */
  datatype Batch = Batch(views: seq<View>, rooms: seq<View>, answers: seq<AddResult>, mid: View, m: nat, last: View)

  /** The senders of the transactions that were new to their nonce. */
  function Dirty(txs: seq<Tx>, answers: seq<AddResult>): set<Address>
    requires |answers| == |txs|
  {
    set i | 0 <= i < |txs| && answers[i] == Accepted(false) && txs[i].sender.Some? :: txs[i].sender.value
  }

  ghost predicate Chained(txs: seq<Tx>, local: bool, views: seq<View>, rooms: seq<View>, answers: seq<AddResult>, c: Config) {
    && |views| == |txs| + 1 && |rooms| == |answers| == |txs|
    && forall i :: 0 <= i < |txs| ==> AddedTo(views[i], txs[i], local, answers[i], rooms[i], views[i + 1], c)
  }

  lemma NoneAdded(local: bool, v: View, c: Config)
    ensures Chained([], local, [v], [], [], c) && Dirty([], []) == {}
  {
  }

  lemma DirtyNext(txs: seq<Tx>, answers: seq<AddResult>, tx: Tx, r: AddResult)
    requires |answers| == |txs|
    ensures Dirty(txs + [tx], answers + [r]) == Dirty(txs, answers) + if r == Accepted(false) && tx.sender.Some? then {tx.sender.value} else {}
  {
    var txs', answers' := txs + [tx], answers + [r];
    assert forall i :: 0 <= i < |txs| ==> txs'[i] == txs[i] && answers'[i] == answers[i];
    assert txs'[|txs|] == tx && answers'[|txs|] == r;
  }

  lemma ChainedNext(txs: seq<Tx>, local: bool, views: seq<View>, rooms: seq<View>, answers: seq<AddResult>,
                    tx: Tx, r: AddResult, room: View, v': View, c: Config)
    requires Chained(txs, local, views, rooms, answers, c) && AddedTo(views[|txs|], tx, local, r, room, v', c)
    ensures Chained(txs + [tx], local, views + [v'], rooms + [room], answers + [r], c)
    ensures Dirty(txs + [tx], answers + [r])
            == Dirty(txs, answers) + if r == Accepted(false) && tx.sender.Some? then {tx.sender.value} else {}
  {
    hide AddedTo;
    DirtyNext(txs, answers, tx, r);
  }

  lemma SenderKnown(v: View, tx: Tx, local: bool, r: AddResult, room: View, v': View, c: Config)
    requires AddedTo(v, tx, local, r, room, v', c)
    ensures r.Accepted? ==> tx.sender.Some?
  {
  }

  /** addTxsLocked, and addTx for a batch of one. */
  ghost predicate BatchStep(v: View, txs: seq<Tx>, local: bool, now: int, b: Batch, c: Config) {
    && Chained(txs, local, b.views, b.rooms, b.answers, c) && b.views[0] == v
    && var end, dirty := b.views[|txs|], Dirty(txs, b.answers);
       if dirty == {} then b.mid == b.last == end
       else PromotedTo(end, dirty, now, b.mid, c) && TruncatedTo(b.mid, b.m, b.last, c)
  }

  lemma BatchOfOne(v: View, tx: Tx, local: bool, now: int, b: Batch, c: Config)
    requires |b.views| == 2 && |b.rooms| == 1 && |b.answers| == 1 && b.views[0] == v
    requires AddedTo(v, tx, local, b.answers[0], b.rooms[0], b.views[1], c)
    requires if b.answers[0] != Accepted(false) then b.mid == b.last == b.views[1]
             else tx.sender.Some? && PromotedTo(b.views[1], {tx.sender.value}, now, b.mid, c) && TruncatedTo(b.mid, b.m, b.last, c)
    ensures BatchStep(v, [tx], local, now, b, c)
  {
    hide AddedTo, PromotedTo, TruncatedTo;
    assert Dirty([tx], b.answers) == if b.answers[0] == Accepted(false) && tx.sender.Some? then {tx.sender.value} else {} by {
      var txs := [tx];
      assert txs[0] == tx;
    }
  }

  /** Every view of a batch has the right shape, and only given transactions enter. */
  lemma {:induction false} ChainedLive(txs: seq<Tx>, local: bool, views: seq<View>, rooms: seq<View>, answers: seq<AddResult>, c: Config, i: nat)
    requires Chained(txs, local, views, rooms, answers, c) && views[0].Shape() && i <= |txs|
    ensures views[i].Shape() && views[i].head == views[0].head && views[0].locals <= views[i].locals && (local || views[i].locals == views[0].locals)
    ensures views[i].gasPrice == views[0].gasPrice && views[i].homestead == views[0].homestead
    ensures forall t :: Live(t, views[i].all) ==> Live(t, views[0].all) || t in txs[..i]
    ensures AllFit(views[0].all, views[0].head) ==> AllFit(views[i].all, views[0].head)
  {
    hide AddedTo, Shaped, AllFit;
    if i > 0 {
      ChainedLive(txs, local, views, rooms, answers, c, i - 1);
      assert AddedTo(views[i - 1], txs[i - 1], local, answers[i - 1], rooms[i - 1], views[i - 1 + 1], c);
      AddedLive(views[i - 1], txs[i - 1], local, answers[i - 1], rooms[i - 1], views[i], c);
      if AllFit(views[0].all, views[0].head) {
        AddedFits(views[i - 1], txs[i - 1], local, answers[i - 1], rooms[i - 1], views[i], c);
      }
      assert txs[..i] == txs[..i - 1] + [txs[i - 1]];
    }
  }

  lemma BatchFits(v: View, txs: seq<Tx>, local: bool, now: int, b: Batch, c: Config)
    requires v.Shape() && BatchStep(v, txs, local, now, b, c)
    ensures b.last.Shape() && b.last.head == v.head && v.locals <= b.last.locals && (local || b.last.locals == v.locals)
    ensures b.last.gasPrice == v.gasPrice && b.last.homestead == v.homestead
    ensures forall t :: Live(t, b.last.all) ==> Live(t, v.all) || t in txs
    ensures AllFit(v.all, v.head) ==> AllFit(b.last.all, b.last.head)
  {
    hide AddedTo, PromotedTo, TruncatedTo, AllFit, Shaped;
    ChainedLive(txs, local, b.views, b.rooms, b.answers, c, |txs|);
    assert txs[..|txs|] == txs;
    if Dirty(txs, b.answers) != {} {
      CutsKeep(b.views[|txs|], Dirty(txs, b.answers), now, b.mid, b.m, b.last, c);
    }
  }

  // A new chain head.

  /** Every account keeps the funded run at its state nonce; what else is usable is queued. */
  ghost predicate DemotedTo(v: View, v': View) {
    && SameSettings(v, v') && v'.virtuals == v.virtuals && v'.Shape() && Shrunk(v.all, v'.all)
    && BeatsKept(v.beats, v.pending, v'.beats, v'.pending)
    && forall b: Address :: DemotedAt(v.pending, v.queue, v'.pending, v'.queue, v.head, b)
  }

  /** The accounts in `s` are demoted and no other is touched. */
  ghost predicate PartlyDemoted(v: View, s: set<Address>, v': View) {
    && SameSettings(v, v') && v'.virtuals == v.virtuals && v'.Shape() && Shrunk(v.all, v'.all)
    && BeatsKept(v.beats, v.pending, v'.beats, v'.pending)
    && (forall b: Address :: b in s ==> DemotedAt(v.pending, v.queue, v'.pending, v'.queue, v.head, b))
    && (forall b: Address :: b !in s ==> At(v'.pending, b) == At(v.pending, b) && At(v'.queue, b) == At(v.queue, b))
    && (forall b: Address :: b !in s ==> (b in v'.pending <==> b in v.pending))
  }

  ghost predicate DemotedOne(v: View, a: Address, v': View) {
    && SameSettings(v, v') && v'.virtuals == v.virtuals && v'.Shape() && Shrunk(v.all, v'.all) && At(v.pending, a) != map[]
    && v'.pending - {a} == v.pending - {a} && v'.queue - {a} == v.queue - {a}
    && DemotedAt(v.pending, v.queue, v'.pending, v'.queue, v.head, a)
    && v'.beats == if At(v'.pending, a) == map[] then v.beats - {a} else v.beats
  }

  lemma NoneDemoted(v: View)
    requires v.Shape()
    ensures PartlyDemoted(v, {}, v)
  {
  }

  lemma DemotedNext(v: View, s: set<Address>, v': View, a: Address, v'': View)
    requires PartlyDemoted(v, s, v') && a !in s && DemotedOne(v', a, v'')
    ensures PartlyDemoted(v, s + {a}, v'')
  {
    hide DemotedAt, Shaped, BeatsKept;
    assert Shrunk(v.all, v''.all);
    forall b: Address
      ensures b in s + {a} ==> DemotedAt(v.pending, v.queue, v''.pending, v''.queue, v.head, b)
      ensures b !in s + {a} ==> At(v''.pending, b) == At(v.pending, b) && At(v''.queue, b) == At(v.queue, b)
      ensures b !in s + {a} ==> (b in v''.pending <==> b in v.pending)
    {
      if b == a {
        DemotedSame(v'.pending, v'.queue, v''.pending, v''.queue, v.pending, v.queue, v''.pending, v''.queue, v.head, b);
      } else {
        Elsewhere(v'.pending, v''.pending, a, b);
        Elsewhere(v'.queue, v''.queue, a, b);
        if b in s {
          DemotedSame(v.pending, v.queue, v'.pending, v'.queue, v.pending, v.queue, v''.pending, v''.queue, v.head, b);
        }
      }
    }
    BeatsRemoved(v', v'', a);
    forall b: Address
      ensures At(v.pending, b) == map[] ==> At(v'.pending, b) == map[]
      ensures At(v'.pending, b) == map[] ==> At(v''.pending, b) == map[]
    {
      if b in s {
        StaysWithin(v.pending, v.queue, v'.pending, v'.queue, v.head, b);
      }
      if b != a {
        Elsewhere(v'.pending, v''.pending, a, b);
      }
    }
    BeatsAgain(v, v', v'');
  }

  lemma StaysWithin(pending: AccountMap, queue: AccountMap, pending': AccountMap, queue': AccountMap, head: Head, a: Address)
    requires DemotedAt(pending, queue, pending', queue', head, a)
    ensures At(pending', a).Keys <= At(pending, a).Keys
  {
  }

  lemma AllDemoted(v: View, v': View)
    requires PartlyDemoted(v, v.pending.Keys, v')
    ensures DemotedTo(v, v')
  {
    hide DemotedAt, Shaped, BeatsKept;
    forall b: Address ensures DemotedAt(v.pending, v.queue, v'.pending, v'.queue, v.head, b) {
      if b !in v.pending {
        NothingDemoted(v.pending, v.queue, v.head, b);
        DemotedSame(v.pending, v.queue, v.pending, v.queue, v.pending, v.queue, v'.pending, v'.queue, v.head, b);
      }
    }
  }

  /** The virtual nonces lie behind the last pending transactions. */
  ghost predicate RealignedTo(v: View, v': View) {
    v' == v.(virtuals := v'.virtuals) && forall a: Address :: v'.Virtual(a) == Next(At(v.pending, a), v.Virtual(a))
  }

  lemma StillPending(v: View, s: set<Address>, v': View, a: Address)
    requires PartlyDemoted(v, s, v') && a !in s && a in v.pending
    ensures a in v'.pending && At(v'.pending, a) != map[]
  {
    assert Ok(v'.all, v'.pending, v'.queue, a);
  }

  lemma DemotedKeeps(v: View, v': View, c: Config)
    requires DemotedTo(v, v')
    ensures SameSettings(v, v') && Shrunk(v.all, v'.all)
    ensures PaysFloor(v.all, v.locals, v.gasPrice) ==> PaysFloor(v'.all, v.locals, v.gasPrice)
    ensures Bounded(v.all, v.locals, c) ==> Bounded(v'.all, v.locals, c)
    ensures Beating(v.beats, v.pending) ==> Beating(v'.beats, v'.pending)
  {
    forall a: Address ensures At(v'.pending, a).Keys <= At(v.pending, a).Keys {
      StaysWithin(v.pending, v.queue, v'.pending, v'.queue, v.head, a);
    }
    hide DemotedAt, Shaped;
    ShrunkKeeps(v.all, v'.all, v.locals, v.head, v.gasPrice, c);
  }

  lemma RealignedBy(v: View, v': View)
    requires v' == v.(virtuals := v'.virtuals)
    requires forall a: Address :: VirtualOf(v'.virtuals, v.head, a) == Next(At(v.pending, a), VirtualOf(v.virtuals, v.head, a))
    ensures RealignedTo(v, v')
  {
  }

  /** After demotion and a promotion of every queue the whole pool fits the state. */
  lemma ResetFits(v: View, demoted: View, realigned: View, now: int, mid: View, m: nat, v': View, c: Config)
    requires DemotedTo(v, demoted) && RealignedTo(demoted, realigned)
    requires PromotedTo(realigned, realigned.queue.Keys, now, mid, c) && TruncatedTo(mid, m, v', c)
    ensures AllFit(v'.all, v'.head)
  {
    hide Shaped, BeatsNoted, BeatsKept, L.Trimmed, L.Fair, L.Total, L.KeepsLowest, L.NewestFirst, Fits, FitMap;
    forall a: Address ensures FitMap(At(mid.pending, a), mid.head, a) && FitMap(At(mid.queue, a), mid.head, a) {
      ResetFitsAt(v, demoted, realigned, now, mid, c, a);
    }
    AllListsFit(mid.all, mid.pending, mid.queue, mid.head);
    assert AllFit(mid.all, mid.head);
    ShrunkKeeps(mid.all, v'.all, mid.locals, mid.head, mid.gasPrice, c);
  }

  lemma ResetFitsAt(v: View, demoted: View, realigned: View, now: int, mid: View, c: Config, a: Address)
    requires DemotedTo(v, demoted) && RealignedTo(demoted, realigned)
    requires PromotedTo(realigned, realigned.queue.Keys, now, mid, c)
    ensures FitMap(At(mid.pending, a), mid.head, a) && FitMap(At(mid.queue, a), mid.head, a)
  {
    hide Shaped, BeatsNoted, BeatsKept, PromotedAt, Staying, Returning;
    assert DemotedAt(v.pending, v.queue, demoted.pending, demoted.queue, v.head, a);
    StayingFits(At(v.pending, a), v.head, a);
    if a in realigned.queue {
      PromotedKeeps(realigned.pending, realigned.queue, realigned.virtuals, mid.pending, mid.queue, mid.virtuals,
                    realigned.head, realigned.locals, c.accountQueue, a);
    } else {
      assert Untouched(realigned.pending, realigned.queue, realigned.virtuals, mid.pending, mid.queue, mid.virtuals, realigned.head, a);
    }
  }

  /** The stages of reset. */
  datatype Moves = Moves(batch: Batch, demoted: View, realigned: View, mid: View, m: nat, last: View)

  ghost predicate ResetStep(v: View, head: Head, reinject: seq<Tx>, now: int, s: Moves, c: Config) {
    && BatchStep(v.(head := head, virtuals := map[]), reinject, false, now, s.batch, c)
    && DemotedTo(s.batch.last, s.demoted) && RealignedTo(s.demoted, s.realigned)
    && PromotedTo(s.realigned, s.realigned.queue.Keys, now, s.mid, c) && TruncatedTo(s.mid, s.m, s.last, c)
  }

  // The other steps.

  /** Exactly the remote transactions below the new price leave. */
  ghost predicate Repriced(v: View, price: int, v': View) {
    && Withdrawn(v.(gasPrice := price), v')
    && Floored(v.all, v'.all, v.locals, price)
  }

  /** The remote accounts whose last heartbeat, if there ever was one, lies further back than
      the lifetime. */
  predicate Stale(v: View, a: Address, now: int, c: Config) {
    a !in v.locals && (a !in v.beats || now - v.beats[a] > c.lifetime)
  }

  /** Exactly the queues of stale accounts go. */
  ghost predicate Evicted(v: View, now: int, v': View, c: Config) {
    && v' == v.(queue := v'.queue, all := v'.all) && v'.Shape()
    && forall a: Address :: At(v'.queue, a) == if Stale(v, a, now, c) then map[] else At(v.queue, a)
  }

  /** The steps that change a pool, each taken under its lock. */
  datatype Step =
    | AddOne(tx: Tx, local: bool)
    | AddMany(txs: seq<Tx>, local: bool)
    | ChangePrice(price: int)
    | EvictionTick
    | NewHead(head: Head, reinject: seq<Tx>, isHomestead: bool)

  /** The transactions that a step gives to the pool. */
  function Given(step: Step): seq<Tx> {
    match step
    case AddOne(tx, _) => [tx]
    case AddMany(txs, _) => txs
    case NewHead(_, reinject, _) => reinject
    case _ => []
  }

  /** What one step of the pool does. */
  ghost predicate Stepped(v: View, step: Step, now: int, v': View, c: Config) {
    match step
    case AddOne(tx, local) => exists b: Batch :: BatchStep(v, [tx], local, now, b, c) && b.last == v'
    case AddMany(txs, local) => exists b: Batch :: BatchStep(v, txs, local, now, b, c) && b.last == v'
    case ChangePrice(price) => Repriced(v, price, v')
    case EvictionTick => Evicted(v, now, v', c)
    case NewHead(head, reinject, isHomestead) =>
      exists s: Moves :: ResetStep(v.(homestead := v.homestead || isHomestead), head, reinject, now, s, c) && s.last == v'
  }
}
