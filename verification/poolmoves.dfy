/** The value-level moves of the pool: how each step changes the two account maps, the
    hash map and the virtual nonces, and what every such move keeps. */
module PoolMoves {
  import opened Nonces
  import opened Transactions
  import opened Wrappers
  import opened SortedMap
  import opened AccountLists
  import opened PricedLists
  import opened PoolState
  import opened PoolSync

  datatype Config = Config(priceLimit: nat, priceBump: nat, accountSlots: nat, globalSlots: nat,
                           accountQueue: nat, globalQueue: nat, lifetime: int)

  const DEFAULT_PRICE_LIMIT: nat := 1
  const DEFAULT_PRICE_BUMP: nat := 10

  /** Raises a price limit or price bump of zero to its default and changes nothing else. */
  function Sanitized(c: Config): (r: Config)
    ensures r.priceLimit >= 1 && r.priceBump >= 1 && r.(priceLimit := c.priceLimit, priceBump := c.priceBump) == c
    ensures r.priceLimit == c.priceLimit || (c.priceLimit < 1 && r.priceLimit == 1)
    ensures r.priceBump == c.priceBump || (c.priceBump < 1 && r.priceBump == 10)
  {
    c.(priceLimit := if c.priceLimit < 1 then DEFAULT_PRICE_LIMIT else c.priceLimit,
       priceBump := if c.priceBump < 1 then DEFAULT_PRICE_BUMP else c.priceBump)
  }

  /** The account state and the gas limit at the chain head. */
  datatype Head = Head(nonces: map<Address, nat>, balances: map<Address, int>, gasLimit: nat)
  {
    function Nonce(a: Address): nat {
      if a in nonces then nonces[a] else 0
    }

    function Balance(a: Address): int {
      if a in balances then balances[a] else 0
    }
  }

  datatype TxError = KnownTransaction | OversizedData | NegativeValue | GasLimitExceeded | InvalidSender
                   | UnderpricedTx | NonceTooLow | InsufficientFunds | IntrinsicGasOverflow | IntrinsicGasTooLow | ReplaceUnderpriced

  /** `replaced` tells whether a transaction at the same nonce made way. */
  datatype AddResult = Accepted(replaced: bool) | Rejected(err: TxError)

  const MAX_TX_SIZE: nat := 32 * 1024

  function ListOr(ls: AccountMap, a: Address, strict: bool): (l: AccountList)
    ensures a in ls ==> l == ls[a]
    ensures l.txs == At(ls, a)
  {
    if a in ls then ls[a] else AccountLists.Empty(strict)
  }

  /** Stores a list, or removes the account's entry if the list became empty. */
  function Stored(ls: AccountMap, a: Address, l: AccountList): (r: AccountMap)
    ensures r - {a} == ls - {a} && At(r, a) == l.txs
    ensures a in r ==> r[a] == l && l.txs != map[]
  {
    if l.txs == map[] then ls - {a} else ls[a := l]
  }

  /** What the invariant says of one account with pending transactions. */
  lemma Unpacked(all: All, pending: AccountMap, queue: AccountMap, a: Address)
    requires Shaped(all, pending, queue) && a in pending
    ensures HashKeyed(all) && Sound(pending[a]) && pending[a].strict && (a in queue ==> ListOk(queue[a], false))
    ensures AccountOk(all, a, At(queue, a), pending[a].txs) && At(pending, a) == pending[a].txs
  {
    hide AccountOk, Sound;
    assert Ok(all, pending, queue, a);
    Symmetric(all, a, pending[a].txs, At(queue, a));
  }

  lemma Repacked(all: All, pending: AccountMap, queue: AccountMap, a: Address, list: AccountList)
    requires Sound(list) && list.strict && (a in queue ==> ListOk(queue[a], false)) && AccountOk(all, a, At(queue, a), list.txs)
    requires At(pending, a) == list.txs && (a in pending ==> pending[a] == list && list.txs != map[])
    ensures Ok(all, pending, queue, a)
  {
    hide AccountOk, Sound;
    Symmetric(all, a, At(queue, a), list.txs);
  }

  /** The managed state's nonce: the one set by the pool, or else the state's. */
  function VirtualOf(virtuals: map<Address, nat>, head: Head, a: Address): nat {
    if a in virtuals then virtuals[a] else head.Nonce(a)
  }

  ghost predicate SyncedIn(pending: AccountMap, queue: AccountMap, virtuals: map<Address, nat>, head: Head, a: Address) {
    Synced(At(pending, a), At(queue, a), head.Nonce(a), VirtualOf(virtuals, head, a))
  }

  ghost predicate LooseIn(pending: AccountMap, queue: AccountMap, virtuals: map<Address, nat>, head: Head, a: Address) {
    Loose(At(pending, a), At(queue, a), head.Nonce(a), VirtualOf(virtuals, head, a))
  }

  lemma VirtualElsewhere(virtuals: map<Address, nat>, virtuals': map<Address, nat>, head: Head, a: Address, b: Address)
    requires virtuals' - {a} == virtuals - {a} && b != a
    ensures VirtualOf(virtuals', head, b) == VirtualOf(virtuals, head, b)
  {
    assert b in virtuals' <==> b in virtuals' - {a};
    assert b in virtuals <==> b in virtuals - {a};
    assert b in virtuals ==> (virtuals' - {a})[b] == (virtuals - {a})[b];
  }

  /** The pending side loses nonce `n` and everything above it; the latter is queued. */
  ghost predicate Parts(p: ByNonce, q: ByNonce, p': ByNonce, q': ByNonce, n: nat) {
    && (forall k :: k in p' <==> k in p && k < n) && (forall k :: k in p' ==> p'[k] == p[k])
    && (forall k :: k in q' <==> k in q || (k in p && k > n))
    && (forall k :: k in q' ==> q'[k] == if k in p then p[k] else q[k])
  }

  lemma StrandedParts(l: AccountList, q: ByNonce, n: nat)
    requires l.strict && n in l.txs && l.txs.Keys !! q.Keys
    ensures var left := Stranded(l, {n});
            Parts(l.txs, q, l.txs - ({n} + left), q + Restrict(l.txs, left), n)
  {
    assert Nonces.Min({n}) == n;
  }

  /** No remote pooled transaction is cheaper than `t`, or as cheap with a higher nonce. */
  ghost predicate CheapestIn(all: All, locals: set<Address>, t: Tx) {
    forall y :: Live(y, all) && !IsLocal(locals, y) ==> t.price < y.price || (t.price == y.price && t.nonce >= y.nonce)
  }

  lemma PendingIsLive(all: All, pending: AccountMap, queue: AccountMap, a: Address, n: nat)
    requires Shaped(all, pending, queue) && n in At(pending, a)
    ensures Live(pending[a].txs[n], all) && pending[a].txs[n].sender == Some(a) && pending[a].txs[n].nonce == n
  {
    assert Ok(all, pending, queue, a);
    assert Has(pending[a].txs, pending[a].txs[n]);
  }

  lemma QueuedIsLive(all: All, pending: AccountMap, queue: AccountMap, a: Address, n: nat)
    requires Shaped(all, pending, queue)
    ensures n in At(queue, a) ==>
              Live(queue[a].txs[n], all) && queue[a].txs[n].sender == Some(a) && queue[a].txs[n].nonce == n
  {
    assert Ok(all, pending, queue, a);
    assert n in At(queue, a) ==> Has(queue[a].txs, queue[a].txs[n]);
  }

  lemma ReplacementKeepsShape(all: All, pending: AccountMap, queue: AccountMap, a: Address, tx: Tx)
    requires Shaped(all, pending, queue) && tx.sender == Some(a) && !Live(tx, all) && tx.nonce in At(pending, a)
    ensures Shaped((all - {pending[a].txs[tx.nonce].Hash()})[tx.Hash() := tx],
                   pending[a := AccountLists.Added(pending[a], tx)], queue)
  {
    PendingIsLive(all, pending, queue, a, tx.nonce);
    assert Ok(all, pending, queue, a);
    var p, q := pending[a].txs, At(queue, a);
    var all', pending' := (all - {p[tx.nonce].Hash()})[tx.Hash() := tx], pending[a := AccountLists.Added(pending[a], tx)];
    Symmetric(all, a, p, q);
    ReplaceOk(all, a, q, p, tx);
    Symmetric(all', a, q, pending'[a].txs);
    ShapeUpdate(all, pending, queue, all', pending', queue, a);
  }

  /** What queueing `tx` does to `all`, given the account's queue. */
  function Queued(all: All, q: ByNonce, tx: Tx): All {
    if tx.nonce in q then (all - {q[tx.nonce].Hash()})[tx.Hash() := tx] else all[tx.Hash() := tx]
  }

  lemma QueueingKeepsShape(all: All, pending: AccountMap, queue: AccountMap, a: Address, tx: Tx)
    requires Shaped(all, pending, queue) && tx.sender == Some(a) && !Live(tx, all) && tx.nonce !in At(pending, a)
    ensures Shaped(Queued(all, At(queue, a), tx), pending, queue[a := AccountLists.Added(ListOr(queue, a, false), tx)])
  {
    assert Ok(all, pending, queue, a);
    var p, q := At(pending, a), At(queue, a);
    if tx.nonce in q {
      assert Has(q, q[tx.nonce]);
      ReplaceOk(all, a, p, q, tx);
    } else {
      InsertOk(all, a, p, q, tx);
    }
    var queue' := queue[a := AccountLists.Added(ListOr(queue, a, false), tx)];
    ShapeUpdate(all, pending, queue, Queued(all, q, tx), pending, queue', a);
  }

  /** What becomes of a transaction that there is room for: it takes the place of one at its
      nonce, pending or queued, if it outbids it, or else a free place. */
  function Placement(pending: AccountMap, queue: AccountMap, tx: Tx, bump: nat): (r: AddResult)
    requires tx.sender.Some?
    ensures r.Accepted? || r == Rejected(ReplaceUnderpriced)
  {
    var p, q := At(pending, tx.sender.value), At(queue, tx.sender.value);
    if tx.nonce in p then (if Outbids(p[tx.nonce], tx, bump) then Accepted(true) else Rejected(ReplaceUnderpriced))
    else if tx.nonce in q then (if Outbids(q[tx.nonce], tx, bump) then Accepted(true) else Rejected(ReplaceUnderpriced))
    else Accepted(false)
  }

  lemma PlacementIs(pending: AccountMap, queue: AccountMap, tx: Tx, bump: nat)
    requires tx.sender.Some?
    ensures var a := tx.sender.value;
            && (a in pending && tx.nonce in pending[a].txs ==>
                  Placement(pending, queue, tx, bump) == if Accepts(pending[a], tx, bump) then Accepted(true) else Rejected(ReplaceUnderpriced))
            && (tx.nonce !in At(pending, a) ==>
                  Placement(pending, queue, tx, bump)
                  == if Accepts(ListOr(queue, a, false), tx, bump) then Accepted(tx.nonce in ListOr(queue, a, false).txs) else Rejected(ReplaceUnderpriced))
  {
  }

  /** Pending, queue and local accounts after that: a pending transaction is replaced where it
      is; otherwise the queue holds the transaction, and only then a local sender is noted. */
  ghost predicate Placed(pending: AccountMap, queue: AccountMap, locals: set<Address>,
                         pending': AccountMap, queue': AccountMap, locals': set<Address>, tx: Tx, local: bool, r: AddResult)
    requires tx.sender.Some?
  {
    var a := tx.sender.value;
    && pending' - {a} == pending - {a} && queue' - {a} == queue - {a}
    && if r.Rejected? then At(pending', a) == At(pending, a) && At(queue', a) == At(queue, a) && locals' == locals
       else if tx.nonce in At(pending, a) then
         At(pending', a) == At(pending, a)[tx.nonce := tx] && At(queue', a) == At(queue, a) && locals' == locals
       else
         && At(pending', a) == At(pending, a) && At(queue', a) == At(queue, a)[tx.nonce := tx]
         && locals' == if local then locals + {a} else locals
  }

  lemma ReplacedInPlace(pending: AccountMap, queue: AccountMap, locals: set<Address>, tx: Tx, local: bool, e: TxError)
    requires tx.sender.Some?
    ensures Placed(pending, queue, locals, pending, queue, locals, tx, local, Rejected(e))
    ensures var a := tx.sender.value;
            a in pending && tx.nonce in pending[a].txs ==>
              Placed(pending, queue, locals, pending[a := AccountLists.Added(pending[a], tx)], queue, locals, tx, local, Accepted(true))
  {
  }

  lemma QueuedInPlace(pending: AccountMap, queue: AccountMap, locals: set<Address>, tx: Tx, local: bool, replaced: bool)
    requires tx.sender.Some? && tx.nonce !in At(pending, tx.sender.value)
    ensures var a := tx.sender.value;
            Placed(pending, queue, locals, pending, queue[a := AccountLists.Added(ListOr(queue, a, false), tx)],
                   if local then locals + {a} else locals, tx, local, Accepted(replaced))
  {
  }

  /** Making room took only remote transactions that are no dearer than any left, and of
      equally dear ones those with the higher nonces. */
  ghost predicate RoomMade(before: All, after: All, locals: set<Address>) {
    && (forall t :: Live(t, after) ==> Live(t, before))
    && forall t :: Live(t, before) && !Live(t, after) ==> !IsLocal(locals, t) && CheapestIn(after, locals, t)
  }

  function NoncesOf(txs: seq<Tx>): (s: set<nat>)
    ensures forall tx :: tx in txs ==> tx.nonce in s
  {
    set tx | tx in txs :: tx.nonce
  }

  /** Adding listed transactions one by one adds the whole map. */
  lemma ListedStep(q: ByNonce, m: ByNonce, txs: seq<Tx>, i: nat)
    requires Lists(txs, m) && i < |txs| && q.Keys !! m.Keys
    ensures txs[i].nonce in m && m[txs[i].nonce] == txs[i] && txs[i].nonce !in q + Restrict(m, NoncesOf(txs[..i]))
    ensures (q + Restrict(m, NoncesOf(txs[..i])))[txs[i].nonce := txs[i]] == q + Restrict(m, NoncesOf(txs[..i + 1]))
  {
    assert txs[..i + 1] == txs[..i] + [txs[i]];
    forall tx | tx in txs[..i] ensures tx.nonce != txs[i].nonce {
      var k :| 0 <= k < i && txs[k] == tx;
    }
    assert NoncesOf(txs[..i + 1]) == NoncesOf(txs[..i]) + {txs[i].nonce};
    RestrictStep(q, m, NoncesOf(txs[..i]), txs[i].nonce);
  }

  lemma RestrictStep(q: ByNonce, m: ByNonce, s: set<nat>, n: nat)
    requires n in m
    ensures (q + Restrict(m, s))[n := m[n]] == q + Restrict(m, s + {n})
  {
  }

  lemma ListedAll(q: ByNonce, m: ByNonce, txs: seq<Tx>)
    requires Lists(txs, m) && Keyed(m)
    ensures q + Restrict(m, NoncesOf(txs)) == q + m
  {
    forall n | n in m ensures n in NoncesOf(txs) {
      assert m[n] in txs;
    }
  }

  lemma NothingGiven(all: All, q: ByNonce)
    ensures all - Hashes([]) == all && q - NoncesOf([]) == q
  {
    assert Hashes([]) == {} && NoncesOf([]) == {};
  }

  lemma HashesPrefix(all: All, txs: seq<Tx>, i: nat)
    requires i < |txs|
    ensures all - Hashes(txs[..i + 1]) == all - Hashes(txs[..i]) - {txs[i].Hash()}
  {
    assert txs[..i + 1] == txs[..i] + [txs[i]];
    assert Hashes(txs[..i + 1]) == Hashes(txs[..i]) + {txs[i].Hash()};
  }

  lemma HashesStep(all: All, txs: seq<Tx>, i: nat)
    requires i < |txs| && Distinct(txs)
    ensures Hashes(txs[..i + 1]) == Hashes(txs[..i]) + {txs[i].Hash()}
    ensures all - Hashes(txs[..i + 1]) == all - Hashes(txs[..i]) - {txs[i].Hash()}
    ensures txs[i] in txs && txs[i].Hash() !in Hashes(txs[..i])
  {
    assert txs[..i + 1] == txs[..i] + [txs[i]];
  }

  lemma ListedLive(all: All, a: Address, p: ByNonce, q: ByNonce, s: set<nat>, txs: seq<Tx>)
    requires AccountOk(all, a, p, q) && s <= q.Keys && Lists(txs, Restrict(q, s))
    ensures Distinct(txs) && forall tx :: tx in txs ==> Live(tx, all)
  {
    forall tx | tx in txs ensures Live(tx, all) {
      var i :| 0 <= i < |txs| && txs[i] == tx;
      assert Has(q, tx);
    }
  }

  /** The virtual nonce after promoting `txs` one after the other. */
  function Behind(v: nat, txs: seq<Tx>): nat {
    if txs == [] then v else txs[|txs| - 1].nonce + 1
  }

  lemma BehindStep(v: nat, txs: seq<Tx>, i: nat)
    requires i < |txs|
    ensures Behind(v, txs[..i + 1]) == txs[i].nonce + 1
  {
  }

  /** A heartbeat of `a` was noted, if there was any. */
  ghost predicate NotedAt(beats: map<Address, int>, a: Address, now: int, any: bool, beats': map<Address, int>) {
    beats' == if any then beats[a := now] else beats
  }

  lemma NotedNever(beats: map<Address, int>, a: Address, now: int)
    ensures NotedAt(beats, a, now, false, beats)
  {
  }

  lemma NotedAgain(beats: map<Address, int>, a: Address, now: int, any: bool, beats': map<Address, int>)
    requires NotedAt(beats, a, now, any, beats')
    ensures NotedAt(beats, a, now, true, beats'[a := now])
  {
  }

  /** Promoting a nonce-ordered run leaves the virtual nonce behind its highest nonce. */
  lemma BehindRun(v: nat, m: ByNonce, s: set<nat>)
    requires s <= m.Keys && Keyed(m)
    ensures Behind(v, InOrder(Restrict(m, s))) == if s == {} then v else Nonces.Max(s) + 1
  {
    RestrictRest(m, s);
    if s != {} {
      LastInOrder(Restrict(m, s));
    }
  }

  lemma LastInOrder(m: ByNonce)
    requires m != map[]
    ensures InOrder(m) != [] && InOrder(m)[|InOrder(m)| - 1] == m[Nonces.Max(m.Keys)]
  {
    ListingLast(m.Keys);
  }

  /** The ready run moved from queued `q` to pending `p`, and the virtual nonce with it. */
  ghost predicate Promoted(p: ByNonce, q: ByNonce, v: nat, p': ByNonce, q': ByNonce, v': nat) {
    var run := ReadyRun(q, v);
    p' == p + Restrict(q, run) && q' == q - run && v' == if run == {} then v else Nonces.Max(run) + 1
  }

  /** The ready run in nonce order is pooled, and moving it to pending keeps agreement. */
  lemma ReadyMoves(all: All, a: Address, p: ByNonce, q: ByNonce, run: set<nat>)
    requires AccountOk(all, a, p, q) && run <= q.Keys
    ensures var ready := InOrder(Restrict(q, run));
            && Lists(ready, Restrict(q, run)) && (forall tx :: tx in ready ==> Live(tx, all))
            && Owned(Restrict(q, run), a) && p.Keys !! Restrict(q, run).Keys
            && AccountOk(all, a, p + Restrict(q, run), q - run)
  {
    InOrderLists(Restrict(q, run));
    ListedLive(all, a, p, q, run, InOrder(Restrict(q, run)));
    Symmetric(all, a, p, q);
    MoveOk(all, a, q, p, run);
    Symmetric(all, a, q - run, p + Restrict(q, run));
  }

  lemma ReadyPromoted(p: ByNonce, q: ByNonce, v: nat)
    requires Keyed(q)
    ensures var run := ReadyRun(q, v);
            Promoted(p, q, v, p + Restrict(q, run), q - run, Behind(v, InOrder(Restrict(q, run))))
  {
    hide ReadyRun, InOrder;
    BehindRun(v, q, ReadyRun(q, v));
  }

  /** Pending changes just if there is something to add at nonces it does not have. */
  lemma NewlyReady(p: ByNonce, m: ByNonce)
    requires p.Keys !! m.Keys
    ensures p + m == p <==> m == map[]
    ensures InOrder(m) == [] <==> m == map[]
  {
    if m != map[] {
      var n :| n in m;
      assert n in p + m && n !in p;
    }
  }

  lemma FilterLoose(l: AccountList, cost: int, gas: nat)
    requires Sound(l) && !l.strict
    ensures Filtered(l, cost, gas).txs == l.txs - UnpayableIn(l, cost, gas)
    ensures Sound(Filtered(l, cost, gas)) && !Filtered(l, cost, gas).strict
    ensures forall n :: n in Filtered(l, cost, gas).txs ==> !Unpayable(l.txs[n], cost, gas)
  {
    var s := UnpayableIn(l, cost, gas);
    FilterIsFullScan(l, cost, gas);
    assert s + Stranded(l, s) == s;
  }

  /** What is left of a queue after outdated, unpayable, promoted and excess transactions
      have gone in turn, with the promoted ones moved to pending. */
  lemma PromotedAccountSync(p: ByNonce, q: ByNonce, p': ByNonce, q': ByNonce, kept: ByNonce, left: ByNonce,
                            state: nat, v: nat, v': nat)
    requires Loose(p, q, state, v)
    requires forall n :: n in kept ==> n in q && n >= state
    requires Promoted(p, kept, v, p', left, v') && forall n :: n in q' ==> n in left
    ensures Synced(p', q', state, v')
  {
    assert Below(kept, state) == {};
    PromotionSync(p, kept, state, v);
  }

  lemma LessAndLess(all: All, all': All, all'': All, a: Address)
    requires SameElsewhere(all, all', a) && Shrunk(all, all') && SameElsewhere(all', all'', a) && Shrunk(all', all'')
    ensures SameElsewhere(all, all'', a) && Shrunk(all, all'')
  {
  }

  lemma SameShrunk(all: All, a: Address)
    ensures SameElsewhere(all, all, a) && Shrunk(all, all)
  {
  }

  /** Capping a list one below its length gives up its highest nonce. */
  lemma CapByOne(m: ByNonce)
    requires m != map[]
    ensures m.Keys - Lowest(m.Keys, |m| - 1) == {Nonces.Max(m.Keys)}
  {
    var s := m.Keys;
    assert Lowest(s, |s| - 1) == s - {Nonces.Max(s)};
  }

  lemma CutKeepsShape(all: All, pending: AccountMap, queue: AccountMap, a: Address, n: nat)
    requires Shaped(all, pending, queue) && n in At(pending, a) && |At(pending, a)| >= 2
    ensures var pending' := pending[a := Without(pending[a], {n})];
            Shaped(all - {pending[a].txs[n].Hash()}, pending', queue) && |At(pending', a)| == |At(pending, a)| - 1
  {
    PendingIsLive(all, pending, queue, a, n);
    assert Ok(all, pending, queue, a);
    var p, q := pending[a].txs, At(queue, a);
    var all' := all - {p[n].Hash()};
    Symmetric(all, a, p, q);
    DropOneOk(all, a, q, p, p[n]);
    Symmetric(all', a, q, p - {n});
    assert (p - {n}).Keys == p.Keys - {n};
    assert |p - {n}| == |p| - 1;
    ShapeUpdate(all, pending, queue, all', pending[a := Without(pending[a], {n})], queue, a);
  }

  lemma NoncesStep(q: ByNonce, txs: seq<Tx>, i: nat)
    requires i < |txs| && DistinctNonces(txs)
    ensures txs[i].nonce !in NoncesOf(txs[..i])
    ensures q - NoncesOf(txs[..i + 1]) == q - NoncesOf(txs[..i]) - {txs[i].nonce}
  {
    assert txs[..i + 1] == txs[..i] + [txs[i]];
    forall tx | tx in txs[..i] ensures tx.nonce != txs[i].nonce {
      var k :| 0 <= k < i && txs[k] == tx;
    }
    assert NoncesOf(txs[..i + 1]) == NoncesOf(txs[..i]) + {txs[i].nonce};
  }

  /** The last `count` transactions in nonce order, last first. */
  lemma LastTxs(all: All, pending: AccountMap, queue: AccountMap, a: Address, k: nat)
    requires Shaped(all, pending, queue) && k <= |At(queue, a)|
    ensures var txs := Reversed(InOrder(At(queue, a))[k..]);
            && |txs| == |At(queue, a)| - k && DistinctNonces(txs)
            && (forall tx :: tx in txs ==> tx.sender == Some(a) && Has(At(queue, a), tx))
            && |At(queue, a) - NoncesOf(txs)| == k
  {
    assert Ok(all, pending, queue, a);
    var q := At(queue, a);
    var s := InOrder(q);
    InOrderLists(q);
    TailTxs(q, s, k);
  }

  lemma TailDistinct(s: seq<Tx>, k: nat)
    requires DistinctNonces(s) && k <= |s|
    ensures DistinctNonces(Reversed(s[k..]))
  {
    var txs := Reversed(s[k..]);
    forall i, j | 0 <= i < j < |txs| ensures txs[i].nonce != txs[j].nonce {
      assert txs[i] == s[|s| - 1 - i] && txs[j] == s[|s| - 1 - j];
    }
  }

  lemma TailTxs(q: ByNonce, s: seq<Tx>, k: nat)
    requires Lists(s, q) && k <= |s| == |q|
    ensures var txs := Reversed(s[k..]);
            && DistinctNonces(txs) && (forall tx :: tx in txs ==> Has(q, tx)) && |q - NoncesOf(txs)| == k
  {
    hide DistinctNonces;
    var txs := Reversed(s[k..]);
    TailDistinct(s, k);
    NoncesCount(txs);
    assert NoncesOf(txs) <= q.Keys;
    assert (q - NoncesOf(txs)).Keys == q.Keys - NoncesOf(txs);
  }

  lemma {:induction false} NoncesCount(txs: seq<Tx>)
    requires DistinctNonces(txs)
    ensures |NoncesOf(txs)| == |txs|
  {
    if txs != [] {
      var n := |txs| - 1;
      assert DistinctNonces(txs[..n]);
      NoncesCount(txs[..n]);
      NoncesStep(map[], txs, n);
      assert txs[..n + 1] == txs == txs[..n] + [txs[n]];
      assert NoncesOf(txs) == NoncesOf(txs[..n]) + {txs[n].nonce};
    }
  }

  /** All queued transactions of an account, in nonce order. */
  lemma WholeQueue(all: All, pending: AccountMap, queue: AccountMap, a: Address)
    requires Shaped(all, pending, queue)
    ensures var txs := InOrder(At(queue, a));
            && DistinctNonces(txs) && (forall tx :: tx in txs ==> tx.sender == Some(a) && Has(At(queue, a), tx))
            && At(queue, a) - NoncesOf(txs) == map[]
  {
    assert Ok(all, pending, queue, a);
    var q := At(queue, a);
    InOrderLists(q);
    forall n | n in q ensures n in NoncesOf(InOrder(q)) {
      assert q[n] in InOrder(q);
    }
  }

  lemma EmptyIsAbsent(all: All, pending: AccountMap, queue: AccountMap, a: Address)
    requires Shaped(all, pending, queue) && At(queue, a) == map[]
    ensures a !in queue
  {
    assert Ok(all, pending, queue, a);
  }

  /** The state at the head could still execute the transaction at some point. */
  predicate Fits(head: Head, tx: Tx) {
    && tx.sender.Some? && head.Nonce(tx.sender.value) <= tx.nonce
    && tx.value + tx.price * tx.gas <= head.Balance(tx.sender.value) && tx.gas <= head.gasLimit
  }

  /** Fits, for all transactions of one side of account `a`. */
  ghost predicate FitMap(m: ByNonce, head: Head, a: Address) {
    forall n :: n in m ==> head.Nonce(a) <= n && !Unpayable(m[n], head.Balance(a), head.gasLimit)
  }

  lemma PromotedFit(p: ByNonce, q: ByNonce, v: nat, p': ByNonce, q': ByNonce, v': nat, head: Head, a: Address)
    requires Promoted(p, q, v, p', q', v') && FitMap(q, head, a)
    ensures FitMap(q', head, a) && (FitMap(p, head, a) ==> FitMap(p', head, a))
  {
  }

  lemma FitLess(m: ByNonce, m': ByNonce, head: Head, a: Address)
    requires FitMap(m, head, a) && forall n :: n in m' ==> n in m && m'[n] == m[n]
    ensures FitMap(m', head, a)
  {
  }

  /** When every account's lists fit, so does the whole pool. */
  lemma AllListsFit(all: All, pending: AccountMap, queue: AccountMap, head: Head)
    requires Shaped(all, pending, queue)
    requires forall a: Address :: FitMap(At(pending, a), head, a) && FitMap(At(queue, a), head, a)
    ensures forall tx :: Live(tx, all) ==> Fits(head, tx)
  {
    forall tx | Live(tx, all) ensures Fits(head, tx) {
      var a := tx.sender.value;
      assert Ok(all, pending, queue, a);
      assert FitMap(At(pending, a), head, a) && FitMap(At(queue, a), head, a);
    }
  }

  /** Queueing what a strict list strands keeps agreement. */
  lemma DemotionMoves(all: All, a: Address, q: ByNonce, l: AccountList, s: set<nat>)
    requires AccountOk(all, a, q, l.txs - s) && s <= l.txs.Keys && Keyed(l.txs)
    ensures var m := Restrict(l.txs, Stranded(l, s));
            && Owned(m, a) && q.Keys !! m.Keys && AccountOk(all, a, q + m, l.txs - (s + Stranded(l, s)))
            && forall txs :: Lists(txs, m) ==> forall tx :: tx in txs ==> Live(tx, all)
  {
    var left := Stranded(l, s);
    var p, m := l.txs - s, Restrict(l.txs, left);
    assert Restrict(p, left) == m && p - left == l.txs - (s + left);
    Symmetric(all, a, q, p);
    MoveOk(all, a, p, q, left);
    Symmetric(all, a, p - left, q + m);
    forall txs | Lists(txs, m) ensures forall tx :: tx in txs ==> Live(tx, all) {
      ListedLive(all, a, q, p, left, txs);
    }
  }

  lemma WholeListMoves(all: All, a: Address, q: ByNonce, p: ByNonce, txs: seq<Tx>)
    requires AccountOk(all, a, q, p) && Lists(txs, p)
    ensures AccountOk(all, a, q + p, p - p.Keys) && p - p.Keys == map[] && forall tx :: tx in txs ==> Live(tx, all)
    ensures Owned(p, a) && q.Keys !! p.Keys
  {
    assert Restrict(p, p.Keys) == p;
    Symmetric(all, a, q, p);
    MoveOk(all, a, p, q, p.Keys);
    Symmetric(all, a, p - p.Keys, q + p);
    ListedLive(all, a, q, p, p.Keys, txs);
  }

  /** Pending starts at the state nonce, if there is any. */
  ghost predicate Anchored(p: ByNonce, state: nat) {
    p != map[] ==> Min(p.Keys) == state
  }

  lemma DemotedFit(p: ByNonce, head: Head, a: Address)
    requires forall n :: n in p ==> head.Nonce(a) <= n && !Unpayable(p[n], head.Balance(a), head.gasLimit)
    requires p == map[] || head.Nonce(a) in p
    ensures FitMap(p, head, a) && Anchored(p, head.Nonce(a))
  {
    if p != map[] {
      assert IsMin(Min(p.Keys), p.Keys);
    }
  }

  /** The nonce behind the last of the transactions, or `v` if there are none. */
  function Next(p: ByNonce, v: nat): nat {
    if p == map[] then v else Nonces.Max(p.Keys) + 1
  }

  /** The nonces of the transactions that the state at the head could still execute. */
  function Usable(m: ByNonce, head: Head, a: Address): set<nat> {
    set n | n in m && head.Nonce(a) <= n && !Unpayable(m[n], head.Balance(a), head.gasLimit)
  }

  lemma PrunedIsUsable(l: AccountList, head: Head, a: Address)
    requires Sound(l) && !l.strict
    ensures Filtered(Without(l, Below(l.txs, head.Nonce(a))), head.Balance(a), head.gasLimit).txs
            == Restrict(l.txs, Usable(l.txs, head, a))
  {
    FilterLoose(Without(l, Below(l.txs, head.Nonce(a))), head.Balance(a), head.gasLimit);
  }

  lemma UsableFits(m: ByNonce, head: Head, a: Address)
    ensures FitMap(Restrict(m, Usable(m, head, a)), head, a)
  {
  }

  /** An account's queue within its allowance; local accounts have no limit. */
  function Allowed(q: ByNonce, local: bool, limit: nat): ByNonce {
    if local then q else Restrict(q, Lowest(q.Keys, limit))
  }

  lemma AllowedFits(q: ByNonce, local: bool, limit: nat)
    ensures !local ==> |Allowed(q, local, limit)| <= limit
    ensures forall n :: n in Allowed(q, local, limit) ==> n in q && Allowed(q, local, limit)[n] == q[n]
    ensures Allowed(q, local, limit) == if local then q else q - (q.Keys - Lowest(q.Keys, limit))
  {
    hide Lowest;
    RestrictRest(q, Lowest(q.Keys, limit));
    assert Restrict(q, Lowest(q.Keys, limit)).Keys == Lowest(q.Keys, limit);
  }

  lemma NothingPromoted(p: ByNonce, v: nat, head: Head, a: Address, local: bool, limit: nat)
    ensures Restrict(map[], Usable(map[], head, a)) == map[] && Promoted(p, map[], v, p, map[], v)
    ensures Allowed(map[], local, limit) == map[]
  {
    assert p + Restrict(map[], {}) == p;
  }

  lemma RestIs(p: ByNonce, q: ByNonce, v: nat, p': ByNonce, q': ByNonce, v': nat)
    requires Promoted(p, q, v, p', q', v')
    ensures q' == q - ReadyRun(q, v)
  {
  }

  /** What PromoteAccount leaves of a loose account is in sync. */
  lemma PromotedSync(p: ByNonce, q: ByNonce, head: Head, a: Address, v: nat, p': ByNonce, rest: ByNonce, v': nat, local: bool, limit: nat)
    requires Loose(p, q, head.Nonce(a), v) && Promoted(p, Restrict(q, Usable(q, head, a)), v, p', rest, v')
    ensures Synced(p', Allowed(rest, local, limit), head.Nonce(a), v')
  {
    hide Promoted, Loose, Synced, Allowed;
    AllowedFits(rest, local, limit);
    PromotedAccountSync(p, q, p', Allowed(rest, local, limit), Restrict(q, Usable(q, head, a)), rest, head.Nonce(a), v, v');
  }

  /** What PromoteAccount leaves fits the state and the allowance. */
  lemma PromotionFits(p: ByNonce, q: ByNonce, v: nat, p': ByNonce, v': nat, head: Head, a: Address, local: bool, limit: nat)
    requires var usable := Restrict(q, Usable(q, head, a)); Promoted(p, usable, v, p', usable - ReadyRun(usable, v), v')
    ensures var usable := Restrict(q, Usable(q, head, a));
            var rest := Allowed(usable - ReadyRun(usable, v), local, limit);
            && FitMap(rest, head, a) && (FitMap(p, head, a) ==> FitMap(p', head, a)) && (!local ==> |rest| <= limit)
  {
    hide ReadyRun, Promoted, Allowed;
    var usable := Restrict(q, Usable(q, head, a));
    var rest := usable - ReadyRun(usable, v);
    UsableFits(q, head, a);
    PromotedFit(p, usable, v, p', rest, v', head, a);
    AllowedFits(rest, local, limit);
    FitLess(rest, Allowed(rest, local, limit), head, a);
  }

  // Demotion.

  /** The nonces from the state nonce up to the first transaction that is not payable. */
  ghost predicate Funded(p: ByNonce, head: Head, a: Address, k: nat) {
    k in p && head.Nonce(a) <= k && forall u :: u in p && head.Nonce(a) <= u <= k ==> !Unpayable(p[u], head.Balance(a), head.gasLimit)
  }

  /** What stays pending after demotion: the funded transactions, provided that the one at
      the state nonce is among them. */
  ghost function Staying(p: ByNonce, head: Head, a: Address): ByNonce {
    if Funded(p, head, a, head.Nonce(a)) then map k | k in p && Funded(p, head, a, k) :: p[k] else map[]
  }

  /** What goes back to the queue: every other transaction that is still usable. */
  ghost function Returning(p: ByNonce, head: Head, a: Address): ByNonce {
    Restrict(p, Usable(p, head, a)) - Staying(p, head, a).Keys
  }

  /** The three stages of demotion: outdated transactions go, then the unpayable ones with
      what they strand returned, then a list that misses the state nonce is returned. */
  lemma DemotedIs(l: AccountList, head: Head, a: Address)
    requires l.strict && Sound(l)
    ensures var l1 := Without(l, Below(l.txs, head.Nonce(a)));
            var u := UnpayableIn(l1, head.Balance(a), head.gasLimit);
            var left := Stranded(l1, u);
            var p2 := l1.txs - (u + left);
            && Staying(l.txs, head, a) == (if p2 == map[] || head.Nonce(a) in p2 then p2 else map[])
            && Returning(l.txs, head, a) == Restrict(l1.txs, left) + (if p2 == map[] || head.Nonce(a) in p2 then map[] else p2)
  {
    hide Funded;
    var l1 := Without(l, Below(l.txs, head.Nonce(a)));
    var u := UnpayableIn(l1, head.Balance(a), head.gasLimit);
    var left := Stranded(l1, u);
    var p2 := l1.txs - (u + left);
    forall k: nat ensures k in p2 <==> k in l.txs && Funded(l.txs, head, a, k) {
      FundedIs(l, head, a, k);
    }
    StayingIs(l.txs, p2, head, a);
    ReturningIs(l, head, a, p2);
  }

  lemma DemotedLists(l: AccountList, l1: AccountList, q: ByNonce, p2: ByNonce, q2: ByNonce, p3: ByNonce, q3: ByNonce, head: Head, a: Address)
    requires l.strict && Sound(l) && l1 == Without(l, Below(l.txs, head.Nonce(a)))
    requires var u := UnpayableIn(l1, head.Balance(a), head.gasLimit);
             p2 == l1.txs - (u + Stranded(l1, u)) && q2 == q + Restrict(l1.txs, Stranded(l1, u))
    requires if p2 == map[] || head.Nonce(a) in p2 then p3 == p2 && q3 == q2 else p3 == map[] && q3 == q2 + p2
    ensures p3 == Staying(l.txs, head, a) && q3 == q + Returning(l.txs, head, a)
  {
    hide Staying, Returning, Stranded, UnpayableIn, Sound;
    DemotedIs(l, head, a);
    assert forall r: ByNonce :: q + r + p2 == q + (r + p2);
    assert forall r: ByNonce :: r + map[] == r;
  }

  lemma StayingIs(p: ByNonce, p2: ByNonce, head: Head, a: Address)
    requires forall k: nat :: k in p2 <==> k in p && Funded(p, head, a, k)
    requires forall k: nat :: k in p2 ==> p2[k] == p[k]
    ensures Staying(p, head, a) == if p2 == map[] || head.Nonce(a) in p2 then p2 else map[]
  {
    assert Funded(p, head, a, head.Nonce(a)) <==> head.Nonce(a) in p2;
    hide Funded;
    assert p2 == map k | k in p && Funded(p, head, a, k) :: p[k];
  }

  lemma ReturningIs(l: AccountList, head: Head, a: Address, p2: ByNonce)
    requires var l1 := Without(l, Below(l.txs, head.Nonce(a)));
             var u := UnpayableIn(l1, head.Balance(a), head.gasLimit);
             p2 == l1.txs - (u + Stranded(l1, u))
    requires Staying(l.txs, head, a) == if p2 == map[] || head.Nonce(a) in p2 then p2 else map[]
    ensures var l1 := Without(l, Below(l.txs, head.Nonce(a)));
            var left := Stranded(l1, UnpayableIn(l1, head.Balance(a), head.gasLimit));
            Returning(l.txs, head, a) == Restrict(l1.txs, left) + if p2 == map[] || head.Nonce(a) in p2 then map[] else p2
  {
    hide Staying, Stranded;
    var l1 := Without(l, Below(l.txs, head.Nonce(a)));
    var u := UnpayableIn(l1, head.Balance(a), head.gasLimit);
    assert forall k :: k in Usable(l.txs, head, a) <==> k in l1.txs && k !in u;
  }

  lemma FundedIs(l: AccountList, head: Head, a: Address, k: nat)
    requires l.strict
    ensures var l1 := Without(l, Below(l.txs, head.Nonce(a)));
            var u := UnpayableIn(l1, head.Balance(a), head.gasLimit);
            k in l1.txs - (u + Stranded(l1, u)) <==> Funded(l.txs, head, a, k)
  {
    var l1 := Without(l, Below(l.txs, head.Nonce(a)));
    var u := UnpayableIn(l1, head.Balance(a), head.gasLimit);
    if u != {} {
      var m := Min(u);
      assert m in l.txs && head.Nonce(a) <= m && Unpayable(l.txs[m], head.Balance(a), head.gasLimit);
      assert k in Stranded(l1, u) <==> k in l1.txs && k !in u && k > m;
    } else {
      assert Stranded(l1, u) == {};
    }
    if k in l1.txs - (u + Stranded(l1, u)) {
      forall x | x in l.txs && head.Nonce(a) <= x <= k ensures !Unpayable(l.txs[x], head.Balance(a), head.gasLimit) {
        assert x in u <==> Unpayable(l.txs[x], head.Balance(a), head.gasLimit);
      }
    }
  }

  /** Demotion has done to account `a` what it does to each account. */
  ghost predicate DemotedAt(pending: AccountMap, queue: AccountMap, pending': AccountMap, queue': AccountMap, head: Head, a: Address) {
    && At(pending', a) == Staying(At(pending, a), head, a)
    && At(queue', a) == At(queue, a) + Returning(At(pending, a), head, a)
  }

  /** Only the account's own lists matter. */
  lemma DemotedSame(p: AccountMap, q: AccountMap, p': AccountMap, q': AccountMap, r: AccountMap, s: AccountMap, r': AccountMap, s': AccountMap, head: Head, a: Address)
    requires DemotedAt(p, q, p', q', head, a)
    requires At(r, a) == At(p, a) && At(s, a) == At(q, a) && At(r', a) == At(p', a) && At(s', a) == At(q', a)
    ensures DemotedAt(r, s, r', s', head, a)
  {
  }

  lemma NothingDemoted(pending: AccountMap, queue: AccountMap, head: Head, a: Address)
    requires a !in pending
    ensures DemotedAt(pending, queue, pending, queue, head, a)
  {
    assert Staying(map[], head, a) == map[];
    assert Returning(map[], head, a) == map[];
  }

  /** What stays fits the state and starts at the state nonce. */
  lemma StayingFits(p: ByNonce, head: Head, a: Address)
    ensures FitMap(Staying(p, head, a), head, a) && Anchored(Staying(p, head, a), head.Nonce(a))
  {
    DemotedFit(Staying(p, head, a), head, a);
  }

  /** Nothing usable is lost in demotion, and nothing else is kept. */
  lemma DemotionPartitions(p: ByNonce, head: Head, a: Address)
    ensures Staying(p, head, a).Keys !! Returning(p, head, a).Keys
    ensures Staying(p, head, a) + Returning(p, head, a) == Restrict(p, Usable(p, head, a))
  {
  }

  /** No transaction is missing between the state nonce and one that stays pending. */
  ghost predicate NoHole(p: ByNonce, head: Head, a: Address) {
    Funded(p, head, a, head.Nonce(a)) ==>
      forall k: nat, n: nat :: Funded(p, head, a, k) && head.Nonce(a) <= n <= k ==> n in p
  }

  /** Demotion looks for a gap at the state nonce only. What it leaves pending is a run
      without gaps if and only if the list had no hole among its funded transactions. */
  lemma DemotionGapless(p: ByNonce, head: Head, a: Address)
    ensures Run(Staying(p, head, a), head.Nonce(a), head.Nonce(a) + |Staying(p, head, a)|) <==> NoHole(p, head, a)
  {
    var s, st := head.Nonce(a), Staying(p, head, a);
    if Run(st, s, s + |st|) {
      forall k: nat, n: nat | Funded(p, head, a, s) && Funded(p, head, a, k) && s <= n <= k ensures n in p {
        assert k in st && n in st;
      }
    }
    if NoHole(p, head, a) && st != map[] {
      var hi := Nonces.Max(st.Keys);
      assert IsMax(hi, st.Keys) && Funded(p, head, a, hi);
      forall n ensures n in st <==> s <= n < hi + 1 {
        if s <= n <= hi {
          assert n in p && Funded(p, head, a, n);
        }
      }
      RunSize(st, s, hi + 1);
    }
  }

  /** A list that starts at the state nonce and can be paid for passes demotion as it is. */
  lemma AllStay(p: ByNonce, head: Head, a: Address)
    requires head.Nonce(a) in p
    requires forall n :: n in p ==> head.Nonce(a) <= n && !Unpayable(p[n], head.Balance(a), head.gasLimit)
    ensures Staying(p, head, a) == p && forall n: nat :: n in p ==> Funded(p, head, a, n)
  {
  }

  // Promotion, account by account.

  /** Promotion has done to account `a` what it does to each account it is given: the usable
      queued transactions are kept, their ready run has become pending, and the rest is
      within the allowance. */
  ghost predicate PromotedAt(pending: AccountMap, queue: AccountMap, virtuals: map<Address, nat>,
                             pending': AccountMap, queue': AccountMap, virtuals': map<Address, nat>,
                             head: Head, locals: set<Address>, limit: nat, a: Address) {
    var v := VirtualOf(virtuals, head, a);
    var usable := Restrict(At(queue, a), Usable(At(queue, a), head, a));
    var rest := usable - ReadyRun(usable, v);
    && Promoted(At(pending, a), usable, v, At(pending', a), rest, VirtualOf(virtuals', head, a))
    && At(queue', a) == Allowed(rest, a in locals, limit)
  }

  ghost predicate Untouched(pending: AccountMap, queue: AccountMap, virtuals: map<Address, nat>,
                            pending': AccountMap, queue': AccountMap, virtuals': map<Address, nat>, head: Head, a: Address) {
    && At(pending', a) == At(pending, a) && At(queue', a) == At(queue, a)
    && VirtualOf(virtuals', head, a) == VirtualOf(virtuals, head, a)
  }

  lemma UntouchedElsewhere(pending: AccountMap, queue: AccountMap, virtuals: map<Address, nat>,
                           pending': AccountMap, queue': AccountMap, virtuals': map<Address, nat>, head: Head, a: Address, b: Address)
    requires pending' - {a} == pending - {a} && queue' - {a} == queue - {a} && virtuals' - {a} == virtuals - {a} && b != a
    ensures Untouched(pending, queue, virtuals, pending', queue', virtuals', head, b)
  {
    Elsewhere(pending, pending', a, b);
    Elsewhere(queue, queue', a, b);
    assert b in virtuals' <==> b in virtuals' - {a};
    assert b in virtuals <==> b in virtuals - {a};
    assert b in virtuals ==> (virtuals' - {a})[b] == (virtuals - {a})[b];
  }

  /** Only the account's own lists and nonce matter. */
  lemma PromotedSame(p: AccountMap, q: AccountMap, v: map<Address, nat>, p': AccountMap, q': AccountMap, v': map<Address, nat>,
                     p'': AccountMap, q'': AccountMap, v'': map<Address, nat>, head: Head, locals: set<Address>, limit: nat, a: Address)
    ensures Untouched(p, q, v, p', q', v', head, a) && PromotedAt(p', q', v', p'', q'', v'', head, locals, limit, a)
            ==> PromotedAt(p, q, v, p'', q'', v'', head, locals, limit, a)
    ensures PromotedAt(p, q, v, p', q', v', head, locals, limit, a) && Untouched(p', q', v', p'', q'', v'', head, a)
            ==> PromotedAt(p, q, v, p'', q'', v'', head, locals, limit, a)
    ensures Untouched(p, q, v, p', q', v', head, a) && Untouched(p', q', v', p'', q'', v'', head, a)
            ==> Untouched(p, q, v, p'', q'', v'', head, a)
  {
    hide Promoted, Usable, Allowed, ReadyRun, Restrict, VirtualOf;
  }

  /** What promotion means for the account's synchrony, allowance and fit. */
  lemma PromotedKeeps(pending: AccountMap, queue: AccountMap, virtuals: map<Address, nat>,
                      pending': AccountMap, queue': AccountMap, virtuals': map<Address, nat>,
                      head: Head, locals: set<Address>, limit: nat, a: Address)
    requires PromotedAt(pending, queue, virtuals, pending', queue', virtuals', head, locals, limit, a)
    ensures LooseIn(pending, queue, virtuals, head, a) ==> SyncedIn(pending', queue', virtuals', head, a)
    ensures a !in locals ==> |At(queue', a)| <= limit
    ensures FitMap(At(queue', a), head, a) && (FitMap(At(pending, a), head, a) ==> FitMap(At(pending', a), head, a))
  {
    hide Promoted, Usable, Allowed, ReadyRun, FitMap, Synced, Loose;
    var v := VirtualOf(virtuals, head, a);
    var usable := Restrict(At(queue, a), Usable(At(queue, a), head, a));
    PromotionFits(At(pending, a), At(queue, a), v, At(pending', a), VirtualOf(virtuals', head, a), head, a, a in locals, limit);
    if LooseIn(pending, queue, virtuals, head, a) {
      PromotedSync(At(pending, a), At(queue, a), head, a, v, At(pending', a), usable - ReadyRun(usable, v), VirtualOf(virtuals', head, a),
                   a in locals, limit);
    }
  }

  lemma SyncedIsLoose(pending: AccountMap, queue: AccountMap, virtuals: map<Address, nat>, head: Head, a: Address)
    ensures SyncedIn(pending, queue, virtuals, head, a) ==> LooseIn(pending, queue, virtuals, head, a)
  {
  }

}
