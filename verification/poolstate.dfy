/** What the pool's structures must agree on, one account at a time, and the moves that
    keep that agreement. */
module PoolState {
  import opened Transactions
  import opened Wrappers
  import opened AccountLists
  import opened PricedLists

  /** The pending or the queued transactions, by account. */
  type AccountMap = map<Address, AccountList>

  /** The transactions listed for `a`, none if there is no list. */
  function At(ls: AccountMap, a: Address): ByNonce {
    if a in ls then ls[a].txs else map[]
  }

  predicate Has(m: ByNonce, tx: Tx) {
    tx.nonce in m && m[tx.nonce] == tx
  }

  ghost predicate Owned(m: ByNonce, a: Address) {
    forall n :: n in m ==> m[n].nonce == n && m[n].sender == Some(a)
  }

  /** The pool knows exactly the listed transactions of `a`. */
  ghost predicate Agrees(all: All, a: Address, p: ByNonce, q: ByNonce) {
    forall tx: Tx :: tx.sender == Some(a) ==> (Live(tx, all) <==> Has(p, tx) || Has(q, tx))
  }

  /** The pending transactions `p` and queued transactions `q` of account `a` share no
      nonce, and together they are what the pool knows of `a`. */
  ghost predicate AccountOk(all: All, a: Address, p: ByNonce, q: ByNonce) {
    p.Keys !! q.Keys && Owned(p, a) && Owned(q, a) && Agrees(all, a, p, q)
  }

  ghost predicate ListOk(l: AccountList, strict: bool) {
    l.strict == strict && l.txs != map[] && Sound(l)
  }

  ghost predicate Ok(all: All, pending: AccountMap, queue: AccountMap, a: Address) {
    && (a in pending ==> ListOk(pending[a], true))
    && (a in queue ==> ListOk(queue[a], false))
    && AccountOk(all, a, At(pending, a), At(queue, a))
  }

  /** `all` is the disjoint union of the pending and queued transactions; no account has
      a nonce in both; no empty list is stored. */
  ghost predicate Shaped(all: All, pending: AccountMap, queue: AccountMap) {
    && HashKeyed(all) && (forall tx :: Live(tx, all) ==> tx.sender.Some?)
    && forall a :: Ok(all, pending, queue, a)
  }

  /** The two pools know the same transactions of every account but `a`. */
  ghost predicate SameElsewhere(all: All, all': All, a: Address) {
    forall tx: Tx :: tx.sender != Some(a) ==> (Live(tx, all') <==> Live(tx, all))
  }

  /** Nothing entered the pool. */
  ghost predicate Shrunk(all: All, all': All) {
    forall tx :: Live(tx, all') ==> Live(tx, all)
  }

  lemma ShapeUpdate(all: All, pending: AccountMap, queue: AccountMap,
                    all': All, pending': AccountMap, queue': AccountMap, a: Address)
    requires Shaped(all, pending, queue) && HashKeyed(all') && SameElsewhere(all, all', a)
    requires pending' - {a} == pending - {a} && queue' - {a} == queue - {a}
    requires Ok(all', pending', queue', a)
    ensures Shaped(all', pending', queue')
  {
    forall b ensures Ok(all', pending', queue', b) {
      if b != a {
        OkElsewhere(all, pending, queue, all', pending', queue', a, b);
      }
    }
    forall tx | Live(tx, all') ensures tx.sender.Some? {
      if tx.sender != Some(a) {
        assert Live(tx, all);
      }
    }
  }

  lemma Elsewhere(ls: AccountMap, ls': AccountMap, a: Address, b: Address)
    requires ls' - {a} == ls - {a} && b != a
    ensures (b in ls' <==> b in ls) && (b in ls ==> ls'[b] == ls[b]) && At(ls', b) == At(ls, b)
  {
    assert b in ls' <==> b in ls' - {a};
    assert b in ls <==> b in ls - {a};
    assert b in ls ==> (ls' - {a})[b] == (ls - {a})[b];
  }

  lemma OkElsewhere(all: All, pending: AccountMap, queue: AccountMap,
                    all': All, pending': AccountMap, queue': AccountMap, a: Address, b: Address)
    requires Ok(all, pending, queue, b) && SameElsewhere(all, all', a) && b != a
    requires pending' - {a} == pending - {a} && queue' - {a} == queue - {a}
    ensures Ok(all', pending', queue', b)
  {
    Elsewhere(pending, pending', a, b);
    Elsewhere(queue, queue', a, b);
  }

  /** Dropping transactions of one side from the list and from the pool. */
  lemma DropOk(all: All, a: Address, p: ByNonce, q: ByNonce, s: set<nat>, txs: seq<Tx>)
    requires AccountOk(all, a, p, q) && s <= q.Keys && Lists(txs, Restrict(q, s))
    ensures AccountOk(all - Hashes(txs), a, p, q - s) && SameElsewhere(all, all - Hashes(txs), a)
  {
    var all' := all - Hashes(txs);
    forall tx ensures tx in txs <==> Has(Restrict(q, s), tx) {
    }
    forall tx ensures Live(tx, all') <==> Live(tx, all) && tx !in txs {
    }
  }

  /** AccountOk does not distinguish the two sides. */
  lemma Symmetric(all: All, a: Address, p: ByNonce, q: ByNonce)
    requires AccountOk(all, a, p, q)
    ensures AccountOk(all, a, q, p)
  {
  }

  /** Moving transactions from one side to the other. */
  lemma MoveOk(all: All, a: Address, p: ByNonce, q: ByNonce, s: set<nat>)
    requires AccountOk(all, a, p, q) && s <= p.Keys
    ensures AccountOk(all, a, p - s, q + Restrict(p, s))
  {
    var p', q' := p - s, q + Restrict(p, s);
    forall tx ensures Has(p', tx) || Has(q', tx) <==> Has(p, tx) || Has(q, tx) {
    }
  }

  /** A new transaction at a nonce that neither side uses. */
  lemma InsertOk(all: All, a: Address, p: ByNonce, q: ByNonce, tx: Tx)
    requires AccountOk(all, a, p, q) && tx.sender == Some(a) && tx.nonce !in p && tx.nonce !in q
    ensures AccountOk(all[tx.Hash() := tx], a, p, q[tx.nonce := tx])
    ensures SameElsewhere(all, all[tx.Hash() := tx], a)
  {
    var all', q' := all[tx.Hash() := tx], q[tx.nonce := tx];
    forall t ensures Live(t, all') <==> Live(t, all) || t == tx {
    }
    forall t ensures Has(q', t) <==> Has(q, t) || t == tx {
    }
  }

  /** A transaction that replaces another one at its nonce. */
  lemma ReplaceOk(all: All, a: Address, p: ByNonce, q: ByNonce, tx: Tx)
    requires AccountOk(all, a, p, q) && tx.sender == Some(a) && tx.nonce in q && q[tx.nonce] != tx
    ensures var all' := (all - {q[tx.nonce].Hash()})[tx.Hash() := tx];
            AccountOk(all', a, p, q[tx.nonce := tx]) && SameElsewhere(all, all', a)
  {
    var was := q[tx.nonce];
    var all', q' := (all - {was.Hash()})[tx.Hash() := tx], q[tx.nonce := tx];
    forall t ensures Live(t, all') <==> (Live(t, all) && t != was) || t == tx {
    }
    forall t ensures Has(q', t) <==> (Has(q, t) && t != was) || t == tx {
    }
    assert Has(q, was) && !Has(p, was);
  }

  lemma HashesOfOne(all: All, tx: Tx)
    ensures all - Hashes([tx]) == all - {tx.Hash()}
  {
    assert Hashes([tx]) == {tx.Hash()};
  }

  /** Deleting a queued transaction. */
  lemma DropOneOk(all: All, a: Address, p: ByNonce, q: ByNonce, tx: Tx)
    requires AccountOk(all, a, p, q) && Has(q, tx)
    ensures AccountOk(all - {tx.Hash()}, a, p, q - {tx.nonce}) && SameElsewhere(all, all - {tx.Hash()}, a)
  {
    var r := Restrict(q, {tx.nonce});
    assert Lists([tx], r) by {
      assert [tx][0] == tx;
    }
    DropOk(all, a, p, q, {tx.nonce}, [tx]);
    HashesOfOne(all, tx);
  }

  /** Deleting a pending transaction and moving what it strands to the queue. */
  lemma DropPendingOk(all: All, a: Address, p: ByNonce, q: ByNonce, tx: Tx, left: set<nat>)
    requires AccountOk(all, a, p, q) && Has(p, tx) && left <= p.Keys && tx.nonce !in left
    ensures AccountOk(all - {tx.Hash()}, a, p - ({tx.nonce} + left), q + Restrict(p, left))
    ensures SameElsewhere(all, all - {tx.Hash()}, a)
  {
    Symmetric(all, a, p, q);
    DropOneOk(all, a, q, p, tx);
    var all', p' := all - {tx.Hash()}, p - {tx.nonce};
    Symmetric(all', a, q, p');
    MoveOk(all', a, p', q, left);
    assert p' - left == p - ({tx.nonce} + left);
    assert Restrict(p', left) == Restrict(p, left);
  }

  /** Still pooled after the deletion of `tx`: every other listed transaction. */
  lemma OthersLive(all: All, a: Address, p: ByNonce, q: ByNonce, tx: Tx, txs: seq<Tx>, s: set<nat>)
    requires AccountOk(all, a, p, q) && Has(p, tx) && tx.nonce !in s && s <= p.Keys
    requires Lists(txs, Restrict(p, s))
    ensures forall t :: t in txs ==> Live(t, all - {tx.Hash()})
  {
    forall t | t in txs ensures Live(t, all - {tx.Hash()}) {
      var i :| 0 <= i < |txs| && txs[i] == t;
      assert Has(p, t);
    }
  }
}
