/** How an account's lists relate to the state nonce and the pool's virtual nonce. */
module PoolSync {
  import opened Nonces
  import opened Transactions
  import opened SortedMap
  import opened AccountLists

  /** Pending is exactly the run from the state nonce up to the virtual nonce, and every
      queued nonce leaves a gap above it: nothing executable is left waiting. */
  ghost predicate Synced(p: ByNonce, q: ByNonce, state: nat, virtual: nat) {
    Run(p, state, virtual) && forall n :: n in q ==> n > virtual
  }

  /** As Synced, but queued transactions may be executable or outdated. */
  ghost predicate Loose(p: ByNonce, q: ByNonce, state: nat, virtual: nat) {
    Run(p, state, virtual) && forall n :: n in q && n >= state ==> n >= virtual
  }

  /** Pending is some unbroken run with every queued nonce leaving a gap above it. */
  ghost predicate Unbroken(p: ByNonce, q: ByNonce) {
    p == map[] || (Run(p, Min(p.Keys), Min(p.Keys) + |p|) && forall n :: n in q ==> n > Min(p.Keys) + |p|)
  }

  lemma SyncedIsUnbroken(p: ByNonce, q: ByNonce, state: nat, virtual: nat)
    requires Synced(p, q, state, virtual)
    ensures Unbroken(p, q)
  {
    if p != map[] {
      assert state in p;
      RunSize(p, state, virtual);
    }
  }

  /** A queue insertion at a nonce that is neither pending nor outdated. */
  lemma InsertionSync(p: ByNonce, q: ByNonce, tx: Tx, state: nat, virtual: nat)
    requires Loose(p, q, state, virtual) && state <= tx.nonce && tx.nonce !in p
    ensures Loose(p, q[tx.nonce := tx], state, virtual)
    ensures Synced(p, q, state, virtual) && tx.nonce in q ==> Synced(p, q[tx.nonce := tx], state, virtual)
  {
  }

  /** Promoting the ready run of a queue without outdated nonces leaves nothing executable. */
  lemma PromotionSync(p: ByNonce, q: ByNonce, state: nat, virtual: nat)
    requires Loose(p, q, state, virtual) && Below(q, state) == {}
    ensures var run := ReadyRun(q, virtual);
            var v' := if run == {} then virtual else Nonces.Max(run) + 1;
            Synced(p + Restrict(q, run), q - run, state, v')
  {
    var run := ReadyRun(q, virtual);
    assert forall n :: n in q ==> n >= state;
    if q != map[] && Min(q.Keys) <= virtual {
      var e := RunEnd(q.Keys, Min(q.Keys));
      assert Min(q.Keys) == virtual;
      assert virtual in run;
      assert e - 1 in run;
      assert Nonces.Max(run) == e - 1 by { assert IsMax(Nonces.Max(run), run); }
    } else {
      assert run == {};
    }
  }

  lemma RunIsUnbroken(p: ByNonce, q: ByNonce, lo: nat, hi: nat)
    requires Run(p, lo, hi) && (p != map[] ==> forall n :: n in q ==> n > hi)
    ensures Unbroken(p, q)
  {
    if p != map[] {
      assert lo in p;
      RunSize(p, lo, hi);
    }
  }

}
