/** Runs of the pool: what holds at every point of any sequence of steps. */
module PoolRuns {
  import opened Transactions
  import opened PricedLists
  import opened PoolState
  import opened PoolSync
  import opened PoolMoves
  import opened PoolSteps
  import opened TxPools

  /** All transactions given in the course of a run, in order. */
  function GivenIn(steps: seq<Step>): seq<Tx> {
    if steps == [] then [] else GivenIn(steps[..|steps| - 1]) + Given(steps[|steps| - 1])
  }

  lemma GivenNext(steps: seq<Step>, i: nat)
    requires i < |steps|
    ensures GivenIn(steps[..i + 1]) == GivenIn(steps[..i]) + Given(steps[i])
  {
    assert steps[..i + 1][..i] == steps[..i];
  }

  /** No step reinjects transactions. */
  ghost predicate Straight(steps: seq<Step>) {
    forall s :: s in steps && s.NewHead? ==> s.reinject == []
  }

  /** `trace` leads from a new pool through the steps. */
  ghost predicate Traced(trace: seq<View>, start: Head, steps: seq<Step>, times: seq<int>, c: Config)
    requires |times| == |steps|
  {
    && |trace| == |steps| + 1 && trace[0] == Vacant(start, c)
    && forall i :: 0 <= i < |steps| ==> Stepped(trace[i], steps[i], times[i], trace[i + 1], c)
  }

  /** Any run of steps from a new pool, at any times, takes exactly these steps. At every
      point the lists agree with the hash map, remote transactions pay the floor, the state
      could execute every transaction and the pool is within its limit. If no step reinjects
      transactions, every account's pending transactions are at every point exactly those from
      its state nonce up to its virtual nonce, and nothing executable waits in the queue. If no
      transaction is given twice, the stale counter is exact in the end. */
  method Run(c: Config, start: Head, steps: seq<Step>, times: seq<int>) returns (pool: TxPool, ghost trace: seq<View>)
    requires c.accountSlots >= 1 && |times| == |steps|
    ensures pool.Valid() && pool.config == Sanitized(c) && Traced(trace, start, steps, times, Sanitized(c)) && trace[|steps|] == pool.V()
    ensures forall i :: 0 <= i <= |steps| ==> trace[i].Good(Sanitized(c))
    ensures Straight(steps) ==> forall i, a: Address :: 0 <= i <= |steps| ==> trace[i].SyncedAt(a)
    ensures Distinct(GivenIn(steps)) ==> pool.priced.Exact(pool.all)
  {
    hide Stepped, Shaped, Covers, HearsAll, PaysFloor, AllFit, Bounded, Distinct, Synced;
    pool := new TxPool(c, start);
    trace := [pool.V()];
    ghost var l := pool.H();
    HearsNone(l);
    assert steps[..0] == [];
    for i := 0 to |steps|
      invariant pool.Valid() && pool.config == Sanitized(c) && fresh(pool) && fresh(pool.priced)
      invariant |trace| == i + 1 && trace[0] == Vacant(start, Sanitized(c)) && trace[i] == pool.V()
      invariant forall k :: 0 <= k < i ==> Stepped(trace[k], steps[k], times[k], trace[k + 1], Sanitized(c))
      invariant forall k :: 0 <= k <= i ==> trace[k].Good(Sanitized(c))
      invariant Straight(steps) ==> forall k, a: Address :: 0 <= k <= i ==> trace[k].SyncedAt(a)
      invariant HearsAll(l, GivenIn(steps[..i]), pool.H())
    {
      ghost var v, h := pool.V(), pool.H();
      pool.Take(steps[i], times[i]);
      GivenNext(steps, i);
      HearsMore(l, GivenIn(steps[..i]), h, Given(steps[i]), pool.H());
      assert steps[i] in steps;
      trace := trace + [pool.V()];
    }
    assert steps[..|steps|] == steps;
    assert !pool.priced.reentered || !Distinct(GivenIn(steps)) by { NeverTwice(l, GivenIn(steps), pool.H()); }
  }

  lemma NeverTwice(l: Ledger, txs: seq<Tx>, l': Ledger)
    requires HearsAll(l, txs, l') && l.entered == {} && !l.reentered
    ensures l'.reentered ==> !Distinct(txs)
  {
  }
}
