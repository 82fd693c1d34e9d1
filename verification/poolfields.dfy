/** What the steps of the pool do, nonce by nonce, in nonces, balances and numbers of transactions. */
module PoolFields {
  import opened Nonces
  import opened Transactions
  import opened SortedMap
  import opened AccountLists
  import opened PricedLists
  import opened PoolState
  import opened PoolMoves
  import opened PoolSteps
  import L = PoolLimits

  /** The state could execute the transaction of account `a` at nonce `n`, now or later. */
  ghost predicate Executable(m: ByNonce, head: Head, a: Address, n: nat) {
    && n in m && head.Nonce(a) <= n
    && m[n].value + m[n].price * m[n].gas <= head.Balance(a) && m[n].gas <= head.gasLimit
  }

  /** The lowest executable nonce. */
  ghost predicate First(m: ByNonce, head: Head, a: Address, lo: nat) {
    Executable(m, head, a, lo) && forall k :: Executable(m, head, a, k) ==> lo <= k
  }

  /** `n` is on the run of executable queued nonces that starts with the lowest one, and that
      one is not above the virtual nonce. */
  ghost predicate Due(q: ByNonce, head: Head, a: Address, virtual: nat, n: nat) {
    exists lo: nat :: First(q, head, a, lo) && lo <= virtual && lo <= n && forall k: nat :: lo <= k <= n ==> Executable(q, head, a, k)
  }

  lemma UsableIs(q: ByNonce, head: Head, a: Address, n: nat)
    ensures n in Restrict(q, Usable(q, head, a)) <==> Executable(q, head, a, n)
  {
  }

  lemma ReadyIs(m: ByNonce, start: nat, n: nat)
    ensures n in ReadyRun(m, start) <==>
              m != map[] && Min(m.Keys) <= start && Min(m.Keys) <= n && forall k: nat :: Min(m.Keys) <= k <= n ==> k in m
  {
    if m != map[] {
      var e := RunEnd(m.Keys, Min(m.Keys));
      if e <= n && Min(m.Keys) <= n {
        assert Min(m.Keys) <= e <= n && e !in m;
      }
    }
  }

  lemma DueIsReady(q: ByNonce, head: Head, a: Address, virtual: nat, n: nat)
    ensures Due(q, head, a, virtual, n) <==> n in ReadyRun(Restrict(q, Usable(q, head, a)), virtual)
  {
    hide ReadyRun, Executable, Usable;
    var m := Restrict(q, Usable(q, head, a));
    forall k: nat ensures k in m <==> Executable(q, head, a, k) {
      UsableIs(q, head, a, k);
    }
    ReadyIs(m, virtual, n);
    if m != map[] {
      assert First(q, head, a, Min(m.Keys));
    }
  }

  /** Just the due nonces have become pending, and the virtual nonce is behind the last of them. */
  ghost predicate MovedUp(p: ByNonce, q: ByNonce, w: nat, p': ByNonce, w': nat, head: Head, a: Address) {
    && (forall n: nat :: n in p' <==> n in p || Due(q, head, a, w, n))
    && (forall n: nat :: n in p' ==> n in p || n in q)
    && (forall n: nat :: n in p' ==> p'[n] == if n in p then p[n] else q[n])
    && ((forall n: nat :: !Due(q, head, a, w, n)) ==> w' == w)
    && (forall n: nat :: Due(q, head, a, w, n) ==> w' > n && Due(q, head, a, w, w' - 1))
  }

  /** The queue keeps the executable nonces that are not due; a remote one beyond its allowance
      only the lowest of them, just as many as it may. */
  ghost predicate KeptBack(q: ByNonce, w: nat, q': ByNonce, head: Head, a: Address, local: bool, limit: nat) {
    && (forall n: nat :: n in q' ==> Executable(q, head, a, n) && !Due(q, head, a, w, n) && q'[n] == q[n])
    && (!local ==> |q'| <= limit)
    && (forall n: nat :: Executable(q, head, a, n) && !Due(q, head, a, w, n) && n !in q' ==>
          !local && |q'| == limit && forall k :: k in q' ==> k < n)
  }

  lemma MovedUpIs(p: ByNonce, q: ByNonce, w: nat, p': ByNonce, rest: ByNonce, w': nat, head: Head, a: Address)
    requires p.Keys !! q.Keys && Promoted(p, Restrict(q, Usable(q, head, a)), w, p', rest, w')
    ensures MovedUp(p, q, w, p', w', head, a)
  {
    hide ReadyRun, Due, Usable;
    var run := ReadyRun(Restrict(q, Usable(q, head, a)), w);
    forall n: nat ensures Due(q, head, a, w, n) <==> n in run {
      DueIsReady(q, head, a, w, n);
    }
  }

  lemma AllowedIs(rest: ByNonce, local: bool, limit: nat)
    ensures var q := Allowed(rest, local, limit);
            && (forall n: nat :: n in q ==> n in rest && q[n] == rest[n]) && (!local ==> |q| <= limit)
            && (forall n: nat, k: nat :: n in rest && n !in q && k in q ==> k < n)
            && (forall n: nat :: n in rest && n !in q ==> !local && |q| == limit)
  {
    LowestPrecede(rest.Keys, limit);
    var q := Restrict(rest, Lowest(rest.Keys, limit));
    assert q.Keys == Lowest(rest.Keys, limit) && |q| == |q.Keys|;
    forall n: nat, k: nat | n in rest && n !in q && k in q ensures k < n {
      assert n in rest.Keys - Lowest(rest.Keys, limit);
    }
  }

  lemma KeptBackIs(q: ByNonce, w: nat, head: Head, a: Address, local: bool, limit: nat)
    ensures var m := Restrict(q, Usable(q, head, a));
            KeptBack(q, w, Allowed(m - ReadyRun(m, w), local, limit), head, a, local, limit)
  {
    hide ReadyRun, Due, Usable, Executable, Allowed;
    var m := Restrict(q, Usable(q, head, a));
    forall n: nat ensures n in m - ReadyRun(m, w) <==> Executable(q, head, a, n) && !Due(q, head, a, w, n) {
      UsableIs(q, head, a, n);
      DueIsReady(q, head, a, w, n);
    }
    AllowedIs(m - ReadyRun(m, w), local, limit);
  }

  /** Promotion of an account, nonce by nonce. */
  lemma PromotedInFields(v: View, accounts: set<Address>, now: int, v': View, c: Config, a: Address)
    requires v.Shape() && PromotedTo(v, accounts, now, v', c) && a in accounts
    ensures MovedUp(At(v.pending, a), At(v.queue, a), v.Virtual(a), At(v'.pending, a), v'.Virtual(a), v.head, a)
    ensures KeptBack(At(v.queue, a), v.Virtual(a), At(v'.queue, a), v.head, a, a in v.locals, c.accountQueue)
  {
    hide Promoted, MovedUp, KeptBack, ReadyRun, Usable, Allowed, Sound;
    assert Ok(v.all, v.pending, v.queue, a);
    var m := Restrict(At(v.queue, a), Usable(At(v.queue, a), v.head, a));
    assert PromotedAt(v.pending, v.queue, v.virtuals, v'.pending, v'.queue, v'.virtuals, v.head, v.locals, c.accountQueue, a);
    MovedUpIs(At(v.pending, a), At(v.queue, a), v.Virtual(a), At(v'.pending, a), m - ReadyRun(m, v.Virtual(a)), v'.Virtual(a), v.head, a);
    KeptBackIs(At(v.queue, a), v.Virtual(a), v.head, a, a in v.locals, c.accountQueue);
  }

  /** Pending keeps its nonces from the state nonce up to the first that cannot be paid for, and
      none if the state nonce itself is missing; the executable rest goes to the queue. */
  ghost predicate MovedDown(p: ByNonce, q: ByNonce, p': ByNonce, q': ByNonce, head: Head, a: Address) {
    var st := head.Nonce(a);
    && (forall n: nat :: n in p' <==> n in p && st <= n && st in p && forall k: nat :: k in p && st <= k <= n ==> Executable(p, head, a, k))
    && (forall n: nat :: n in q' <==> n in q || (n !in p' && Executable(p, head, a, n)))
    && (forall n: nat :: n in p' ==> p'[n] == p[n])
    && (forall n: nat :: n in q' ==> if n in q then q'[n] == q[n] else n in p && q'[n] == p[n])
  }

  lemma MovedDownIs(p: ByNonce, q: ByNonce, head: Head, a: Address)
    requires p.Keys !! q.Keys
    ensures MovedDown(p, q, Staying(p, head, a), q + Returning(p, head, a), head, a)
  {
    forall k: nat ensures k in p && head.Nonce(a) <= k ==> (Executable(p, head, a, k) <==> !Unpayable(p[k], head.Balance(a), head.gasLimit)) {
    }
  }

  /** Demotion of an account, nonce by nonce. */
  lemma DemotedInFields(v: View, v': View, a: Address)
    requires v.Shape() && DemotedTo(v, v')
    ensures MovedDown(At(v.pending, a), At(v.queue, a), At(v'.pending, a), At(v'.queue, a), v.head, a) && v'.Virtual(a) == v.Virtual(a)
  {
    hide MovedDown, Staying, Returning, Sound;
    assert Ok(v.all, v.pending, v.queue, a);
    assert DemotedAt(v.pending, v.queue, v'.pending, v'.queue, v.head, a);
    MovedDownIs(At(v.pending, a), At(v.queue, a), v.head, a);
  }

  lemma LowIs(w: nat, s: set<nat>, w': nat)
    requires w' == L.Low(w, s)
    ensures w' <= w && (forall n: nat :: n in s ==> w' <= n) && (w' == w || w' in s)
  {
  }

  ghost predicate Gone(m: ByNonce, all: All, n: nat) {
    n in m && m[n].Hash() !in all
  }

  /** With the transactions outside `all` gone, pending ends below the lowest of them, what is left
      above it is queued, and the virtual nonce has fallen to it unless it was lower. */
  ghost predicate FallenBack(p: ByNonce, q: ByNonce, w: nat, p': ByNonce, q': ByNonce, w': nat, all: All) {
    && (forall n: nat :: n in p' <==> n in p && forall k: nat :: Gone(p, all, k) ==> n < k)
    && (forall n: nat :: n in q' <==> (n in q && !Gone(q, all, n)) || (n in p && n !in p' && !Gone(p, all, n)))
    && (forall n: nat :: n in p' ==> n in p && p'[n] == p[n])
    && (forall n: nat :: n in q' ==> if n in q then q'[n] == q[n] else n in p && q'[n] == p[n])
    && w' <= w && (forall n: nat :: Gone(p, all, n) ==> w' <= n) && (w' == w || Gone(p, all, w'))
  }

  lemma StandingIs(p: ByNonce, all: All, n: nat)
    ensures n in Standing(p, all) <==> n in p && forall k: nat :: Gone(p, all, k) ==> n < k
    ensures n in Standing(p, all) ==> Standing(p, all)[n] == p[n]
    ensures n in Dead(p, all) <==> Gone(p, all, n)
  {
    assert forall k: nat :: k in Dead(p, all) <==> Gone(p, all, k);
  }

  lemma FallenIs(p: ByNonce, q: ByNonce, all: All, n: nat)
    ensures n in Fallen(p, q, all) <==> (n in q && !Gone(q, all, n)) || (n in p && n !in Standing(p, all) && !Gone(p, all, n))
    ensures n in Fallen(p, q, all) && p.Keys !! q.Keys ==> if n in q then Fallen(p, q, all)[n] == q[n] else n in p && Fallen(p, q, all)[n] == p[n]
  {
    hide Standing;
  }

  lemma FallenBackIs(p: ByNonce, q: ByNonce, w: nat, p': ByNonce, q': ByNonce, w': nat, all: All)
    requires p.Keys !! q.Keys && WithdrawnAt(p, q, w, p', q', w', all)
    ensures FallenBack(p, q, w, p', q', w', all)
  {
    hide Gone, Dead, Standing, Fallen, L.Low;
    LowIs(w, Dead(p, all), w');
    forall n: nat
      ensures n in p' <==> n in p && forall k: nat :: Gone(p, all, k) ==> n < k
      ensures n in p' ==> n in p && p'[n] == p[n]
    {
      StandingIs(p, all, n);
    }
    forall n: nat ensures n in Dead(p, all) <==> Gone(p, all, n) {
      StandingIs(p, all, n);
    }
    forall n: nat
      ensures n in q' <==> (n in q && !Gone(q, all, n)) || (n in p && n !in p' && !Gone(p, all, n))
      ensures n in q' ==> if n in q then q'[n] == q[n] else n in p && q'[n] == p[n]
    {
      FallenIs(p, q, all, n);
    }
  }

  /** The removal of transactions from an account, nonce by nonce. */
  lemma WithdrawnInFields(v: View, v': View, a: Address)
    requires v.Shape() && Withdrawn(v, v')
    ensures FallenBack(At(v.pending, a), At(v.queue, a), v.Virtual(a), At(v'.pending, a), At(v'.queue, a), v'.Virtual(a), v'.all)
  {
    hide FallenBack, Standing, Fallen, Sound, BeatsKept;
    assert Ok(v.all, v.pending, v.queue, a);
    assert WithdrawnIn(v, v', a);
    FallenBackIs(At(v.pending, a), At(v.queue, a), v.Virtual(a), At(v'.pending, a), At(v'.queue, a), v'.Virtual(a), v'.all);
  }

  /** Afterwards the virtual nonce is the one behind the last pending transaction. */
  lemma RealignedInFields(v: View, v': View, a: Address)
    requires RealignedTo(v, v')
    ensures At(v'.pending, a) == At(v.pending, a) && At(v'.queue, a) == At(v.queue, a)
    ensures var p, w' := At(v.pending, a), v'.Virtual(a);
            && (p == map[] ==> w' == v.Virtual(a)) && (p != map[] ==> w' > 0 && w' - 1 in p) && forall n: nat :: n in p ==> n < w'
  {
    assert v'.Virtual(a) == Next(At(v.pending, a), v.Virtual(a));
  }

  /** What is kept lies below what is lost. */
  ghost predicate CutAbove(m: ByNonce, m': ByNonce) {
    && (forall n: nat :: n in m' ==> n in m && m'[n] == m[n])
    && (forall n: nat, k: nat :: n in m && n !in m' && k in m' ==> k < n)
  }

  lemma CutAboveIs(m: ByNonce, m': ByNonce)
    requires L.CutTo(m, m')
    ensures CutAbove(m, m') && (m' == m <==> |m'| == |m|) && |m'| <= |m|
  {
    LowestPrecede(m.Keys, |m'|);
    assert m'.Keys == Lowest(m.Keys, |m'|) && |m'| == |m'.Keys|;
    forall n: nat, k: nat | n in m && n !in m' && k in m' ensures k < n {
      assert n in m.Keys - Lowest(m.Keys, |m'|);
    }
  }

  /** The highest nonces are lost, and the virtual nonce has fallen to the lowest of those. */
  ghost predicate CutBack(p: ByNonce, w: nat, p': ByNonce, w': nat) {
    && CutAbove(p, p') && w' <= w
    && (forall n: nat :: n in p && n !in p' ==> w' <= n) && (w' == w || (w' in p && w' !in p'))
  }

  lemma CutBackIs(p: ByNonce, w: nat, p': ByNonce, w': nat)
    requires L.TrimmedAt(p, w, p', w')
    ensures CutBack(p, w, p', w') && (p' == p <==> |p'| == |p|)
  {
    hide L.Low, L.CutTo, CutAbove;
    CutAboveIs(p, p');
    LowIs(w, p.Keys - p'.Keys, w');
    assert forall n :: n in p && n !in p' ==> n in p.Keys - p'.Keys;
  }

  /** Truncation of pending, nonce by nonce. Local accounts lose nothing; nobody loses anything
      while there are not too many, nor down to fewer than the guaranteed slots; an account loses
      its highest nonces, and its virtual nonce falls to the lowest one lost. */
  lemma PendingTruncatedInFields(v: View, m: nat, v': View, c: Config, a: Address)
    requires TruncatedTo(v, m, v', c)
    ensures CutBack(At(v.pending, a), v.Virtual(a), At(v'.pending, a), v'.Virtual(a))
    ensures var p, p' := At(v.pending, a), At(v'.pending, a);
            && (p' != p ==> a !in v.locals && L.Total(v.pending) > c.globalSlots && |p'| >= c.accountSlots)
            && (L.Total(v'.pending) <= c.globalSlots || a in v.locals || |p'| <= c.accountSlots)
  {
    hide View.Shape, L.Total, L.Tight, L.Relieved, L.KeepsLowest, L.TrimmedAt, CutBack;
    assert L.TrimmedAt(At(v.pending, a), v.Virtual(a), At(v'.pending, a), v'.Virtual(a));
    CutBackIs(At(v.pending, a), v.Virtual(a), At(v'.pending, a), v'.Virtual(a));
    assert L.Fair(v.pending, v'.pending, v.locals, c.accountSlots, m) ==> L.FairAt(v.pending, v'.pending, v.locals, m, a);
  }

  /** Whoever has a later heartbeat than an account that loses something, or any if that has none,
      has lost everything. */
  lemma LaterLose(before: AccountMap, after: AccountMap, locals: set<Address>, beats: map<Address, int>, a: Address, b: Address)
    requires L.NewestFirst(before, after, locals, beats) && |At(after, a)| < |At(before, a)| && |At(after, b)| <= |At(before, b)|
    requires b !in locals && b in beats && (a !in beats || beats[a] < beats[b])
    ensures At(after, b) == map[]
  {
    assert L.Len(after, a) < L.Len(before, a) && L.Earlier(beats, a, b);
  }

  /** Truncation of the queues, nonce by nonce. A remote account loses its highest nonces, and only
      while there are too many; those with a later heartbeat have then lost everything. */
  lemma QueueTruncatedInFields(v: View, m: nat, v': View, c: Config, a: Address, b: Address)
    requires TruncatedTo(v, m, v', c)
    ensures CutAbove(At(v.queue, a), At(v'.queue, a))
    ensures var q, q' := At(v.queue, a), At(v'.queue, a);
            && (q' != q ==> a !in v.locals && L.Total(v.queue) > c.globalQueue && L.Total(v'.queue) >= c.globalQueue)
            && (q' != q && b !in v.locals && b in v.beats && (a !in v.beats || v.beats[a] < v.beats[b]) ==> At(v'.queue, b) == map[])
            && (L.Total(v'.queue) <= c.globalQueue || a in v.locals || q' == map[])
  {
    hide View.Shape, L.CutTo, L.Total, L.Trimmed, L.Leveled, CutAbove, L.NewestFirst;
    assert L.CutTo(At(v.queue, a), At(v'.queue, a)) && L.CutTo(At(v.queue, b), At(v'.queue, b));
    CutAboveIs(At(v.queue, a), At(v'.queue, a));
    CutAboveIs(At(v.queue, b), At(v'.queue, b));
    if At(v'.queue, a) != At(v.queue, a) && b !in v.locals && b in v.beats && (a !in v.beats || v.beats[a] < v.beats[b]) {
      LaterLose(v.queue, v'.queue, v.locals, v.beats, a, b);
    }
  }
}
