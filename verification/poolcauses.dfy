/** Why a transaction may leave the pool, and what becomes of every transaction given to it. */
module PoolCauses {
  import opened Nonces
  import opened Transactions
  import opened Wrappers
  import opened SortedMap
  import opened AccountLists
  import opened PricedLists
  import opened PoolState
  import opened PoolMoves
  import opened PoolSteps
  import L = PoolLimits

  /** What the limits met in one round of promotion and truncation: the queues that were
      promoted, then the pending lists and the queues that were truncated. */
  datatype Round = Round(promoted: AccountMap, pending: AccountMap, queue: AccountMap)

  /** The transactions that a call has to do with, and its rounds. */
  datatype Strain = Strain(crowd: set<Hash>, rounds: seq<Round>)

  function Crowd(all: All, txs: seq<Tx>): set<Hash> {
    all.Keys + Hashes(txs)
  }

  /** A transaction meets a limit: it is queued and its account has more queued than allowed, or
      it is pending, its account has more pending than guaranteed and too many are pending in
      all, or it is queued and too many are queued in all. */
  ghost predicate Overflows(r: Round, c: Config, t: Tx)
    requires t.sender.Some?
  {
    var a := t.sender.value;
    || (Has(At(r.promoted, a), t) && L.Len(r.promoted, a) > c.accountQueue)
    || (Has(At(r.pending, a), t) && L.Len(r.pending, a) > c.accountSlots && L.Total(r.pending) > c.globalSlots)
    || (Has(At(r.queue, a), t) && L.Total(r.queue) > c.globalQueue)
  }

  /** A remote transaction that a limit leaves no room for: one of its account, of pending or of
      the queue in one of the rounds, or that of the whole pool. */
  ghost predicate Squeezed(locals: set<Address>, c: Config, s: Strain, t: Tx) {
    && t.sender.Some? && !IsLocal(locals, t)
    && (|s.crowd| > Limit(c) || exists r :: r in s.rounds && Overflows(r, c, t))
  }

  /** One of `txs` takes the place of `t` by paying enough more. */
  ghost predicate Outbid(txs: seq<Tx>, bump: nat, t: Tx) {
    exists r :: r in txs && r.sender == t.sender && r.nonce == t.nonce && r.price > t.price && 100 * r.price > t.price * (100 + bump) - 100
  }

  /** Another transaction, pooled before or given along, claims the nonce of `t`. */
  ghost predicate Contested(before: All, txs: seq<Tx>, t: Tx) {
    exists u :: (Live(u, before) || u in txs) && u != t && u.sender == t.sender && u.nonce == t.nonce
  }

  /** Whatever left the pool was not usable any more, or made way to the limits or to a
      dearer transaction at its nonce. */
  ghost predicate LostWithCause(before: All, after: All, head: Head, locals: set<Address>, c: Config, s: Strain, txs: seq<Tx>) {
    forall t :: Live(t, before) && !Live(t, after) ==> !Fits(head, t) || Squeezed(locals, c, s, t) || Outbid(txs, c.priceBump, t)
  }

  ghost predicate Milder(s: Strain, s': Strain) {
    s.crowd <= s'.crowd && forall r :: r in s.rounds ==> r in s'.rounds
  }

  lemma SqueezedMore(locals: set<Address>, locals': set<Address>, c: Config, s: Strain, s': Strain, t: Tx)
    requires Squeezed(locals', c, s, t) && locals <= locals' && Milder(s, s')
    ensures Squeezed(locals, c, s', t)
  {
    hide Overflows;
    L.SubsetSize(s.crowd, s'.crowd);
  }

  lemma OutbidMore(txs: seq<Tx>, every: seq<Tx>, bump: nat, t: Tx)
    requires Outbid(txs, bump, t) && forall u :: u in txs ==> u in every
    ensures Outbid(every, bump, t)
  {
  }

  lemma LostTrans(first: All, mid: All, last: All, head: Head, locals: set<Address>, locals': set<Address>, c: Config,
                  s: Strain, s': Strain, most: Strain, txs: seq<Tx>, txs': seq<Tx>, every: seq<Tx>)
    requires LostWithCause(first, mid, head, locals, c, s, txs) && LostWithCause(mid, last, head, locals', c, s', txs')
    requires locals <= locals' && Milder(s, most) && Milder(s', most)
    requires forall t :: t in txs || t in txs' ==> t in every
    ensures LostWithCause(first, last, head, locals, c, most, every)
  {
    hide Squeezed, Outbid, Milder, Fits;
    forall t | Live(t, first) && !Live(t, last)
      ensures !Fits(head, t) || Squeezed(locals, c, most, t) || Outbid(every, c.priceBump, t)
    {
      if Live(t, mid) {
        if Squeezed(locals', c, s', t) {
          SqueezedMore(locals, locals', c, s', most, t);
        } else if Outbid(txs', c.priceBump, t) {
          OutbidMore(txs', every, c.priceBump, t);
        }
      } else {
        if Squeezed(locals, c, s, t) {
          SqueezedMore(locals, locals, c, s, most, t);
        } else if Outbid(txs, c.priceBump, t) {
          OutbidMore(txs, every, c.priceBump, t);
        }
      }
    }
  }

  lemma LostNothing(all: All, head: Head, locals: set<Address>, c: Config, s: Strain, txs: seq<Tx>)
    ensures LostWithCause(all, all, head, locals, c, s, txs)
  {
  }

  // What the single moves take.

  lemma AddedLoses(v: View, tx: Tx, local: bool, r: AddResult, room: View, v': View, c: Config)
    requires v.Shape() && AddedTo(v, tx, local, r, room, v', c)
    ensures LostWithCause(v.all, v'.all, v.head, v.locals, c, Strain(Crowd(v.all, [tx]), []), [tx])
  {
    hide Shaped, FirstObjection, Placement, Fits, Squeezed, Outbid, Withdrawn;
    var s := Strain(Crowd(v.all, [tx]), []);
    forall t | Live(t, v.all) && !Live(t, v'.all) ensures Squeezed(v.locals, c, s, t) || Outbid([tx], c.priceBump, t) {
      RoomShape(v, room, c);
      if Live(t, room.all) {
        PlacedLoses(room, tx, local, r, v', c, t);
      } else {
        RoomLoses(v, tx, room, c, t);
      }
    }
  }

  lemma RoomLoses(v: View, tx: Tx, room: View, c: Config, t: Tx)
    requires v.Shape() && RoomFor(v, room, c) && !Live(tx, v.all) && Live(t, v.all) && !Live(t, room.all)
    ensures Squeezed(v.locals, c, Strain(Crowd(v.all, [tx]), []), t)
  {
    hide Withdrawn;
    var crowd := Crowd(v.all, [tx]);
    assert tx.Hash() in Hashes([tx]) by { assert tx in [tx]; }
    assert v.all.Keys + {tx.Hash()} <= crowd && tx.Hash() !in v.all.Keys;
    L.SubsetSize(v.all.Keys + {tx.Hash()}, crowd);
  }

  lemma PlacedLoses(room: View, tx: Tx, local: bool, r: AddResult, v': View, c: Config, t: Tx)
    requires tx.sender.Some? && room.Shape() && PlacedIn(room, tx, local, r, v') && r == Placement(room.pending, room.queue, tx, c.priceBump)
    requires Live(t, room.all) && !Live(t, v'.all)
    ensures Outbid([tx], c.priceBump, t)
  {
    var a, b := tx.sender.value, t.sender.value;
    assert Ok(v'.all, v'.pending, v'.queue, b) && Ok(room.all, room.pending, room.queue, b);
    if b != a {
      Elsewhere(room.pending, v'.pending, a, b);
      Elsewhere(room.queue, v'.queue, a, b);
    }
    assert tx in [tx] && b == a;
    OutbidsInPrices(t, tx, c.priceBump);
  }

  /** Promotion takes from an account's queue what is not usable or exceeds its allowance. */
  lemma PromotionLoses(v: View, accounts: set<Address>, now: int, v': View, c: Config)
    requires v.Shape() && PromotedTo(v, accounts, now, v', c)
    ensures LostWithCause(v.all, v'.all, v.head, v.locals, c, Strain({}, [Round(v.queue, v'.pending, v'.queue)]), [])
  {
    hide Shaped, BeatsNoted, Fits, PromotedAt, Untouched, Squeezed;
    forall t | Live(t, v.all) && !Live(t, v'.all) ensures !Fits(v.head, t) || Squeezed(v.locals, c, Strain({}, [Round(v.queue, v'.pending, v'.queue)]), t) {
      PromotionLosesAt(v, accounts, now, v', c, t);
    }
  }

  lemma PromotionLosesAt(v: View, accounts: set<Address>, now: int, v': View, c: Config, t: Tx)
    requires v.Shape() && PromotedTo(v, accounts, now, v', c) && Live(t, v.all) && !Live(t, v'.all)
    ensures !Fits(v.head, t) || Squeezed(v.locals, c, Strain({}, [Round(v.queue, v'.pending, v'.queue)]), t)
  {
    hide BeatsNoted, Fits, ReadyRun, Usable, Allowed, Promoted, ListOk, L.Total;
    var a := t.sender.value;
    assert Ok(v.all, v.pending, v.queue, a) && Ok(v'.all, v'.pending, v'.queue, a);
    assert a !in accounts ==> Untouched(v.pending, v.queue, v.virtuals, v'.pending, v'.queue, v'.virtuals, v.head, a);
    assert a in accounts;
    assert PromotedAt(v.pending, v.queue, v.virtuals, v'.pending, v'.queue, v'.virtuals, v.head, v.locals, c.accountQueue, a);
    var usable := Restrict(At(v.queue, a), Usable(At(v.queue, a), v.head, a));
    PendingGrows(At(v.pending, a), usable, v.Virtual(a), At(v'.pending, a), v'.Virtual(a), t);
    assert Has(At(v.queue, a), t);
    PromotionLoss(At(v.pending, a), At(v.queue, a), v.Virtual(a), At(v'.pending, a), v'.Virtual(a), v.head, a, a in v.locals, c.accountQueue, t);
    var r := Round(v.queue, v'.pending, v'.queue);
    assert r in [r];
    assert !Fits(v.head, t) || Overflows(r, c, t);
  }

  lemma PendingGrows(p: ByNonce, q: ByNonce, v: nat, p': ByNonce, v': nat, t: Tx)
    requires Promoted(p, q, v, p', q - ReadyRun(q, v), v') && p.Keys !! q.Keys
    ensures Has(p, t) ==> Has(p', t)
    ensures Has(q, t) && !Has(p', t) ==> Has(q - ReadyRun(q, v), t)
  {
    hide ReadyRun;
  }

  lemma PromotionLoss(p: ByNonce, q: ByNonce, v: nat, p': ByNonce, v': nat, head: Head, a: Address, local: bool, limit: nat, t: Tx)
    requires t.sender == Some(a) && Has(q, t) && p.Keys !! q.Keys
    requires var usable := Restrict(q, Usable(q, head, a)); Promoted(p, usable, v, p', usable - ReadyRun(usable, v), v')
    requires var usable := Restrict(q, Usable(q, head, a)); !Has(p', t) && !Has(Allowed(usable - ReadyRun(usable, v), local, limit), t)
    ensures !Fits(head, t) || (!local && |q| > limit)
  {
    hide ReadyRun, Fits, Promoted, Usable, Allowed;
    var usable := Restrict(q, Usable(q, head, a));
    var rest := usable - ReadyRun(usable, v);
    UsableAre(q, head, a, t);
    PendingGrows(p, usable, v, p', v', t);
    AllowedAll(rest, local, limit);
    assert rest.Keys <= q.Keys;
    L.SubsetSize(rest.Keys, q.Keys);
  }

  lemma UsableAre(q: ByNonce, head: Head, a: Address, t: Tx)
    requires t.sender == Some(a) && Has(q, t)
    ensures Fits(head, t) <==> t.nonce in Usable(q, head, a)
  {
  }

  lemma AllowedAll(q: ByNonce, local: bool, limit: nat)
    ensures local || |q| <= limit ==> Allowed(q, local, limit) == q
  {
    assert |q.Keys| <= limit ==> Lowest(q.Keys, limit) == q.Keys;
    assert Restrict(q, q.Keys) == q;
  }

  /** The limits take from remote accounts over their guaranteed share while too many are
      pending, or from remote queues while too many are queued. */
  lemma TruncationLoses(v: View, m: nat, v': View, c: Config, promoted: AccountMap)
    requires v.Shape() && TruncatedTo(v, m, v', c)
    ensures LostWithCause(v.all, v'.all, v.head, v.locals, c, Strain({}, [Round(promoted, v.pending, v.queue)]), [])
  {
    hide L.Fair, L.Tight, L.KeepsLowest, L.Trimmed, L.NewestFirst, L.Total, ListOk, Fits;
    var r := Round(promoted, v.pending, v.queue);
    assert r in [r];
    forall t | Live(t, v.all) && !Live(t, v'.all) ensures Squeezed(v.locals, c, Strain({}, [r]), t) {
      var a := t.sender.value;
      assert Ok(v.all, v.pending, v.queue, a) && Ok(v'.all, v'.pending, v'.queue, a);
      if Has(At(v.pending, a), t) {
        L.TrimKeepsLowest(v.pending, v.virtuals, v'.pending, v'.virtuals, v.head);
        FairShorter(v.pending, v'.pending, v.locals, c.accountSlots, m, a);
      }
      assert Overflows(r, c, t);
    }
  }

  lemma FairShorter(pending: AccountMap, pending': AccountMap, locals: set<Address>, slots: nat, m: nat, a: Address)
    requires L.Fair(pending, pending', locals, slots, m) && L.KeepsLowest(pending, pending') && At(pending', a) != At(pending, a)
    ensures a !in locals && L.Len(pending, a) > slots
  {
    assert L.FairAt(pending, pending', locals, m, a);
    assert L.CutTo(At(pending, a), At(pending', a));
    L.CutNothing(At(pending, a));
  }

  /** Demotion takes only what is not usable. */
  lemma DemotionLoses(v: View, v': View, c: Config, s: Strain)
    requires v.Shape() && DemotedTo(v, v')
    ensures LostWithCause(v.all, v'.all, v.head, v.locals, c, s, [])
  {
    hide Staying, Returning, Usable, Fits, ListOk, Squeezed, BeatsKept;
    forall t | Live(t, v.all) && !Live(t, v'.all) ensures !Fits(v.head, t) {
      var a := t.sender.value;
      assert Ok(v.all, v.pending, v.queue, a) && Ok(v'.all, v'.pending, v'.queue, a);
      assert DemotedAt(v.pending, v.queue, v'.pending, v'.queue, v.head, a);
      DemotionLoss(At(v.pending, a), At(v.queue, a), v.head, a, t);
    }
  }

  lemma DemotionLoss(p: ByNonce, q: ByNonce, head: Head, a: Address, t: Tx)
    requires p.Keys !! q.Keys && t.sender == Some(a)
    requires !Has(Staying(p, head, a), t) && !Has(q + Returning(p, head, a), t) && (Has(p, t) || Has(q, t))
    ensures Has(p, t) && !Fits(head, t)
  {
    hide Staying, Fits;
    DemotionPartitions(p, head, a);
    if Has(p, t) {
      UsableAre(p, head, a, t);
    }
  }

  // What the steps take.

  lemma CrowdGrows(all: All, before: All, txs: seq<Tx>, some: seq<Tx>)
    requires HashKeyed(all) && forall t :: Live(t, all) ==> Live(t, before) || t in txs
    requires forall t :: t in some ==> t in txs
    ensures Crowd(all, some) <= Crowd(before, txs)
  {
    forall h | h in Crowd(all, some) ensures h in Crowd(before, txs) {
      if h in all {
        assert Live(h.preimage, all);
        assert h.preimage in txs ==> h.preimage.Hash() in Hashes(txs);
      } else {
        assert h.preimage in some;
        assert h.preimage.Hash() in Hashes(txs);
      }
    }
  }

  /** What the limits met in the course of a batch. */
  ghost function BatchStrain(v: View, txs: seq<Tx>, b: Batch): Strain
    requires |b.answers| == |txs| == |b.views| - 1
  {
    Strain(Crowd(v.all, txs), if Dirty(txs, b.answers) == {} then [] else [Round(b.views[|txs|].queue, b.mid.pending, b.mid.queue)])
  }

  lemma {:induction false} ChainedLoses(txs: seq<Tx>, local: bool, views: seq<View>, rooms: seq<View>, answers: seq<AddResult>, c: Config, i: nat, j: nat)
    requires Chained(txs, local, views, rooms, answers, c) && views[0].Shape() && i <= j <= |txs|
    ensures LostWithCause(views[i].all, views[j].all, views[0].head, views[0].locals, c, Strain(Crowd(views[0].all, txs), []), txs)
    decreases j - i
  {
    hide AddedTo, Shaped, LostWithCause, Squeezed, Crowd;
    var s := Strain(Crowd(views[0].all, txs), []);
    if i == j {
      LostNothing(views[i].all, views[0].head, views[0].locals, c, s, txs);
    } else {
      ChainedLoses(txs, local, views, rooms, answers, c, i, j - 1);
      ChainedLive(txs, local, views, rooms, answers, c, j - 1);
      var v, tx := views[j - 1], txs[j - 1];
      assert AddedTo(v, tx, local, answers[j - 1], rooms[j - 1], views[j - 1 + 1], c);
      AddedLoses(v, tx, local, answers[j - 1], rooms[j - 1], views[j], c);
      assert tx in txs && forall t :: t in txs[..j - 1] ==> t in txs;
      assert HashKeyed(v.all) by { KeyedView(v); }
      CrowdGrows(v.all, views[0].all, txs, [tx]);
      LostTrans(views[i].all, v.all, views[j].all, v.head, views[0].locals, v.locals, c, s, Strain(Crowd(v.all, [tx]), []), s, txs, [tx], txs);
    }
  }

  lemma KeyedView(v: View)
    requires v.Shape()
    ensures HashKeyed(v.all)
  {
  }

  /** addTxs loses a usable transaction only to the limits of its account or the pool, or to
      a dearer one of the batch at its nonce. */
  lemma BatchLoses(v: View, txs: seq<Tx>, local: bool, now: int, b: Batch, c: Config)
    requires v.Shape() && BatchStep(v, txs, local, now, b, c)
    ensures LostWithCause(v.all, b.last.all, v.head, v.locals, c, BatchStrain(v, txs, b), txs)
  {
    ChainedLoses(txs, local, b.views, b.rooms, b.answers, c, 0, |txs|);
    BatchLosesFrom(v, txs, local, now, b, c, 0, v.all);
  }

  /** The same for what was pooled after the first `i` transactions. */
  lemma BatchLosesFrom(v: View, txs: seq<Tx>, local: bool, now: int, b: Batch, c: Config, i: nat, from: All)
    requires v.Shape() && BatchStep(v, txs, local, now, b, c) && i <= |txs| && from == b.views[i].all
    ensures LostWithCause(from, b.last.all, v.head, v.locals, c, BatchStrain(v, txs, b), txs)
  {
    hide AddedTo, PromotedTo, TruncatedTo, Shaped, LostWithCause, Squeezed, Crowd;
    ChainedLoses(txs, local, b.views, b.rooms, b.answers, c, i, |txs|);
    var end, s, dirty := b.views[|txs|], BatchStrain(v, txs, b), Dirty(txs, b.answers);
    if dirty != {} {
      ChainedLive(txs, local, b.views, b.rooms, b.answers, c, |txs|);
      assert txs[..|txs|] == txs;
      assert HashKeyed(end.all) by { KeyedView(end); }
      CrowdGrows(end.all, v.all, txs, []);
      CutsLose(end, dirty, now, b.mid, b.m, b.last, c);
      var r := Strain(end.all.Keys, [Round(end.queue, b.mid.pending, b.mid.queue)]);
      assert Milder(r, s) by { CrowdOfNone(end.all); }
      LostTrans(from, end.all, b.last.all, v.head, v.locals, end.locals, c, Strain(Crowd(v.all, txs), []),
                r, s, txs, [], txs);
    }
  }

  lemma CrowdOfNone(all: All)
    ensures Crowd(all, []) == all.Keys
  {
    assert Hashes([]) == {};
  }

  lemma CutsLose(v: View, accounts: set<Address>, now: int, mid: View, m: nat, v': View, c: Config)
    requires v.Shape() && PromotedTo(v, accounts, now, mid, c) && TruncatedTo(mid, m, v', c)
    ensures LostWithCause(v.all, v'.all, v.head, v.locals, c, Strain(v.all.Keys, [Round(v.queue, mid.pending, mid.queue)]), [])
  {
    hide TruncatedTo, LostWithCause, Squeezed, PromotedAt, Untouched, BeatsNoted, Shaped;
    PromotionLoses(v, accounts, now, mid, c);
    TruncationLoses(mid, m, v', c, v.queue);
    var r, s := Strain({}, [Round(v.queue, mid.pending, mid.queue)]), Strain(v.all.Keys, [Round(v.queue, mid.pending, mid.queue)]);
    LostTrans(v.all, mid.all, v'.all, v.head, v.locals, v.locals, c, r, r, s, [], [], []);
  }

  lemma AnswersCount(v: View, txs: seq<Tx>, local: bool, now: int, b: Batch, c: Config)
    requires BatchStep(v, txs, local, now, b, c)
    ensures |b.answers| == |txs| == |b.views| - 1
  {
  }

  /** What the limits met in the course of a reset. */
  ghost function ResetStrain(v: View, reinject: seq<Tx>, s: Moves): Strain
    requires |s.batch.answers| == |reinject| == |s.batch.views| - 1
  {
    var b := BatchStrain(v, reinject, s.batch);
    Strain(b.crowd, b.rounds + [Round(s.realigned.queue, s.mid.pending, s.mid.queue)])
  }

  /** What was pooled after the batch is lost only with a cause. */
  lemma RealignLoses(v: View, head: Head, reinject: seq<Tx>, now: int, s: Moves, c: Config)
    requires v.Shape() && ResetStep(v, head, reinject, now, s, c)
    ensures LostWithCause(s.batch.last.all, s.last.all, head, v.locals, c, ResetStrain(v, reinject, s), [])
  {
    hide BatchStep, DemotedTo, PromotedTo, TruncatedTo, LostWithCause, Squeezed, Shaped, Crowd;
    AnswersCount(v.(head := head, virtuals := map[]), reinject, false, now, s.batch, c);
    var v0, last, strain := v.(head := head, virtuals := map[]), s.batch.last, ResetStrain(v, reinject, s);
    BatchFits(v0, reinject, false, now, s.batch, c);
    DemotionLoses(last, s.demoted, c, strain);
    DemotedKeeps(last, s.demoted, c);
    assert s.demoted.Shape() by { DemotedShape(last, s.demoted); }
    CutsLose(s.realigned, s.realigned.queue.Keys, now, s.mid, s.m, s.last, c);
    var r := Strain(s.realigned.all.Keys, [Round(s.realigned.queue, s.mid.pending, s.mid.queue)]);
    assert HashKeyed(s.demoted.all) by { KeyedView(s.demoted); }
    CrowdGrows(s.demoted.all, v.all, reinject, []);
    CrowdOfNone(s.demoted.all);
    LostTrans(last.all, s.demoted.all, s.last.all, head, v.locals, v.locals, c, strain, r, strain, [], [], []);
  }

  lemma DemotedShape(v: View, v': View)
    requires DemotedTo(v, v')
    ensures v'.Shape()
  {
  }

  /** A reset loses a transaction that the new state could execute only to the limits of its
      account or the pool, or to a dearer reinjected one at its nonce. */
  lemma ResetLoses(v: View, head: Head, reinject: seq<Tx>, now: int, s: Moves, c: Config)
    requires v.Shape() && ResetStep(v, head, reinject, now, s, c)
    ensures LostWithCause(v.all, s.last.all, head, v.locals, c, ResetStrain(v, reinject, s), reinject)
  {
    hide BatchStep, LostWithCause, Squeezed, Shaped, DemotedTo, PromotedTo, TruncatedTo, BatchStrain;
    AnswersCount(v.(head := head, virtuals := map[]), reinject, false, now, s.batch, c);
    var v0, strain := v.(head := head, virtuals := map[]), ResetStrain(v, reinject, s);
    BatchLoses(v0, reinject, false, now, s.batch, c);
    StrainSame(v, v0, reinject, s.batch);
    RealignLoses(v, head, reinject, now, s, c);
    LostTrans(v.all, s.batch.last.all, s.last.all, head, v.locals, v.locals, c, BatchStrain(v, reinject, s.batch), strain, strain, reinject, [], reinject);
  }

  lemma StrainSame(v: View, v0: View, txs: seq<Tx>, b: Batch)
    requires v0.all == v.all && |b.answers| == |txs| == |b.views| - 1
    ensures BatchStrain(v0, txs, b) == BatchStrain(v, txs, b)
  {
  }

  // What becomes of the transactions given.

  /** A transaction that was given to the pool is in it, or it was objectionable, squeezed
      out, or its nonce was contested. */
  ghost predicate Answered(v: View, t: Tx, local: bool, after: All, c: Config, s: Strain, txs: seq<Tx>) {
    Live(t, after) || v.Objection(t, local).Some? || Squeezed(v.locals, c, s, t) || Contested(v.all, txs, t)
  }

  ghost predicate AllAnswered(v: View, local: bool, after: All, c: Config, s: Strain, txs: seq<Tx>) {
    forall t :: t in txs ==> Answered(v, t, local, after, c, s, txs)
  }

  /** What was pooled for a while and could be executed is lost only for such a reason. */
  lemma StaysAnswered(v: View, t: Tx, local: bool, pooled: All, after: All, c: Config, s: Strain, txs: seq<Tx>, some: seq<Tx>)
    requires LostWithCause(pooled, after, v.head, v.locals, c, s, some) && Live(t, pooled) && forall u :: u in some ==> u in txs
    ensures Answered(v, t, local, after, c, s, txs)
  {
    hide FirstObjection, Squeezed, Fits;
    if !Live(t, after) && v.Objection(t, local).None? {
      AdmissibleFits(v, t, local);
      if Outbid(some, c.priceBump, t) {
        var r :| r in some && r.sender == t.sender && r.nonce == t.nonce && r.price > t.price && 100 * r.price > t.price * (100 + c.priceBump) - 100;
        assert r != t;
      }
    }
  }

  lemma SameObjection(v: View, v': View, t: Tx, local: bool)
    requires v'.head == v.head && v'.gasPrice == v.gasPrice && v'.homestead == v.homestead && (local || v'.locals == v.locals)
    ensures v'.Objection(t, local) == v.Objection(t, local)
  {
  }

  /** Turned away by a full pool. */
  lemma TurnedAwaySqueezed(v: View, v': View, t: Tx, local: bool, c: Config, txs: seq<Tx>)
    requires TurnedAway(v', t, local, c) && t.sender.Some? && !Live(t, v'.all) && t in txs && v.locals <= v'.locals && HashKeyed(v'.all)
    requires forall u :: Live(u, v'.all) ==> Live(u, v.all) || u in txs
    ensures Squeezed(v.locals, c, Strain(Crowd(v.all, txs), []), t)
  {
    CrowdGrows(v'.all, v.all, txs, [t]);
    assert t.Hash() in Hashes([t]) by { assert t in [t]; }
    assert v'.all.Keys + {t.Hash()} <= Crowd(v.all, txs);
    L.SubsetSize(v'.all.Keys + {t.Hash()}, Crowd(v.all, txs));
  }

  /** Refused because another one holds the nonce. */
  lemma RefusedContested(v: View, tx: Tx, room: View, c: Config, before: All, txs: seq<Tx>)
    requires v.Shape() && RoomFor(v, room, c) && tx.sender.Some? && !Live(tx, v.all)
    requires Placement(room.pending, room.queue, tx, c.priceBump).Rejected?
    requires forall u :: Live(u, v.all) ==> Live(u, before) || u in txs
    ensures Contested(before, txs, tx)
  {
    RoomShape(v, room, c);
    var a := tx.sender.value;
    assert Ok(room.all, room.pending, room.queue, a);
    var p, q := At(room.pending, a), At(room.queue, a);
    var u := if tx.nonce in p then p[tx.nonce] else q[tx.nonce];
    assert Has(p, u) || Has(q, u);
    assert Live(u, room.all) && u != tx;
  }

  lemma AddAnswers(v: View, txs: seq<Tx>, local: bool, now: int, b: Batch, c: Config, i: nat)
    requires v.Shape() && BatchStep(v, txs, local, now, b, c) && i < |txs|
    ensures Answered(v, txs[i], local, b.last.all, c, BatchStrain(v, txs, b), txs)
  {
    hide PromotedTo, TruncatedTo, Shaped, FirstObjection, Squeezed, Contested, Placement, RoomFor, PlacedIn, TurnedAway, LostWithCause, Crowd;
    var w, t, r, room := b.views[i], txs[i], b.answers[i], b.rooms[i];
    ChainedLive(txs, local, b.views, b.rooms, b.answers, c, i);
    assert forall u :: u in txs[..i] ==> u in txs;
    assert AddedTo(w, t, local, r, room, b.views[i + 1], c);
    SameObjection(v, w, t, local);
    var s := BatchStrain(v, txs, b);
    if Live(t, w.all) {
      BatchLosesFrom(v, txs, local, now, b, c, i, w.all);
      StaysAnswered(v, t, local, w.all, b.last.all, c, s, txs, txs);
    } else if w.Objection(t, local).None? {
      AdmissibleFits(w, t, local);
      if TurnedAway(w, t, local, c) {
        assert HashKeyed(w.all) by { KeyedView(w); }
        TurnedAwaySqueezed(v, w, t, local, c, txs);
        SqueezedMore(v.locals, v.locals, c, Strain(Crowd(v.all, txs), []), s, t);
      } else if r.Rejected? {
        RefusedContested(w, t, room, c, v.all, txs);
      } else {
        RoomShape(w, room, c);
        assert Live(t, b.views[i + 1].all) by { PlacedIsLive(room, t, local, r, b.views[i + 1]); }
        BatchLosesFrom(v, txs, local, now, b, c, i + 1, b.views[i + 1].all);
        StaysAnswered(v, t, local, b.views[i + 1].all, b.last.all, c, s, txs, txs);
      }
    }
  }

  lemma PlacedIsLive(room: View, tx: Tx, local: bool, r: AddResult, v': View)
    requires tx.sender.Some? && PlacedIn(room, tx, local, r, v') && r.Accepted?
    ensures Live(tx, v'.all)
  {
    var a := tx.sender.value;
    assert Ok(v'.all, v'.pending, v'.queue, a);
    assert Has(At(v'.pending, a), tx) || Has(At(v'.queue, a), tx);
  }

  /** Every transaction of a batch is answered. */
  lemma BatchAnswers(v: View, txs: seq<Tx>, local: bool, now: int, b: Batch, c: Config)
    requires v.Shape() && BatchStep(v, txs, local, now, b, c)
    ensures AllAnswered(v, local, b.last.all, c, BatchStrain(v, txs, b), txs)
  {
    hide BatchStep, Answered;
    AnswersCount(v, txs, local, now, b, c);
    forall t | t in txs ensures Answered(v, t, local, b.last.all, c, BatchStrain(v, txs, b), txs) {
      var i :| 0 <= i < |txs| && txs[i] == t;
      AddAnswers(v, txs, local, now, b, c, i);
    }
  }

  /** So is every reinjected one. */
  lemma ResetAnswers(v: View, head: Head, reinject: seq<Tx>, now: int, s: Moves, c: Config)
    requires v.Shape() && ResetStep(v, head, reinject, now, s, c)
    ensures AllAnswered(v.(head := head), false, s.last.all, c, ResetStrain(v, reinject, s), reinject)
  {
    hide BatchStep, DemotedTo, PromotedTo, TruncatedTo, LostWithCause, Squeezed, Contested, FirstObjection, BatchStrain, Shaped;
    AnswersCount(v.(head := head, virtuals := map[]), reinject, false, now, s.batch, c);
    var v0, w, strain := v.(head := head, virtuals := map[]), v.(head := head), ResetStrain(v, reinject, s);
    BatchAnswers(v0, reinject, false, now, s.batch, c);
    StrainSame(v, v0, reinject, s.batch);
    RealignLoses(v, head, reinject, now, s, c);
    forall t | t in reinject ensures Answered(w, t, false, s.last.all, c, strain, reinject) {
      assert Answered(v0, t, false, s.batch.last.all, c, BatchStrain(v, reinject, s.batch), reinject);
      if Live(t, s.batch.last.all) {
        StaysAnswered(w, t, false, s.batch.last.all, s.last.all, c, strain, reinject, []);
      } else if Squeezed(v.locals, c, BatchStrain(v, reinject, s.batch), t) {
        SqueezedMore(v.locals, v.locals, c, BatchStrain(v, reinject, s.batch), strain, t);
      }
    }
  }

  // Adding one transaction while every limit is far.

  /** No limit is met by a pool of one transaction more. */
  ghost predicate Roomy(all: All, c: Config) {
    |all| + 1 <= c.accountQueue && |all| + 1 <= c.globalSlots && |all| + 1 <= c.globalQueue
  }

  lemma NotSqueezed(v: View, tx: Tx, local: bool, now: int, b: Batch, c: Config, t: Tx)
    requires v.Shape() && BatchStep(v, [tx], local, now, b, c) && Roomy(v.all, c)
    ensures |b.answers| == 1 == |b.views| - 1 && !Squeezed(v.locals, c, BatchStrain(v, [tx], b), t)
  {
    hide BatchStep, Shaped, L.Total;
    AnswersCount(v, [tx], local, now, b, c);
    assert |Crowd(v.all, [tx])| <= |v.all| + 1 by { CrowdOfOne(v.all, tx); }
    if Dirty([tx], b.answers) != {} {
      RoundWithin(v, tx, local, now, b, c);
      if t.sender.Some? {
        L.TotalWithout(b.views[1].queue, t.sender.value);
      }
    }
  }

  lemma CrowdOfOne(all: All, tx: Tx)
    ensures Crowd(all, [tx]) == all.Keys + {tx.Hash()} && |Crowd(all, [tx])| <= |all| + 1
  {
    assert Hashes([tx]) == {tx.Hash()};
  }

  lemma RoundWithin(v: View, tx: Tx, local: bool, now: int, b: Batch, c: Config)
    requires v.Shape() && BatchStep(v, [tx], local, now, b, c) && |b.answers| == 1 && Dirty([tx], b.answers) != {}
    ensures |b.views| == 2 && L.Total(b.views[1].queue) <= |v.all| + 1
    ensures L.Total(b.mid.pending) + L.Total(b.mid.queue) <= |v.all| + 1
  {
    hide AddedTo, PromotedAt, Untouched, BeatsNoted, TruncatedTo, Shaped, L.Total;
    ChainedLive([tx], local, b.views, b.rooms, b.answers, c, 1);
    assert [tx][..1] == [tx];
    var end := b.views[1];
    L.SizeIsTotal(end.all, end.pending, end.queue);
    L.SizeIsTotal(b.mid.all, b.mid.pending, b.mid.queue);
    L.GrownPool(v.all, end.all, tx);
    L.SmallerPool(end.all, b.mid.all);
  }

  /** An admissible transaction at a nonce of its own just enters. */
  lemma RoomyAdd(v: View, tx: Tx, local: bool, now: int, b: Batch, c: Config)
    requires v.Shape() && AllFit(v.all, v.head) && BatchStep(v, [tx], local, now, b, c) && Roomy(v.all, c)
    requires v.Objection(tx, local).None? && !Live(tx, v.all)
    requires forall u :: Live(u, v.all) ==> u.sender != tx.sender || u.nonce != tx.nonce
    ensures b.last.all == v.all[tx.Hash() := tx] && b.answers == [Accepted(false)]
  {
    hide BatchStep, FirstObjection, AllFit, Shaped;
    FirstAnswer(v, tx, local, now, b, c);
    BatchFits(v, [tx], local, now, b, c);
    forall t ensures Live(t, b.last.all) <==> t == tx || Live(t, v.all) {
      RoomyAddAt(v, tx, local, now, b, c, t);
    }
    KeyedView(v);
    KeyedView(b.last);
    SameHashes(b.last.all, v.all[tx.Hash() := tx]);
  }

  lemma RoomyAddAt(v: View, tx: Tx, local: bool, now: int, b: Batch, c: Config, t: Tx)
    requires v.Shape() && AllFit(v.all, v.head) && BatchStep(v, [tx], local, now, b, c) && Roomy(v.all, c)
    requires v.Objection(tx, local).None?
    requires forall u :: Live(u, v.all) ==> u.sender != tx.sender || u.nonce != tx.nonce
    ensures Live(t, b.last.all) <==> t == tx || Live(t, v.all)
  {
    hide BatchStep, FirstObjection, Shaped, Squeezed, BatchStrain, Fits;
    BatchFits(v, [tx], local, now, b, c);
    NotSqueezed(v, tx, local, now, b, c, t);
    if t == tx {
      BatchAnswers(v, [tx], local, now, b, c);
      assert tx in [tx];
      assert Answered(v, tx, local, b.last.all, c, BatchStrain(v, [tx], b), [tx]);
    } else {
      BatchLoses(v, [tx], local, now, b, c);
    }
  }

  lemma SameHashes(all: All, all': All)
    requires HashKeyed(all) && HashKeyed(all') && forall t :: Live(t, all) <==> Live(t, all')
    ensures all == all'
  {
    forall h ensures h in all <==> h in all' {
      assert h == h.preimage.Hash();
      assert Live(h.preimage, all) <==> Live(h.preimage, all');
    }
  }

  lemma FirstAnswer(v: View, tx: Tx, local: bool, now: int, b: Batch, c: Config)
    requires v.Shape() && BatchStep(v, [tx], local, now, b, c) && |v.all| < Limit(c)
    requires v.Objection(tx, local).None? && !Live(tx, v.all)
    requires forall u :: Live(u, v.all) ==> u.sender != tx.sender || u.nonce != tx.nonce
    ensures b.answers == [Accepted(false)]
  {
    hide FirstObjection, PromotedTo, TruncatedTo, PlacedIn;
    assert AddedTo(v, [tx][0], local, b.answers[0], b.rooms[0], b.views[0 + 1], c);
    AdmissibleFits(v, tx, local);
    var a := tx.sender.value;
    assert Ok(v.all, v.pending, v.queue, a);
    var p, q := At(v.pending, a), At(v.queue, a);
    assert tx.nonce in p ==> Has(p, p[tx.nonce]);
    assert tx.nonce in q ==> Has(q, q[tx.nonce]);
  }
}
