/** What the steps of the pool keep, account by account: synchrony of lists and virtual
    nonces, and when a new chain head restores it. */
module PoolFacts {
  import opened Nonces
  import opened Transactions
  import opened Wrappers
  import opened SortedMap
  import opened AccountLists
  import opened PricedLists
  import opened PoolState
  import opened PoolSync
  import opened PoolMoves
  import opened PoolSteps
  import L = PoolLimits

  // Synchrony under the single moves.

  /** Whatever leaves the pool, a run stays a run with nothing executable above it. */
  lemma StandingSync(p: ByNonce, q: ByNonce, state: nat, v: nat, all: All)
    ensures Loose(p, q, state, v) ==> Loose(Standing(p, all), Fallen(p, q, all), state, L.Low(v, Dead(p, all)))
    ensures Synced(p, q, state, v) ==> Synced(Standing(p, all), Fallen(p, q, all), state, L.Low(v, Dead(p, all)))
  {
    if Loose(p, q, state, v) && Dead(p, all) != {} {
      var m := Min(Dead(p, all));
      assert m in p && state <= m < v && !Live(p[m], all);
      assert forall n :: n in Fallen(p, q, all) ==> n in q || (n in p && n > m);
    }
  }

  lemma StandingUnbroken(p: ByNonce, q: ByNonce, all: All)
    requires Unbroken(p, q)
    ensures Unbroken(Standing(p, all), Fallen(p, q, all))
  {
    if p != map[] {
      var lo := Min(p.Keys);
      StandingSync(p, q, lo, lo + |p|, all);
      hide Standing, Fallen, Dead;
      RunIsUnbroken(Standing(p, all), Fallen(p, q, all), lo, L.Low(lo + |p|, Dead(p, all)));
    } else {
      assert Standing(p, all) == map[];
    }
  }

  lemma WithdrawnSyncs(v: View, v': View, a: Address)
    requires Withdrawn(v, v')
    ensures v.LooseAt(a) ==> v'.LooseAt(a)
    ensures v.SyncedAt(a) ==> v'.SyncedAt(a)
    ensures v.UnbrokenAt(a) ==> v'.UnbrokenAt(a)
  {
    hide Loose, Synced, Unbroken, Standing, Fallen, Dead, Shaped, BeatsKept;
    assert WithdrawnIn(v, v', a);
    StandingSync(At(v.pending, a), At(v.queue, a), v.head.Nonce(a), v.Virtual(a), v'.all);
    if v.UnbrokenAt(a) {
      StandingUnbroken(At(v.pending, a), At(v.queue, a), v'.all);
    }
  }

  lemma RoomSyncs(v: View, room: View, c: Config, a: Address)
    requires RoomFor(v, room, c)
    ensures v.LooseAt(a) ==> room.LooseAt(a)
    ensures v.SyncedAt(a) ==> room.SyncedAt(a)
    ensures v.UnbrokenAt(a) ==> room.UnbrokenAt(a)
  {
    hide Loose, Synced, Unbroken, Withdrawn;
    if |v.all| >= Limit(c) {
      WithdrawnSyncs(v, room, a);
    }
  }

  /** Only the sender's lists change, and only a new queued nonce can be executable. */
  lemma PlacedSyncs(room: View, tx: Tx, local: bool, r: AddResult, v': View, c: Config, a: Address)
    requires tx.sender.Some? && PlacedIn(room, tx, local, r, v') && r == Placement(room.pending, room.queue, tx, c.priceBump)
    requires room.head.Nonce(tx.sender.value) <= tx.nonce
    ensures room.LooseAt(a) ==> v'.LooseAt(a)
    ensures room.SyncedAt(a) && !(r == Accepted(false) && tx.sender == Some(a)) ==> v'.SyncedAt(a)
    ensures room.UnbrokenAt(a) && tx.sender != Some(a) ==> v'.UnbrokenAt(a)
  {
    hide Shaped;
    var b := tx.sender.value;
    if a != b {
      Elsewhere(room.pending, v'.pending, b, a);
      Elsewhere(room.queue, v'.queue, b, a);
    } else if r.Accepted? && tx.nonce !in At(room.pending, a) && room.LooseAt(a) {
      InsertionSync(At(room.pending, a), At(room.queue, a), tx, room.head.Nonce(a), room.Virtual(a));
    }
  }

  lemma AddedSyncs(v: View, tx: Tx, local: bool, r: AddResult, room: View, v': View, c: Config, a: Address)
    requires AddedTo(v, tx, local, r, room, v', c) && v.Shape()
    ensures v.LooseAt(a) ==> v'.LooseAt(a)
    ensures v.SyncedAt(a) && !(r == Accepted(false) && tx.sender == Some(a)) ==> v'.SyncedAt(a)
    ensures v.UnbrokenAt(a) && tx.sender != Some(a) ==> v'.UnbrokenAt(a)
  {
    hide Loose, Synced, Unbroken, RoomFor, PlacedIn, Placement, FirstObjection, Shaped;
    if v' != v {
      AdmissibleFits(v, tx, local);
      RoomShape(v, room, c);
      RoomSyncs(v, room, c, a);
      PlacedSyncs(room, tx, local, r, v', c, a);
    }
  }

  /** Promotion leaves nothing executable waiting. */
  lemma PromotedSyncs(v: View, accounts: set<Address>, now: int, v': View, c: Config, a: Address)
    requires PromotedTo(v, accounts, now, v', c)
    ensures a in accounts && v.LooseAt(a) ==> v'.SyncedAt(a)
    ensures a !in accounts && v.SyncedAt(a) ==> v'.SyncedAt(a)
    ensures a !in accounts && v.UnbrokenAt(a) ==> v'.UnbrokenAt(a)
    ensures a !in accounts ==> v'.Virtual(a) == v.Virtual(a) && At(v'.pending, a) == At(v.pending, a) && At(v'.queue, a) == At(v.queue, a)
  {
    hide Loose, Synced, Unbroken, PromotedAt, Shaped, BeatsNoted;
    if a in accounts {
      PromotedKeeps(v.pending, v.queue, v.virtuals, v'.pending, v'.queue, v'.virtuals, v.head, v.locals, c.accountQueue, a);
    } else {
      assert Untouched(v.pending, v.queue, v.virtuals, v'.pending, v'.queue, v'.virtuals, v.head, a);
    }
  }

  /** Cutting a run down to its lowest nonces leaves a run, with the virtual nonce behind it. */
  lemma TrimRun(p: ByNonce, v: nat, p': ByNonce, v': nat, lo: nat, hi: nat)
    requires L.TrimmedAt(p, v, p', v') && Run(p, lo, hi)
    ensures Run(p', lo, lo + |p'|) && lo + |p'| <= hi && (v == hi ==> v' == lo + |p'|)
  {
    L.CutKeeps(p, p');
    L.SubsetSize(p'.Keys, p.Keys);
    RunSize(p, lo, hi);
    CapKeepsRun(p, |p'|, lo, hi);
    var cut := p.Keys - p'.Keys;
    if cut != {} {
      assert forall n :: n in cut <==> lo + |p'| <= n < hi;
      assert Min(cut) < hi;
      assert lo + |p'| in cut;
    } else {
      assert p'.Keys == p.Keys;
      RunSize(p', lo, lo + |p'|);
    }
  }

  lemma TrimSync(p: ByNonce, q: ByNonce, v: nat, p': ByNonce, q': ByNonce, v': nat, state: nat)
    requires L.TrimmedAt(p, v, p', v') && forall n :: n in q' ==> n in q
    ensures Synced(p, q, state, v) ==> Synced(p', q', state, v')
    ensures Unbroken(p, q) ==> Unbroken(p', q')
  {
    hide L.TrimmedAt;
    if Synced(p, q, state, v) {
      TrimRun(p, v, p', v', state, v);
    }
    if Unbroken(p, q) && p != map[] {
      var lo := Min(p.Keys);
      TrimRun(p, v, p', v', lo, lo + |p|);
      RunIsUnbroken(p', q', lo, lo + |p'|);
    }
    if p == map[] {
      TrimRun(p, v, p', v', 0, 0);
      assert p' == map[];
    }
  }

  lemma TruncatedSyncs(v: View, m: nat, v': View, c: Config, a: Address)
    requires TruncatedTo(v, m, v', c)
    ensures v.SyncedAt(a) ==> v'.SyncedAt(a)
    ensures v.UnbrokenAt(a) ==> v'.UnbrokenAt(a)
  {
    hide Synced, Unbroken, L.TrimmedAt, Shaped, L.Fair, L.NewestFirst, L.Total;
    assert L.TrimmedAt(At(v.pending, a), v.Virtual(a), At(v'.pending, a), v'.Virtual(a));
    assert L.CutTo(At(v.queue, a), At(v'.queue, a));
    L.CutKeeps(At(v.queue, a), At(v'.queue, a));
    TrimSync(At(v.pending, a), At(v.queue, a), v.Virtual(a), At(v'.pending, a), At(v'.queue, a), v'.Virtual(a), v.head.Nonce(a));
  }

  // Synchrony under a batch.

  lemma {:induction false} ChainedSyncs(txs: seq<Tx>, local: bool, views: seq<View>, rooms: seq<View>, answers: seq<AddResult>, c: Config, i: nat, a: Address)
    requires Chained(txs, local, views, rooms, answers, c) && views[0].Shape() && i <= |txs|
    ensures views[0].LooseAt(a) ==> views[i].LooseAt(a)
    ensures views[0].SyncedAt(a) && a !in Dirty(txs, answers) ==> views[i].SyncedAt(a)
    ensures views[0].UnbrokenAt(a) && (forall t :: t in txs ==> t.sender != Some(a)) ==> views[i].UnbrokenAt(a)
  {
    hide AddedTo, Shaped, Synced, Loose, Unbroken;
    if i > 0 {
      ChainedSyncs(txs, local, views, rooms, answers, c, i - 1, a);
      ChainedLive(txs, local, views, rooms, answers, c, i - 1);
      assert AddedTo(views[i - 1], txs[i - 1], local, answers[i - 1], rooms[i - 1], views[i - 1 + 1], c);
      AddedSyncs(views[i - 1], txs[i - 1], local, answers[i - 1], rooms[i - 1], views[i], c, a);
      assert txs[i - 1] in txs;
    }
  }

  /** addTxs keeps every account that is in sync in sync. */
  lemma BatchSyncs(v: View, txs: seq<Tx>, local: bool, now: int, b: Batch, c: Config, a: Address)
    requires v.Shape() && BatchStep(v, txs, local, now, b, c)
    ensures v.SyncedAt(a) ==> b.last.SyncedAt(a)
    ensures v.UnbrokenAt(a) && (forall t :: t in txs ==> t.sender != Some(a)) ==> b.last.UnbrokenAt(a)
  {
    hide AddedTo, PromotedTo, TruncatedTo, Shaped, Loose, Synced, Unbroken;
    var end, dirty := b.views[|txs|], Dirty(txs, b.answers);
    ChainedSyncs(txs, local, b.views, b.rooms, b.answers, c, |txs|, a);
    SyncedIsLoose(v.pending, v.queue, v.virtuals, v.head, a);
    if dirty != {} {
      PromotedSyncs(end, dirty, now, b.mid, c, a);
      TruncatedSyncs(b.mid, b.m, b.last, c, a);
      if a in dirty {
        var i :| 0 <= i < |txs| && b.answers[i] == Accepted(false) && txs[i].sender == Some(a);
        assert txs[i] in txs;
      }
    }
  }

  // Synchrony after a reset.

  /** The virtual nonce is not above the state nonce, or a payable transaction is pending there. */
  ghost predicate Grounded(v: View, a: Address) {
    var st, p := v.head.Nonce(a), At(v.pending, a);
    v.Virtual(a) <= st || (st in p && !Unpayable(p[st], v.head.Balance(a), v.head.gasLimit))
  }

  lemma ListsApart(v: View, a: Address)
    requires v.Shape()
    ensures At(v.pending, a).Keys !! At(v.queue, a).Keys
  {
    assert Ok(v.all, v.pending, v.queue, a);
  }

  lemma WithdrawnGrounds(v: View, v': View, a: Address)
    requires Withdrawn(v, v') && Grounded(v, a)
    ensures Grounded(v', a)
  {
    hide Shaped, BeatsKept, Fallen;
    assert WithdrawnIn(v, v', a);
    var st, p := v.head.Nonce(a), At(v.pending, a);
    if v.Virtual(a) > st && st !in Standing(p, v'.all) {
      assert Min(Dead(p, v'.all)) <= st;
    }
  }

  lemma AddedGrounds(v: View, tx: Tx, local: bool, r: AddResult, room: View, v': View, c: Config, a: Address)
    requires AddedTo(v, tx, local, r, room, v', c) && v.Shape() && Grounded(v, a)
    ensures Grounded(v', a)
  {
    hide FirstObjection, Shaped, Placement, Withdrawn;
    if v' != v {
      AdmissibleFits(v, tx, local);
      if |v.all| >= Limit(c) {
        WithdrawnGrounds(v, room, a);
      }
      RoomShape(v, room, c);
      if tx.sender.value != a {
        Elsewhere(room.pending, v'.pending, tx.sender.value, a);
      }
    }
  }

  lemma PromotedGrounds(v: View, accounts: set<Address>, now: int, v': View, c: Config, a: Address)
    requires PromotedTo(v, accounts, now, v', c) && v.Shape() && Grounded(v, a)
    ensures Grounded(v', a)
  {
    hide Shaped, BeatsNoted, Allowed, PromotedAt;
    if a in accounts {
      assert PromotedAt(v.pending, v.queue, v.virtuals, v'.pending, v'.queue, v'.virtuals, v.head, v.locals, c.accountQueue, a);
      ReadyGrounds(v, v', c, a);
    } else {
      assert Untouched(v.pending, v.queue, v.virtuals, v'.pending, v'.queue, v'.virtuals, v.head, a);
    }
  }

  lemma ReadyGrounds(v: View, v': View, c: Config, a: Address)
    requires PromotedAt(v.pending, v.queue, v.virtuals, v'.pending, v'.queue, v'.virtuals, v.head, v.locals, c.accountQueue, a)
    requires Grounded(v, a) && v'.head == v.head && v.Shape()
    ensures Grounded(v', a)
  {
    hide Shaped, Allowed;
    var st, w := v.head.Nonce(a), v.Virtual(a);
    var usable := Restrict(At(v.queue, a), Usable(At(v.queue, a), v.head, a));
    var run := ReadyRun(usable, w);
    ListsApart(v, a);
    if run != {} {
      var mn := Min(usable.Keys);
      assert mn in run && st <= mn <= w;
      assert w <= st ==> mn == st;
    }
  }

  lemma TruncatedGrounds(v: View, m: nat, v': View, c: Config, a: Address)
    requires TruncatedTo(v, m, v', c) && Grounded(v, a)
    ensures Grounded(v', a)
  {
    hide Shaped, L.Fair, L.NewestFirst, L.Total, L.KeepsLowest;
    var st, p, p' := v.head.Nonce(a), At(v.pending, a), At(v'.pending, a);
    assert L.TrimmedAt(p, v.Virtual(a), p', v'.Virtual(a));
    L.CutKeeps(p, p');
    if v.Virtual(a) > st && st !in p' {
      assert st in p.Keys - p'.Keys;
    }
  }

  lemma {:induction false} ChainedGrounds(txs: seq<Tx>, local: bool, views: seq<View>, rooms: seq<View>, answers: seq<AddResult>, c: Config, i: nat, a: Address)
    requires Chained(txs, local, views, rooms, answers, c) && views[0].Shape() && i <= |txs| && Grounded(views[0], a)
    ensures Grounded(views[i], a)
  {
    hide AddedTo, Shaped, Grounded;
    if i > 0 {
      ChainedGrounds(txs, local, views, rooms, answers, c, i - 1, a);
      ChainedLive(txs, local, views, rooms, answers, c, i - 1);
      assert AddedTo(views[i - 1], txs[i - 1], local, answers[i - 1], rooms[i - 1], views[i - 1 + 1], c);
      AddedGrounds(views[i - 1], txs[i - 1], local, answers[i - 1], rooms[i - 1], views[i], c, a);
    }
  }

  lemma BatchGrounds(v: View, txs: seq<Tx>, local: bool, now: int, b: Batch, c: Config, a: Address)
    requires v.Shape() && BatchStep(v, txs, local, now, b, c) && Grounded(v, a)
    ensures Grounded(b.last, a)
  {
    hide AddedTo, PromotedTo, TruncatedTo, Shaped, Grounded;
    ChainedGrounds(txs, local, b.views, b.rooms, b.answers, c, |txs|, a);
    ChainedLive(txs, local, b.views, b.rooms, b.answers, c, |txs|);
    if Dirty(txs, b.answers) != {} {
      PromotedGrounds(b.views[|txs|], Dirty(txs, b.answers), now, b.mid, c, a);
      TruncatedGrounds(b.mid, b.m, b.last, c, a);
    }
  }

  /** With the virtual nonce behind the demoted list, an account is loose if and only if the
      list had no hole and, if nothing of it stayed, the virtual nonce was the state nonce. */
  lemma RealignedLoose(p: ByNonce, q': ByNonce, head: Head, a: Address, v: nat)
    requires Staying(p, head, a).Keys !! q'.Keys
    ensures var p' := Staying(p, head, a);
            Loose(p', q', head.Nonce(a), Next(p', v)) <==> NoHole(p, head, a) && (p' != map[] || v == head.Nonce(a))
  {
    var p', st := Staying(p, head, a), head.Nonce(a);
    DemotionGapless(p, head, a);
    StayingFits(p, head, a);
    hide Staying, NoHole;
    if p' != map[] {
      var hi := Nonces.Max(p'.Keys) + 1;
      if Run(p', st, hi) {
        RunSize(p', st, hi);
      }
      if Run(p', st, st + |p'|) {
        assert st + |p'| - 1 in p' by { assert st in p'; }
        assert Nonces.Max(p'.Keys) == st + |p'| - 1;
      }
    } else {
      assert Run(p', st, st + |p'|);
      if Run(p', st, v) {
        assert st in p' <==> st <= st < v;
      }
    }
  }

  /** Promotion does not mend what is not in place. */
  lemma PromotionMendsNothing(p: ByNonce, q: ByNonce, v: nat, p': ByNonce, q': ByNonce, v': nat, state: nat)
    requires Promoted(p, q, v, p', q', v') && p.Keys !! q.Keys && forall n :: n in q ==> n >= state
    requires p != map[] ==> v == Nonces.Max(p.Keys) + 1
    requires p == map[] ==> v <= state
    ensures Run(p', state, v') ==> Run(p, state, v)
  {
    var run := ReadyRun(q, v);
    if Run(p', state, v') && run != {} {
      var mn := Min(q.Keys);
      var e := RunEnd(q.Keys, mn);
      assert mn in run && e - 1 in run;
      assert Nonces.Max(run) == e - 1;
      if p != map[] {
        assert v - 1 in p && v - 1 in p';
        assert mn == v;
        forall n ensures n in p <==> state <= n < v {
          assert n in p' <==> n in p || n in run;
        }
      } else {
        assert mn == state == v;
      }
    }
  }

  /** After the last promotion of a reset, an account is in sync if and only if its pending
      list had no hole when it was demoted and, if nothing of it stayed pending, the virtual
      nonce had not been lowered before. */
  lemma ResetSynced(v: View, head: Head, reinject: seq<Tx>, now: int, s: Moves, c: Config, a: Address)
    requires v.Shape() && ResetStep(v, head, reinject, now, s, c)
    ensures var last := s.batch.last;
            s.mid.SyncedAt(a) <==> NoHole(At(last.pending, a), head, a) && (At(s.demoted.pending, a) != map[] || last.Virtual(a) == head.Nonce(a))
    ensures if s.mid.SyncedAt(a) then s.last.SyncedAt(a) else !Run(At(s.mid.pending, a), head.Nonce(a), s.mid.Virtual(a))
  {
    hide Shaped, BatchStep, BeatsKept, BeatsNoted, PromotedAt, TruncatedTo, Synced, Loose, NoHole, Staying, Returning;
    var v0, last := v.(head := head, virtuals := map[]), s.batch.last;
    BatchFits(v0, reinject, false, now, s.batch, c);
    BatchGrounds(v0, reinject, false, now, s.batch, c, a);
    assert DemotedAt(last.pending, last.queue, s.demoted.pending, s.demoted.queue, head, a);
    ListsApart(s.demoted, a);
    RealignedLoose(At(last.pending, a), At(s.demoted.queue, a), head, a, last.Virtual(a));
    TruncatedSyncs(s.mid, s.m, s.last, c, a);
    if s.realigned.LooseAt(a) {
      LooseMends(s.realigned, now, s.mid, c, a);
    } else {
      GroundedStays(last, head, a);
      NotLooseStays(s.realigned, now, s.mid, c, a, last.Virtual(a));
    }
  }

  lemma LooseMends(v: View, now: int, v': View, c: Config, a: Address)
    requires PromotedTo(v, v.queue.Keys, now, v', c) && v.LooseAt(a)
    ensures v'.SyncedAt(a)
  {
    hide PromotedTo;
    PromotedSyncs(v, v.queue.Keys, now, v', c, a);
  }

  lemma GroundedStays(v: View, head: Head, a: Address)
    requires Grounded(v, a) && v.head == head
    ensures v.Virtual(a) <= head.Nonce(a) || Staying(At(v.pending, a), head, a) != map[]
  {
    if v.Virtual(a) > head.Nonce(a) {
      assert Funded(At(v.pending, a), head, a, head.Nonce(a));
      assert head.Nonce(a) in Staying(At(v.pending, a), head, a);
    }
  }

  lemma NotLooseStays(v: View, now: int, v': View, c: Config, a: Address, w: nat)
    requires PromotedTo(v, v.queue.Keys, now, v', c) && v.Shape() && !v.LooseAt(a)
    requires v.Virtual(a) == Next(At(v.pending, a), w) && (At(v.pending, a) == map[] ==> w <= v.head.Nonce(a))
    ensures !v'.SyncedAt(a) && !Run(At(v'.pending, a), v.head.Nonce(a), v'.Virtual(a))
  {
    hide Shaped, BeatsNoted, Promoted, Allowed, Usable;
    var p, q, st := At(v.pending, a), At(v.queue, a), v.head.Nonce(a);
    ListsApart(v, a);
    if a in v.queue {
      assert PromotedAt(v.pending, v.queue, v.virtuals, v'.pending, v'.queue, v'.virtuals, v.head, v.locals, c.accountQueue, a);
      var usable := Restrict(q, Usable(q, v.head, a));
      assert forall n :: n in usable ==> n >= st by { UsableFrom(q, v.head, a); }
      PromotionMendsNothing(p, usable, v.Virtual(a), At(v'.pending, a), usable - ReadyRun(usable, v.Virtual(a)), v'.Virtual(a), st);
      hide ReadyRun;
      RunIsLoose(p, q, st, v.Virtual(a));
    } else {
      assert Untouched(v.pending, v.queue, v.virtuals, v'.pending, v'.queue, v'.virtuals, v.head, a);
      RunIsLoose(p, q, st, v.Virtual(a));
    }
  }

  lemma UsableFrom(q: ByNonce, head: Head, a: Address)
    ensures forall n :: n in Usable(q, head, a) ==> n >= head.Nonce(a)
  {
  }

  lemma RunIsLoose(p: ByNonce, q: ByNonce, state: nat, v: nat)
    requires p.Keys !! q.Keys
    ensures Run(p, state, v) ==> Loose(p, q, state, v)
  {
  }

  /** An account in sync that sends no reinjected transaction stays in sync, unless an outdated
      pending transaction of it made room for others and nothing of it stayed pending. */
  lemma ResetKeepsSync(v: View, head: Head, reinject: seq<Tx>, now: int, s: Moves, c: Config, a: Address)
    requires v.Shape() && ResetStep(v, head, reinject, now, s, c)
    requires v.SyncedAt(a) && forall t :: t in reinject ==> t.sender != Some(a)
    ensures s.last.SyncedAt(a) <==> At(s.demoted.pending, a) != map[] || s.batch.last.Virtual(a) == head.Nonce(a)
  {
    var v0 := v.(head := head, virtuals := map[]);
    SyncedIsUnbroken(At(v.pending, a), At(v.queue, a), v.head.Nonce(a), v.Virtual(a));
    hide Shaped, BatchStep, PromotedTo, TruncatedTo, Synced, Loose, NoHole, Unbroken;
    BatchSyncs(v0, reinject, false, now, s.batch, c, a);
    BatchFits(v0, reinject, false, now, s.batch, c);
    UnbrokenNoHole(At(s.batch.last.pending, a), At(s.batch.last.queue, a), head, a);
    ResetSynced(v, head, reinject, now, s, c, a);
    if !s.mid.SyncedAt(a) {
      BatchGrounds(v0, reinject, false, now, s.batch, c, a);
      StaysUnsynced(s.batch.last, s.demoted, s.realigned, now, s.mid, s.m, s.last, c, a);
    }
  }

  lemma UnbrokenNoHole(p: ByNonce, q: ByNonce, head: Head, a: Address)
    requires Unbroken(p, q)
    ensures NoHole(p, head, a)
  {
  }

  lemma StaysUnsynced(v: View, demoted: View, realigned: View, now: int, mid: View, m: nat, v': View, c: Config, a: Address)
    requires DemotedTo(v, demoted) && RealignedTo(demoted, realigned) && PromotedTo(realigned, realigned.queue.Keys, now, mid, c)
    requires TruncatedTo(mid, m, v', c) && Grounded(v, a) && At(demoted.pending, a) == map[] && v.Virtual(a) != v.head.Nonce(a)
    ensures !v'.SyncedAt(a)
  {
    hide Shaped, BeatsKept, BeatsNoted, L.Fair, L.NewestFirst, L.Total, L.KeepsLowest, L.CutTo, PromotedAt, Returning;
    assert DemotedAt(v.pending, v.queue, demoted.pending, demoted.queue, v.head, a);
    GroundedStays(v, v.head, a);
    assert realigned.Virtual(a) == v.Virtual(a) < v.head.Nonce(a);
    assert mid.Virtual(a) == v.Virtual(a) && At(mid.pending, a) == map[] by { NothingReady(realigned, now, mid, c, a); }
    assert L.TrimmedAt(At(mid.pending, a), mid.Virtual(a), At(v'.pending, a), v'.Virtual(a));
  }

  lemma NothingReady(v: View, now: int, v': View, c: Config, a: Address)
    requires PromotedTo(v, v.queue.Keys, now, v', c) && At(v.pending, a) == map[] && v.Virtual(a) < v.head.Nonce(a)
    ensures v'.Virtual(a) == v.Virtual(a) && At(v'.pending, a) == map[]
  {
    hide Shaped, BeatsNoted, Allowed;
    if a in v.queue {
      assert PromotedAt(v.pending, v.queue, v.virtuals, v'.pending, v'.queue, v'.virtuals, v.head, v.locals, c.accountQueue, a);
      var usable := Restrict(At(v.queue, a), Usable(At(v.queue, a), v.head, a));
      assert usable == map[] || Min(usable.Keys) >= v.head.Nonce(a);
    } else {
      assert Untouched(v.pending, v.queue, v.virtuals, v'.pending, v'.queue, v'.virtuals, v.head, a);
    }
  }

  /** Nothing is lowered while pending stays below its limit: every account in sync that sends
      no reinjected transaction then stays in sync. */
  lemma RoomyReset(v: View, head: Head, reinject: seq<Tx>, now: int, s: Moves, c: Config, a: Address)
    requires v.Shape() && ResetStep(v, head, reinject, now, s, c) && (reinject == [] || |v.all| + |reinject| <= c.globalSlots)
    requires v.SyncedAt(a) && forall t :: t in reinject ==> t.sender != Some(a)
    ensures s.last.SyncedAt(a)
  {
    hide Shaped, BatchStep, PromotedTo, TruncatedTo, DemotedTo, Synced;
    ResetKeepsSync(v, head, reinject, now, s, c, a);
    RoomyBatch(v.(head := head, virtuals := map[]), reinject, false, now, s.batch, c, a);
  }

  lemma RoomyBatch(v: View, txs: seq<Tx>, local: bool, now: int, b: Batch, c: Config, a: Address)
    requires v.Shape() && BatchStep(v, txs, local, now, b, c) && (txs == [] || |v.all| + |txs| <= c.globalSlots)
    requires forall t :: t in txs ==> t.sender != Some(a)
    ensures b.last.Virtual(a) == v.Virtual(a)
  {
    hide AddedTo, PromotedTo, TruncatedTo, Shaped;
    var dirty := Dirty(txs, b.answers);
    if txs != [] {
      RoomyChain(txs, local, b.views, b.rooms, b.answers, c, |txs|);
    }
    if dirty != {} {
      PromotedSyncs(b.views[|txs|], dirty, now, b.mid, c, a);
      RoomyCut(b.views[|txs|], dirty, now, b.mid, b.m, b.last, c, a);
    }
  }

  lemma {:induction false} RoomyChain(txs: seq<Tx>, local: bool, views: seq<View>, rooms: seq<View>, answers: seq<AddResult>, c: Config, i: nat)
    requires Chained(txs, local, views, rooms, answers, c) && views[0].Shape() && i <= |txs| && |views[0].all| + |txs| <= c.globalSlots
    ensures views[i].Shape() && |views[i].all| <= |views[0].all| + i && views[i].virtuals == views[0].virtuals && views[i].head == views[0].head
  {
    hide Shaped, Placement, FirstObjection;
    if i > 0 {
      RoomyChain(txs, local, views, rooms, answers, c, i - 1);
      assert AddedTo(views[i - 1], txs[i - 1], local, answers[i - 1], rooms[i - 1], views[i - 1 + 1], c);
      AddedLive(views[i - 1], txs[i - 1], local, answers[i - 1], rooms[i - 1], views[i], c);
      L.GrownPool(views[i - 1].all, views[i].all, txs[i - 1]);
    }
  }

  lemma RoomyCut(v: View, accounts: set<Address>, now: int, mid: View, m: nat, v': View, c: Config, a: Address)
    requires PromotedTo(v, accounts, now, mid, c) && TruncatedTo(mid, m, v', c) && |v.all| <= c.globalSlots
    ensures v'.Virtual(a) == mid.Virtual(a) && v'.pending == mid.pending && |mid.all| <= |v.all| && SameSettings(v, v') && SameSettings(v, mid)
  {
    hide Shaped, PromotedAt, Untouched, BeatsNoted, L.Fair, L.NewestFirst, L.KeepsLowest, L.CutTo, L.Total;
    L.SmallerPool(v.all, mid.all);
    L.SizeIsTotal(mid.all, mid.pending, mid.queue);
    assert L.TrimmedAt(At(mid.pending, a), mid.Virtual(a), At(v'.pending, a), v'.Virtual(a));
  }

  lemma EvictedSyncs(v: View, now: int, v': View, c: Config)
    requires Evicted(v, now, v', c)
    ensures forall a: Address :: v.SyncedAt(a) ==> v'.SyncedAt(a)
  {
    hide Shaped;
  }

  /** A remote account's queue survives the eviction tick if and only if the account has pending
      transactions and the last promotion is recent: without any there is no heartbeat, and
      the queue goes at the first tick, whatever the lifetime. */
  lemma EvictionRule(v: View, now: int, v': View, c: Config, a: Address)
    requires v.Good(c) && Evicted(v, now, v', c) && a !in v.locals && At(v.queue, a) != map[]
    ensures (At(v.pending, a) != map[] <==> a in v.beats)
    ensures At(v'.queue, a) == At(v.queue, a) <==> At(v.pending, a) != map[] && now - v.beats[a] <= c.lifetime
    ensures At(v'.queue, a) == map[] || At(v'.queue, a) == At(v.queue, a)
  {
    hide Shaped;
  }
}
