/** Resets that meet no limit: what becomes of an account of which transactions are reinjected
    is determined by the state before. */
module PoolResets {
  import opened Nonces
  import opened Transactions
  import opened Wrappers
  import opened SortedMap
  import opened AccountLists
  import opened PricedLists
  import opened PoolState
  import opened PoolSync
  import opened PoolMoves
  import opened PoolSteps
  import L = PoolLimits
  import C = PoolCauses
  import F = PoolFacts

  /** The pool has no objection to a transaction of account `a`. */
  predicate Admits(v: View, a: Address, t: Tx) {
    t.sender == Some(a) && v.Objection(t, false).None?
  }

  /** The nonces of the account's transactions to which the pool has no objection. */
  function Offered(v: View, txs: seq<Tx>, a: Address): set<nat> {
    set t | t in txs && Admits(v, a, t) :: t.nonce
  }

  /** One of them outbids `old_` at its nonce. */
  predicate Raised(v: View, txs: seq<Tx>, a: Address, old_: Tx, bump: nat) {
    exists t :: t in txs && Admits(v, a, t) && t.nonce == old_.nonce && Outbids(old_, t, bump)
  }

  predicate Payable(head: Head, a: Address, t: Tx) {
    !Unpayable(t, head.Balance(a), head.gasLimit)
  }

  /** The state nonce has fallen below the pending transactions; those reinjected begin at it
      and leave a gap before the first pending one, which the new state could pay for. */
  ghost predicate Holed(v: View, head: Head, txs: seq<Tx>, c: Config, a: Address) {
    var w := v.(head := head, virtuals := map[]);
    var p, first, st, offered := At(v.pending, a), v.head.Nonce(a), head.Nonce(a), Offered(w, txs, a);
    && first in p && st < first && st in offered && RunEnd(offered, st) < first
    && (Payable(head, a, p[first]) || Raised(w, txs, a, p[first], c.priceBump))
  }

  /** How the account's lists stand in the course of a batch: pending keeps its nonces, the
      queue gains those offered besides, and the pending transaction at `first` is replaced
      only by one that the pool admits. */
  ghost predicate Stands(p: ByNonce, q: ByNonce, p': ByNonce, q': ByNonce, offered: set<nat>, dirty: bool, raised: bool,
                         head: Head, a: Address, first: nat) {
    && p'.Keys == p.Keys && q'.Keys == q.Keys + (offered - p.Keys)
    && (forall n :: n in q' && n !in q ==> Payable(head, a, q'[n]))
    && (q'.Keys != q.Keys ==> dirty)
    && (first in p ==> if raised then Payable(head, a, p'[first]) else p'[first] == p[first])
  }

  ghost predicate Course(v: View, txs: seq<Tx>, answers: seq<AddResult>, w: View, c: Config, a: Address, first: nat)
    requires |answers| == |txs|
  {
    var p := At(v.pending, a);
    Stands(p, At(v.queue, a), At(w.pending, a), At(w.queue, a), Offered(v, txs, a), a in Dirty(txs, answers),
           first in p && Raised(v, txs, a, p[first], c.priceBump), v.head, a, first)
  }

  /** A transaction that is listed already, or not admitted, changes nothing. */
  lemma StandsSame(p: ByNonce, q: ByNonce, p': ByNonce, q': ByNonce, offered: set<nat>, dirty: bool, raised: bool, head: Head, a: Address, first: nat,
                   t: Tx, admits: bool, dirty': bool, raised': bool, bump: nat)
    requires Stands(p, q, p', q', offered, dirty, raised, head, a, first) && (admits ==> Has(p', t) || Has(q', t)) && (dirty ==> dirty')
    requires p'.Keys !! q'.Keys && (raised' <==> raised || (first in p && admits && t.nonce == first && Outbids(p[first], t, bump)))
    ensures Stands(p, q, p', q', offered + if admits then {t.nonce} else {}, dirty', raised', head, a, first)
  {
  }

  /** One that is admitted and placed. */
  lemma StandsPlaced(p: ByNonce, q: ByNonce, p': ByNonce, q': ByNonce, offered: set<nat>, dirty: bool, raised: bool, head: Head, a: Address, first: nat,
                     t: Tx, p'': ByNonce, q'': ByNonce, r: AddResult, dirty': bool, raised': bool, bump: nat)
    requires Stands(p, q, p', q', offered, dirty, raised, head, a, first) && Payable(head, a, t)
    requires p'.Keys !! q'.Keys && (raised' <==> raised || (first in p && t.nonce == first && Outbids(p[first], t, bump)))
    requires dirty' <==> dirty || r == Accepted(false)
    requires r == if t.nonce in p' then (if Outbids(p'[t.nonce], t, bump) then Accepted(true) else Rejected(ReplaceUnderpriced))
                  else if t.nonce in q' then (if Outbids(q'[t.nonce], t, bump) then Accepted(true) else Rejected(ReplaceUnderpriced))
                  else Accepted(false)
    requires p'' == if r.Accepted? && t.nonce in p' then p'[t.nonce := t] else p'
    requires q'' == if r.Accepted? && t.nonce !in p' then q'[t.nonce := t] else q'
    ensures Stands(p, q, p'', q'', offered + {t.nonce}, dirty', raised', head, a, first)
  {
    hide Payable, Outbids;
  }

  lemma CourseStart(v: View, c: Config, a: Address, first: nat)
    ensures Course(v, [], [], v, c, a, first)
  {
    assert Offered(v, [], a) == {};
  }

  lemma OfferedNext(v: View, txs: seq<Tx>, a: Address, t: Tx)
    ensures Offered(v, txs + [t], a) == Offered(v, txs, a) + if Admits(v, a, t) then {t.nonce} else {}
  {
    hide FirstObjection;
    assert forall u :: u in txs + [t] <==> u in txs || u == t;
  }

  lemma RaisedNext(v: View, txs: seq<Tx>, a: Address, old_: Tx, bump: nat, t: Tx)
    ensures Raised(v, txs + [t], a, old_, bump)
            <==> Raised(v, txs, a, old_, bump) || (Admits(v, a, t) && t.nonce == old_.nonce && Outbids(old_, t, bump))
  {
    hide FirstObjection, Outbids;
    assert forall u :: u in txs + [t] <==> u in txs || u == t;
  }

  /** The transaction of another account. */
  lemma CourseElse(v: View, txs: seq<Tx>, answers: seq<AddResult>, w: View, t: Tx, r: AddResult, w': View, c: Config, a: Address, first: nat)
    requires |answers| == |txs| && Course(v, txs, answers, w, c, a, first) && t.sender != Some(a)
    requires At(w'.pending, a) == At(w.pending, a) && At(w'.queue, a) == At(w.queue, a)
    ensures Course(v, txs + [t], answers + [r], w', c, a, first)
  {
    hide Raised, Dirty, Offered, Payable, Outbids;
    OfferedNext(v, txs, a, t);
    DirtyNext(txs, answers, t, r);
    if first in At(v.pending, a) {
      RaisedNext(v, txs, a, At(v.pending, a)[first], c.priceBump, t);
    }
  }

  /** A transaction of the account that is pooled already or meets an objection. */
  lemma CourseSame(v: View, txs: seq<Tx>, answers: seq<AddResult>, w: View, t: Tx, r: AddResult, c: Config, a: Address, first: nat)
    requires |answers| == |txs| && Course(v, txs, answers, w, c, a, first) && v.Shape() && w.Shape() && t.sender == Some(a)
    requires !Admits(v, a, t) || Live(t, w.all)
    ensures Course(v, txs + [t], answers + [r], w, c, a, first)
  {
    var p, q, p', q' := At(v.pending, a), At(v.queue, a), At(w.pending, a), At(w.queue, a);
    assert Ok(w.all, w.pending, w.queue, a) && Ok(v.all, v.pending, v.queue, a);
    assert first in p ==> p[first].nonce == first;
    assert Admits(v, a, t) ==> Has(p', t) || Has(q', t);
    hide Raised, Dirty, Offered, Payable, Shaped, FirstObjection, Stands, Outbids;
    OfferedNext(v, txs, a, t);
    DirtyNext(txs, answers, t, r);
    if first in p {
      RaisedNext(v, txs, a, p[first], c.priceBump, t);
    }
    StandsSame(p, q, p', q', Offered(v, txs, a), a in Dirty(txs, answers), first in p && Raised(v, txs, a, p[first], c.priceBump), v.head, a, first,
               t, Admits(v, a, t), a in Dirty(txs + [t], answers + [r]), first in p && Raised(v, txs + [t], a, p[first], c.priceBump), c.priceBump);
  }

  lemma NonceOf(v: View, a: Address)
    requires v.Shape()
    ensures forall n :: n in At(v.pending, a) ==> At(v.pending, a)[n].nonce == n
  {
    assert Ok(v.all, v.pending, v.queue, a);
  }

  /** A transaction of the account that is placed, or not. */
  lemma CoursePlaced(v: View, txs: seq<Tx>, answers: seq<AddResult>, w: View, t: Tx, r: AddResult, w': View, c: Config, a: Address, first: nat)
    requires |answers| == |txs| && Course(v, txs, answers, w, c, a, first) && v.Shape() && w.Shape() && Admits(v, a, t)
    requires r == Placement(w.pending, w.queue, t, c.priceBump) && PlacedIn(w, t, false, r, w')
    ensures Course(v, txs + [t], answers + [r], w', c, a, first)
  {
    assert Payable(v.head, a, t) by { AdmissibleFits(v, t, false); }
    var p, q, p', q' := At(v.pending, a), At(v.queue, a), At(w.pending, a), At(w.queue, a);
    hide Raised, Dirty, Offered, Payable, Shaped, FirstObjection, Stands, Outbids;
    F.ListsApart(w, a);
    NonceOf(v, a);
    OfferedNext(v, txs, a, t);
    DirtyNext(txs, answers, t, r);
    if first in p {
      RaisedNext(v, txs, a, p[first], c.priceBump, t);
    }
    StandsPlaced(p, q, p', q', Offered(v, txs, a), a in Dirty(txs, answers), first in p && Raised(v, txs, a, p[first], c.priceBump), v.head, a, first,
                 t, At(w'.pending, a), At(w'.queue, a), r, a in Dirty(txs + [t], answers + [r]),
                 first in p && Raised(v, txs + [t], a, p[first], c.priceBump), c.priceBump);
  }

  lemma CourseNext(v: View, txs: seq<Tx>, answers: seq<AddResult>, w: View, t: Tx, r: AddResult, room: View, w': View, c: Config, a: Address, first: nat)
    requires |answers| == |txs| && Course(v, txs, answers, w, c, a, first) && v.Shape() && w.Shape()
    requires w.head == v.head && w.gasPrice == v.gasPrice && w.homestead == v.homestead && w.locals == v.locals && |w.all| < Limit(c)
    requires AddedTo(w, t, false, r, room, w', c)
    ensures Course(v, txs + [t], answers + [r], w', c, a, first)
  {
    hide Course, Shaped, FirstObjection, Placement;
    C.SameObjection(v, w, t, false);
    if t.sender == Some(a) {
      if Live(t, w.all) || w.Objection(t, false).Some? {
        CourseSame(v, txs, answers, w, t, r, c, a, first);
      } else {
        CoursePlaced(v, txs, answers, w, t, r, w', c, a, first);
      }
    } else {
      if w' != w {
        AdmissibleFits(w, t, false);
        Elsewhere(w.pending, w'.pending, t.sender.value, a);
        Elsewhere(w.queue, w'.queue, t.sender.value, a);
      }
      CourseElse(v, txs, answers, w, t, r, w', c, a, first);
    }
  }

  /** The lists of the account after all of them. */
  lemma {:induction false} CourseRuns(txs: seq<Tx>, views: seq<View>, rooms: seq<View>, answers: seq<AddResult>, c: Config, a: Address, first: nat, i: nat)
    requires Chained(txs, false, views, rooms, answers, c) && views[0].Shape() && i <= |txs| && |views[0].all| + |txs| <= c.globalSlots
    ensures Course(views[0], txs[..i], answers[..i], views[i], c, a, first)
  {
    hide AddedTo, Shaped, Course;
    if i == 0 {
      CourseStart(views[0], c, a, first);
    } else {
      var j := i - 1;
      CourseRuns(txs, views, rooms, answers, c, a, first, j);
      F.RoomyChain(txs, false, views, rooms, answers, c, j);
      ChainedLive(txs, false, views, rooms, answers, c, j);
      assert AddedTo(views[j], txs[j], false, answers[j], rooms[j], views[j + 1], c);
      CourseNext(views[0], txs[..j], answers[..j], views[j], txs[j], answers[j], rooms[j], views[i], c, a, first);
      assert txs[..i] == txs[..j] + [txs[j]] && answers[..i] == answers[..j] + [answers[j]];
    }
  }

  lemma ReadyIs(u: ByNonce, st: nat)
    requires forall n :: n in u ==> n >= st
    ensures forall n :: n in ReadyRun(u, st) <==> st in u && st <= n < RunEnd(u.Keys, st)
  {
    if st in u {
      assert Min(u.Keys) == st;
    }
  }

  /** Where two sets agree below `hi`, so do the ends of their runs. */
  lemma SameEnd(s: set<nat>, t: set<nat>, st: nat, hi: nat)
    requires forall n: nat :: st <= n < hi ==> (n in s <==> n in t)
    ensures RunEnd(s, st) < hi ==> RunEnd(t, st) == RunEnd(s, st)
  {
  }

  /** Pending after the batch, given the lists before its promotion. */
  function Joined(p: ByNonce, q: ByNonce, head: Head, a: Address, dirty: bool): ByNonce {
    var usable := Restrict(q, Usable(q, head, a));
    if dirty then p + Restrict(usable, ReadyRun(usable, head.Nonce(a))) else p
  }

  /** Where its ready run ends; if that is the state nonce, there is none. */
  function Reached(q: ByNonce, head: Head, a: Address, dirty: bool): nat {
    var usable := Restrict(q, Usable(q, head, a));
    if dirty then RunEnd(usable.Keys, head.Nonce(a)) else head.Nonce(a)
  }

  lemma JoinedIs(p: ByNonce, q: ByNonce, head: Head, a: Address, dirty: bool)
    requires p.Keys !! q.Keys
    ensures var b, st, e := Joined(p, q, head, a, dirty), head.Nonce(a), Reached(q, head, a, dirty);
            && st <= e && (forall n :: n in b <==> n in p || st <= n < e)
            && (forall n :: st <= n < e ==> n in q && n !in p && n in b && Payable(head, a, b[n])) && (forall n :: n in p ==> b[n] == p[n])
  {
    var st, u := head.Nonce(a), Restrict(q, Usable(q, head, a));
    ReadyIs(u, st);
    var e := RunEnd(u.Keys, st);
    assert forall n :: n in ReadyRun(u, st) <==> st <= n < e;
    assert forall n :: n in u ==> n in q && n !in p && u[n] == q[n] && Payable(head, a, u[n]);
    hide ReadyRun, RunEnd, Usable, Payable;
    if dirty {
      var b := Joined(p, q, head, a, dirty);
      forall n ensures (n in b <==> n in p || st <= n < e) && (st <= n < e ==> n in u && n in b && b[n] == u[n]) && (n in p ==> b[n] == p[n]) {
      }
    }
  }

  /** A run and another one from the state nonce on leave a hole if and only if the latter is
      not empty, ends before the former and the former can be paid for. */
  lemma HoleCore(b: ByNonce, head: Head, a: Address, e: nat, first: nat, end: nat)
    requires first <= end && head.Nonce(a) <= e
    requires forall n :: n in b <==> first <= n < end || head.Nonce(a) <= n < e
    requires forall n: nat :: head.Nonce(a) <= n < e ==> !(first <= n < end) && Payable(head, a, b[n])
    ensures NoHole(b, head, a) <==> !(head.Nonce(a) < e < first < end && Payable(head, a, b[first]))
  {
    var st := head.Nonce(a);
    if st < e < first < end && Payable(head, a, b[first]) {
      assert Funded(b, head, a, st) && Funded(b, head, a, first) && e !in b;
    } else if Funded(b, head, a, st) {
      forall k: nat, n: nat | Funded(b, head, a, k) && st <= n <= k ensures n in b {
        assert first in b && st <= first <= k ==> Payable(head, a, b[first]);
      }
    }
  }

  lemma ReachedIs(p: ByNonce, q: ByNonce, p': ByNonce, q': ByNonce, offered: set<nat>, dirty: bool, raised: bool, head: Head, a: Address, first: nat, end: nat)
    requires Stands(p, q, p', q', offered, dirty, raised, head, a, first) && Synced(p, q, first, end)
    requires forall n :: n in offered ==> n >= head.Nonce(a)
    ensures var st := head.Nonce(a);
            st < Reached(q', head, a, dirty) < first <==> st < first && st in offered && RunEnd(offered, st) < first
  {
    var st, u := head.Nonce(a), Restrict(q', Usable(q', head, a));
    forall n: nat | st <= n < first ensures n in u <==> n in offered {
    }
    SameEnd(offered, u.Keys, st, first);
    SameEnd(u.Keys, offered, st, first);
    assert RunEnd(u.Keys, st) > st <==> st in u;
  }

  /** There is a hole in it if and only if what was offered leaves one before the first pending
      transaction. */
  lemma HoleIff(p: ByNonce, q: ByNonce, p': ByNonce, q': ByNonce, offered: set<nat>, dirty: bool, raised: bool, head: Head, a: Address, first: nat, end: nat)
    requires Stands(p, q, p', q', offered, dirty, raised, head, a, first) && Synced(p, q, first, end) && p'.Keys !! q'.Keys
    requires forall n :: n in offered ==> n >= head.Nonce(a)
    ensures var st := head.Nonce(a);
            NoHole(Joined(p', q', head, a, dirty), head, a)
            <==> !(first in p && st < first && st in offered && RunEnd(offered, st) < first && Payable(head, a, p'[first]))
  {
    ReachedIs(p, q, p', q', offered, dirty, raised, head, a, first, end);
    JoinedIs(p', q', head, a, dirty);
    hide Joined, Reached, RunEnd, Payable, NoHole;
    HoleCore(Joined(p', q', head, a, dirty), head, a, Reached(q', head, a, dirty), first, end);
  }

  /** What the whole batch does to the account's pending transactions. */
  lemma BatchJoins(v: View, txs: seq<Tx>, now: int, b: Batch, c: Config, a: Address)
    requires v.Shape() && BatchStep(v, txs, false, now, b, c) && |v.all| + |txs| <= c.globalSlots && v.Virtual(a) == v.head.Nonce(a)
    ensures |b.answers| == |txs| == |b.views| - 1 && |b.last.all| <= |v.all| + |txs|
    ensures var p, q, dirty := At(b.views[|txs|].pending, a), At(b.views[|txs|].queue, a), a in Dirty(txs, b.answers);
            && At(b.last.pending, a) == Joined(p, q, v.head, a, dirty)
            && (Reached(q, v.head, a, dirty) == v.head.Nonce(a) ==> b.last.Virtual(a) == v.head.Nonce(a))
  {
    hide AddedTo, PromotedTo, TruncatedTo, Shaped;
    F.RoomyChain(txs, false, b.views, b.rooms, b.answers, c, |txs|);
    var end, dirty := b.views[|txs|], Dirty(txs, b.answers);
    if dirty != {} {
      F.RoomyCut(end, dirty, now, b.mid, b.m, b.last, c, a);
      PromotionJoins(end, dirty, now, b.mid, c, a);
      CutSmaller(b.mid, b.m, b.last, c);
    }
  }

  lemma CutSmaller(v: View, m: nat, v': View, c: Config)
    requires TruncatedTo(v, m, v', c)
    ensures |v'.all| <= |v.all|
  {
    L.SmallerPool(v.all, v'.all);
  }

  lemma PromotionJoins(v: View, accounts: set<Address>, now: int, v': View, c: Config, a: Address)
    requires PromotedTo(v, accounts, now, v', c) && v.Virtual(a) == v.head.Nonce(a)
    ensures At(v'.pending, a) == Joined(At(v.pending, a), At(v.queue, a), v.head, a, a in accounts)
    ensures Reached(At(v.queue, a), v.head, a, a in accounts) == v.head.Nonce(a) ==> v'.Virtual(a) == v.head.Nonce(a)
  {
    hide Shaped, BeatsNoted, Allowed, Usable;
    if a in accounts {
      assert PromotedAt(v.pending, v.queue, v.virtuals, v'.pending, v'.queue, v'.virtuals, v.head, v.locals, c.accountQueue, a);
      var u := Restrict(At(v.queue, a), Usable(At(v.queue, a), v.head, a));
      F.UsableFrom(At(v.queue, a), v.head, a);
      ReadyIs(u, v.head.Nonce(a));
      hide ReadyRun;
    } else {
      assert Untouched(v.pending, v.queue, v.virtuals, v'.pending, v'.queue, v'.virtuals, v.head, a);
    }
  }

  /** If a run was promoted, it stays pending. */
  lemma JoinedStays(p: ByNonce, q: ByNonce, head: Head, a: Address, dirty: bool)
    requires p.Keys !! q.Keys && Reached(q, head, a, dirty) != head.Nonce(a)
    ensures Staying(Joined(p, q, head, a, dirty), head, a) != map[]
  {
    JoinedIs(p, q, head, a, dirty);
    hide Joined, Reached;
    var b, st := Joined(p, q, head, a, dirty), head.Nonce(a);
    assert Funded(b, head, a, st);
    assert st in Staying(b, head, a);
  }

  /** What the batch amounts to for an account that was in sync. */
  lemma BatchHole(v: View, head: Head, txs: seq<Tx>, now: int, b: Batch, c: Config, a: Address)
    requires v.Shape() && v.SyncedAt(a) && BatchStep(v.(head := head, virtuals := map[]), txs, false, now, b, c) && |v.all| + |txs| <= c.globalSlots
    ensures NoHole(At(b.last.pending, a), head, a) <==> !Holed(v, head, txs, c, a)
    ensures Staying(At(b.last.pending, a), head, a) != map[] || b.last.Virtual(a) == head.Nonce(a)
    ensures |b.last.all| <= |v.all| + |txs|
  {
    hide BatchStep, Shaped, Payable, Raised, NoHole, Staying, Joined, Reached, RunEnd, Offered, Dirty, Synced;
    var w := v.(head := head, virtuals := map[]);
    BatchJoins(w, txs, now, b, c, a);
    var first, end, dirty := v.head.Nonce(a), b.views[|txs|], a in Dirty(txs, b.answers);
    BatchCourse(w, txs, now, b, c, a, first);
    OfferedFrom(w, txs, a);
    var p := At(v.pending, a);
    HoleIff(p, At(v.queue, a), At(end.pending, a), At(end.queue, a), Offered(w, txs, a), dirty,
            first in p && Raised(w, txs, a, p[first], c.priceBump), head, a, first, v.Virtual(a));
    if Reached(At(end.queue, a), head, a, dirty) != head.Nonce(a) {
      JoinedStays(At(end.pending, a), At(end.queue, a), head, a, dirty);
    }
  }

  lemma OfferedFrom(v: View, txs: seq<Tx>, a: Address)
    ensures forall n :: n in Offered(v, txs, a) ==> n >= v.head.Nonce(a)
  {
    forall n | n in Offered(v, txs, a) ensures n >= v.head.Nonce(a) {
      var t :| t in txs && Admits(v, a, t) && t.nonce == n;
      AdmissibleFits(v, t, false);
    }
  }

  lemma BatchCourse(v: View, txs: seq<Tx>, now: int, b: Batch, c: Config, a: Address, first: nat)
    requires v.Shape() && BatchStep(v, txs, false, now, b, c) && |v.all| + |txs| <= c.globalSlots
    ensures |b.answers| == |txs| == |b.views| - 1 && Course(v, txs, b.answers, b.views[|txs|], c, a, first)
    ensures At(b.views[|txs|].pending, a).Keys !! At(b.views[|txs|].queue, a).Keys
  {
    hide Shaped, AddedTo, Course, BatchStep;
    BatchChained(v, txs, now, b, c);
    CourseRuns(txs, b.views, b.rooms, b.answers, c, a, first, |txs|);
    ChainedLive(txs, false, b.views, b.rooms, b.answers, c, |txs|);
    assert txs[..|txs|] == txs && b.answers[..|txs|] == b.answers;
    F.ListsApart(b.views[|txs|], a);
  }

  lemma BatchChained(v: View, txs: seq<Tx>, now: int, b: Batch, c: Config)
    requires BatchStep(v, txs, false, now, b, c)
    ensures Chained(txs, false, b.views, b.rooms, b.answers, c) && b.views[0] == v
  {
  }

  /** While the pool and what is reinjected do not exceed the pending limit, an account that was
      in sync ends in sync if and only if the reinjected transactions leave no hole before its
      pending ones. */
  lemma ReinjectedReset(v: View, head: Head, reinject: seq<Tx>, now: int, s: Moves, c: Config, a: Address)
    requires v.Shape() && v.SyncedAt(a) && ResetStep(v, head, reinject, now, s, c) && |v.all| + |reinject| <= c.globalSlots
    ensures s.last.SyncedAt(a) <==> !Holed(v, head, reinject, c, a)
  {
    hide BatchStep, PromotedTo, TruncatedTo, Shaped, Holed, NoHole, Staying, Synced;
    var w := v.(head := head, virtuals := map[]);
    BatchHole(v, head, reinject, now, s.batch, c, a);
    BatchFits(w, reinject, false, now, s.batch, c);
    F.ResetSynced(v, head, reinject, now, s, c, a);
    assert DemotedAt(s.batch.last.pending, s.batch.last.queue, s.demoted.pending, s.demoted.queue, head, a);
    L.SmallerPool(s.batch.last.all, s.demoted.all);
    F.RoomyCut(s.realigned, s.realigned.queue.Keys, now, s.mid, s.m, s.last, c, a);
    if !s.mid.SyncedAt(a) {
      NoRunNoSync(s.last, a);
    }
  }

  lemma NoRunNoSync(v: View, a: Address)
    ensures v.SyncedAt(a) ==> Run(At(v.pending, a), v.head.Nonce(a), v.Virtual(a))
  {
  }
}
