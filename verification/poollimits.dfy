/** Counting the pool's lists, and what fair truncation means. */
module PoolLimits {
  import opened Nonces
  import opened Transactions
  import opened PoolState
  import opened SortedMap
  import opened PoolMoves
  import P = PricedLists
  import H = BinaryHeap

  function Len(ls: AccountMap, a: Address): nat {
    |At(ls, a)|
  }

  ghost function Choice(ls: AccountMap): (a: Address)
    requires ls != map[]
    ensures a in ls
  {
    var a :| a in ls;
    a
  }

  /** The number of transactions on all lists. */
  ghost function Total(ls: AccountMap): nat
    decreases |ls|
  {
    if ls == map[] then 0 else Len(ls, Choice(ls)) + Total(ls - {Choice(ls)})
  }

  lemma {:induction false} TotalMinus(ls: AccountMap, a: Address)
    requires a in ls
    ensures Total(ls) == Len(ls, a) + Total(ls - {a})
    decreases |ls|
  {
    var b := Choice(ls);
    if a != b {
      assert ls - {a} - {b} == ls - {b} - {a};
      TotalMinus(ls - {b}, a);
      TotalMinus(ls - {a}, b);
    }
  }

  /** When only one list changes, the total changes by as much as that list. */
  lemma TotalUpdate(ls: AccountMap, ls': AccountMap, a: Address)
    requires ls' - {a} == ls - {a}
    ensures Total(ls') - Len(ls', a) == Total(ls) - Len(ls, a)
  {
    TotalWithout(ls, a);
    TotalWithout(ls', a);
  }

  lemma TotalWithout(ls: AccountMap, a: Address)
    ensures Total(ls) == Len(ls, a) + Total(ls - {a})
  {
    if a in ls {
      TotalMinus(ls, a);
    } else {
      hide Total;
      assert ls - {a} == ls;
    }
  }

  /** Summing the lengths over the map. */
  method Count(ls: AccountMap) returns (n: nat)
    ensures n == Total(ls)
  {
    n := 0;
    var rest := ls;
    while rest != map[]
      invariant n + Total(rest) == Total(ls)
      decreases |rest|
    {
      var a :| a in rest;
      TotalMinus(rest, a);
      n := n + Len(rest, a);
      rest := rest - {a};
    }
  }

  /** The pop of the priority queue of large transactors: a longest list. */
  method PopLongest(ls: AccountMap, spammers: set<Address>) returns (a: Address)
    requires spammers != {}
    ensures a in spammers && forall b :: b in spammers ==> Len(ls, b) <= Len(ls, a)
  {
    a :| a in spammers;
    var todo := spammers - {a};
    while todo != {}
      invariant a in spammers && todo <= spammers
      invariant forall b :: b in spammers && b !in todo ==> Len(ls, b) <= Len(ls, a)
    {
      var b :| b in todo;
      if Len(ls, b) > Len(ls, a) {
        a := b;
      }
      todo := todo - {b};
    }
  }

  /** Max-min fairness: every shortened list ends at the common length `m`, no list was
      lengthened, every remote list left alone is no longer than `m`, local lists are
      left alone, and `m` is at least the guaranteed allowance. */
  ghost predicate Fair(before: AccountMap, after: AccountMap, locals: set<Address>, slots: nat, m: nat) {
    && slots <= m
    && forall a :: FairAt(before, after, locals, m, a)
  }

  ghost predicate FairAt(before: AccountMap, after: AccountMap, locals: set<Address>, m: nat, a: Address) {
    || (Len(after, a) < Len(before, a) && Len(after, a) == m && a !in locals)
    || (Len(after, a) == Len(before, a) && (a in locals || Len(before, a) <= m))
  }

  /** The accounts that have lost something. */
  function Shortened(before: AccountMap, after: AccountMap): set<Address> {
    set a | a in before && Len(after, a) < Len(before, a)
  }

  /** Nothing was cut in vain: with one transaction more for each shortened account there would
      be too many. */
  ghost predicate Tight(before: AccountMap, after: AccountMap, limit: nat) {
    Total(after) + |Shortened(before, after)| > limit
  }

  /** A list for list longer map has more transactions, by at least one for each of `s`. */
  lemma {:induction false} TotalGrows(ls: AccountMap, ls': AccountMap, s: set<Address>)
    requires forall a :: Len(ls', a) >= Len(ls, a) + if a in s then 1 else 0
    ensures Total(ls') >= Total(ls) + |s|
    decreases |ls| + |ls'|
  {
    if ls == map[] && ls' == map[] {
      forall a ensures a !in s {
        assert Len(ls', a) == 0;
      }
      assert s == {};
    } else {
      var a :| a in ls || a in ls';
      var rest, rest' := ls - {a}, ls' - {a};
      assert rest.Keys == ls.Keys - {a} && rest'.Keys == ls'.Keys - {a};
      TotalWithout(ls, a);
      TotalWithout(ls', a);
      forall b ensures Len(rest', b) >= Len(rest, b) + if b in s - {a} then 1 else 0 {
        assert Len(ls', b) >= Len(ls, b) + if b in s then 1 else 0;
      }
      TotalGrows(rest, rest', s - {a});
      assert Len(ls', a) >= Len(ls, a) + if a in s then 1 else 0;
      assert s <= s - {a} + {a};
    }
  }

  /** A truncation of pending as the limits ask for it. */
  ghost predicate Leveled(before: AccountMap, after: AccountMap, locals: set<Address>, slots: nat, limit: nat, m: nat) {
    && (after == before || (Fair(before, after, locals, slots, m) && Total(before) > limit && Tight(before, after, limit)))
    && (Total(after) <= limit || forall a :: a in after && a !in locals ==> Len(after, a) <= slots)
  }

  /** There is only one: the common length is the largest one, but for the guaranteed slots,
      with which the total fits. */
  lemma LeveledOnce(before: AccountMap, after: AccountMap, after': AccountMap, locals: set<Address>, slots: nat, limit: nat,
                    m: nat, m': nat, a: Address)
    requires Leveled(before, after, locals, slots, limit, m) && Leveled(before, after', locals, slots, limit, m')
    ensures Len(after, a) == Len(after', a)
  {
    if Len(after, a) < Len(after', a) {
      LeveledLess(before, after, after', locals, slots, limit, m, m', a);
    } else if Len(after', a) < Len(after, a) {
      LeveledLess(before, after', after, locals, slots, limit, m', m, a);
    }
  }

  lemma LeveledLess(before: AccountMap, after: AccountMap, after': AccountMap, locals: set<Address>, slots: nat, limit: nat,
                    m: nat, m': nat, a: Address)
    requires Leveled(before, after, locals, slots, limit, m) && Leveled(before, after', locals, slots, limit, m')
    ensures Len(after, a) >= Len(after', a)
  {
    hide Tight;
    assert after == before || FairAt(before, after, locals, m, a);
    assert after' == before || FairAt(before, after', locals, m', a);
    if Len(after, a) < Len(before, a) && (after' == before || m < m') {
      LongerTotal(before, after, after', locals, slots, limit, m, m');
    }
  }

  /** A larger common length does not fit. */
  lemma LongerTotal(before: AccountMap, after: AccountMap, after': AccountMap, locals: set<Address>, slots: nat, limit: nat, m: nat, m': nat)
    requires Fair(before, after, locals, slots, m) && Tight(before, after, limit)
    requires after' == before || (Fair(before, after', locals, slots, m') && m < m')
    ensures Total(after') > limit
  {
    forall b ensures Len(after', b) >= Len(after, b) + if b in Shortened(before, after) then 1 else 0 {
      assert FairAt(before, after, locals, m, b);
      assert after' == before || FairAt(before, after', locals, m', b);
    }
    TotalGrows(after, after', Shortened(before, after));
  }

  /** `after` is `before` cut down to its lowest nonces. */
  ghost predicate CutTo(before: ByNonce, after: ByNonce) {
    after == Restrict(before, Lowest(before.Keys, |after|))
  }

  /** Every account keeps its lowest nonces, as many as it is left with. */
  ghost predicate KeepsLowest(before: AccountMap, after: AccountMap) {
    forall a: Address :: CutTo(At(before, a), At(after, a))
  }

  lemma {:induction false} LowestTwice(s: set<nat>, k: nat, j: nat)
    requires j <= |Lowest(s, k)|
    ensures Lowest(Lowest(s, k), j) == Lowest(s, j)
  {
    if |s| > k {
      LowestTwice(s - {Nonces.Max(s)}, k, j);
    }
  }

  lemma CutAgain(p: ByNonce, q: ByNonce, r: ByNonce)
    requires CutTo(p, q) && CutTo(q, r)
    ensures CutTo(p, r)
  {
    hide Lowest;
    RestrictRest(p, Lowest(p.Keys, |q|));
    RestrictRest(q, Lowest(q.Keys, |r|));
    LowestTwice(p.Keys, |q|, |r|);
  }

  lemma CutNothing(p: ByNonce)
    ensures CutTo(p, p) && CutTo(p, map[])
  {
    assert Lowest(p.Keys, |p|) == p.Keys;
    assert Restrict(p, p.Keys) == p;
    assert Lowest(p.Keys, 0) == {};
    assert Restrict(p, {}) == map[];
  }

  lemma CutHighest(p: ByNonce)
    requires p != map[]
    ensures CutTo(p, p - {Nonces.Max(p.Keys)})
  {
    var n := Nonces.Max(p.Keys);
    var q := p - {n};
    assert q.Keys == p.Keys - {n};
    assert Lowest(p.Keys, |q|) == p.Keys - {n};
    RestrictRest(p, p.Keys - {n});
    assert p.Keys - (p.Keys - {n}) == {n};
  }

  lemma KeepsSame(ls: AccountMap)
    ensures KeepsLowest(ls, ls)
  {
    forall a: Address ensures CutTo(At(ls, a), At(ls, a)) {
      CutNothing(At(ls, a));
    }
  }

  /** Cutting down the list of one more account. */
  lemma KeepsStep(first: AccountMap, before: AccountMap, after: AccountMap, a: Address)
    requires KeepsLowest(first, before) && after - {a} == before - {a} && CutTo(At(before, a), At(after, a))
    ensures KeepsLowest(first, after)
  {
    hide CutTo;
    forall b: Address ensures CutTo(At(first, b), At(after, b)) {
      assert CutTo(At(first, b), At(before, b));
      if b == a {
        CutAgain(At(first, a), At(before, a), At(after, a));
      } else {
        Elsewhere(before, after, a, b);
      }
    }
  }

  /** Removing the transactions behind the first `k` in nonce order leaves the lowest `k`. */
  lemma CutTail(q: ByNonce, k: nat)
    requires Keyed(q) && k <= |q|
    ensures CutTo(q, q - NoncesOf(Reversed(InOrder(q)[k..])))
  {
    hide Lowest, InOrder;
    var low := Lowest(q.Keys, k);
    LowestPrecede(q.Keys, k);
    InOrderSplits(q, low);
    RestrictRest(q, low);
    var high := Restrict(q, q.Keys - low);
    assert |Restrict(q, low)| == k by { assert Restrict(q, low).Keys == low; }
    assert InOrder(q)[k..] == InOrder(high);
    InOrderNonces(high);
    ReversedNonces(InOrder(high));
    assert (q.Keys - low) == high.Keys;
    assert q - high.Keys == Restrict(q, low);
  }

  lemma InOrderNonces(m: ByNonce)
    requires Keyed(m)
    ensures NoncesOf(InOrder(m)) == m.Keys
  {
    InOrderLists(m);
    var txs := InOrder(m);
    forall n | n in m ensures n in NoncesOf(txs) {
      assert m[n] in txs;
    }
    forall n | n in NoncesOf(txs) ensures n in m {
      var tx :| tx in txs && tx.nonce == n;
      var i :| 0 <= i < |txs| && txs[i] == tx;
    }
  }

  lemma ReversedNonces(txs: seq<Tx>)
    ensures NoncesOf(Reversed(txs)) == NoncesOf(txs)
  {
    var r := Reversed(txs);
    forall tx | tx in txs ensures tx in r {
      var i :| 0 <= i < |txs| && txs[i] == tx;
      assert r[|txs| - 1 - i] == tx;
    }
    forall tx | tx in r ensures tx in txs {
      var i :| 0 <= i < |r| && r[i] == tx;
      assert txs[|txs| - 1 - i] == tx;
    }
  }

  /** Sorting accounts by heartbeat, the most recent last. */
  method SortByBeat(accounts: set<Address>, beats: map<Address, int>) returns (s: seq<Address>)
    ensures NoRepeat(s) && ByBeat(s, beats) && forall a :: a in s <==> a in accounts
  {
    var ns := RangeKeys(accounts);
    var earlier := (a: Address, b: Address) => Earlier(beats, a, b);
    s := H.Sort(ns, earlier);
    SortedAccounts(ns, s, accounts);
    assert forall i, j :: 0 <= i < j < |s| ==> !earlier(s[j], s[i]);
  }

  lemma SortedAccounts(ns: seq<Address>, s: seq<Address>, accounts: set<Address>)
    requires multiset(ns) == multiset(accounts) && multiset(s) == multiset(ns)
    ensures NoRepeat(s) && forall a :: a in s <==> a in accounts
  {
    forall a ensures a in s <==> a in accounts {
      assert a in s <==> a in multiset(s);
    }
    forall i, j | 0 <= i < j < |s| ensures s[i] != s[j] {
      if s[i] == s[j] {
        Twice(s, i, j);
      }
    }
  }

  /** The lists of all accounts outside `s` are the same. */
  ghost predicate SameOutside(before: AccountMap, after: AccountMap, s: seq<Address>) {
    forall a :: a !in s ==> (a in after <==> a in before) && (a in before ==> after[a] == before[a])
  }

  ghost predicate AllLen(ls: AccountMap, s: seq<Address>, m: nat) {
    forall a :: a in s ==> a in ls && Len(ls, a) == m
  }

  lemma AllLenStep(before: AccountMap, after: AccountMap, s: seq<Address>, i: nat, m: nat)
    requires NoRepeat(s) && i < |s| && m > 0
    requires AllLen(before, s[..i], m - 1) && AllLen(before, s[i..], m)
    requires after - {s[i]} == before - {s[i]} && s[i] in after && Len(after, s[i]) == m - 1
    ensures AllLen(after, s[..i + 1], m - 1) && AllLen(after, s[i + 1..], m)
  {
    forall a | a in s[..i + 1] ensures a in after && Len(after, a) == m - 1 {
      if a != s[i] {
        assert a in s[..i];
        Elsewhere(before, after, s[i], a);
      }
    }
    forall a | a in s[i + 1..] ensures a in after && Len(after, a) == m {
      assert a in s[i..] && a != s[i];
      Elsewhere(before, after, s[i], a);
    }
  }

  lemma SameOutsideStep(first: AccountMap, before: AccountMap, after: AccountMap, s: seq<Address>, a: Address)
    requires SameOutside(first, before, s) && after - {a} == before - {a} && a in s
    ensures SameOutside(first, after, s)
  {
    forall b | b !in s ensures (b in after <==> b in first) && (b in first ==> after[b] == first[b]) {
      Elsewhere(before, after, a, b);
    }
  }

  /** A remote account with more pending transactions than it is guaranteed. */
  predicate Spams(ls: AccountMap, locals: set<Address>, slots: nat, a: Address) {
    a in ls && a !in locals && Len(ls, a) > slots
  }

  /** An offender stands at the common length, or, once the limit is met, may have been
      left alone below it. */
  ghost predicate Level(before: AccountMap, after: AccountMap, m: nat, fits: bool, a: Address) {
    && a in after
    && ((Len(after, a) == m && m <= Len(before, a)) || (fits && Len(after, a) == Len(before, a) <= m))
  }

  /** The state of the shortening between two pops: `offenders` were popped, `spammers`
      wait, and the offenders stand at length `m`. */
  ghost predicate Leveling(before: AccountMap, after: AccountMap, locals: set<Address>, slots: nat,
                           offenders: seq<Address>, spammers: set<Address>, m: nat, fits: bool) {
    && NoRepeat(offenders) && (forall a :: a in spammers ==> a !in offenders)
    && (forall a :: a in offenders || a in spammers <==> Spams(before, locals, slots, a))
    && SameOutside(before, after, offenders)
    && (offenders == [] ==> after == before)
    && (offenders != [] ==> slots < m
                            && (forall a :: a in offenders ==> Level(before, after, m, fits, a))
                            && (forall a :: a in spammers ==> Len(before, a) <= m))
  }

  lemma LevelingStart(before: AccountMap, locals: set<Address>, slots: nat, spammers: set<Address>, m: nat, fits: bool)
    requires forall a :: a in spammers <==> Spams(before, locals, slots, a)
    ensures Leveling(before, before, locals, slots, [], spammers, m, fits)
  {
  }

  /** When no large transactor is left to pop, and none was popped, there is none. */
  lemma LevelingSpams(before: AccountMap, after: AccountMap, locals: set<Address>, slots: nat, offenders: seq<Address>,
                      spammers: set<Address>, m: nat, fits: bool)
    requires Leveling(before, after, locals, slots, offenders, spammers, m, fits)
    ensures offenders == [] ==> after == before
    ensures offenders == [] && spammers == {} ==> forall a :: a in after && a !in locals ==> Len(after, a) <= slots
    ensures NoRepeat(offenders)
  {
    if offenders == [] && spammers == {} {
      forall a | a in after && a !in locals ensures Len(after, a) <= slots {
        assert !Spams(before, locals, slots, a);
      }
    }
  }

  lemma LevelingFirst(before: AccountMap, locals: set<Address>, slots: nat, spammers: set<Address>, m: nat,
                      a: Address, fits: bool)
    requires Leveling(before, before, locals, slots, [], spammers, m, false) && a in spammers
    requires forall b :: b in spammers ==> Len(before, b) <= Len(before, a)
    ensures Leveling(before, before, locals, slots, [a], spammers - {a}, Len(before, a), fits)
  {
    assert Spams(before, locals, slots, a);
  }

  lemma LevelingNext(before: AccountMap, mid: AccountMap, after: AccountMap, locals: set<Address>, slots: nat,
                     offenders: seq<Address>, spammers: set<Address>, m: nat, m': nat, a: Address, fits: bool)
    requires Leveling(before, mid, locals, slots, offenders, spammers, m, false) && offenders != [] && a in spammers
    requires forall b :: b in spammers ==> Len(mid, b) <= Len(mid, a)
    requires SameOutside(mid, after, offenders) && AllLen(after, offenders, m')
    requires Len(mid, a) <= m' <= m && (m' == Len(mid, a) || fits)
    ensures Leveling(before, after, locals, slots, offenders + [a], spammers - {a}, m', fits)
  {
    assert Spams(before, locals, slots, a);
    var all := offenders + [a];
    assert forall b :: b in all <==> b in offenders || b == a;
    forall b | b in all ensures Level(before, after, m', fits, b) {
      if b != a {
        assert Level(before, mid, m, false, b);
      }
    }
    assert NoRepeat(all);
  }

  /** Until the limit is met, all offenders have the same length. */
  lemma LevelingAll(before: AccountMap, after: AccountMap, locals: set<Address>, slots: nat,
                    offenders: seq<Address>, spammers: set<Address>, m: nat)
    requires Leveling(before, after, locals, slots, offenders, spammers, m, false) && offenders != []
    ensures AllLen(after, offenders, m) && slots < m
    ensures forall a :: a in spammers ==> a in after && after[a] == before[a] && slots < Len(after, a) <= m
  {
    forall a | a in offenders ensures a in after && Len(after, a) == m {
      assert Level(before, after, m, false, a);
    }
    forall a | a in spammers ensures a in after && after[a] == before[a] && slots < Len(after, a) <= m {
      assert Spams(before, locals, slots, a);
    }
  }

  lemma LevelingIsFair(before: AccountMap, after: AccountMap, locals: set<Address>, slots: nat,
                       offenders: seq<Address>, spammers: set<Address>, m: nat, fits: bool)
    requires Leveling(before, after, locals, slots, offenders, spammers, m, fits) && offenders != []
    ensures Fair(before, after, locals, slots, m)
  {
    forall a ensures FairAt(before, after, locals, m, a) {
      if a in offenders {
        assert Level(before, after, m, fits, a) && Spams(before, locals, slots, a);
      } else if a in spammers {
        assert Spams(before, locals, slots, a);
      } else {
        assert !Spams(before, locals, slots, a);
      }
    }
  }

  /** The last leveling, down to the guaranteed allowance if need be. */
  lemma LastLeveling(before: AccountMap, mid: AccountMap, after: AccountMap, locals: set<Address>, slots: nat,
                     offenders: seq<Address>, m: nat, m': nat)
    requires Leveling(before, mid, locals, slots, offenders, {}, m, false) && offenders != []
    requires SameOutside(mid, after, offenders) && AllLen(after, offenders, m') && slots <= m' <= m
    ensures Fair(before, after, locals, slots, m')
    ensures m' == slots ==> forall a :: a in after && a !in locals ==> Len(after, a) <= slots
  {
    forall a ensures FairAt(before, after, locals, m', a) && (m' == slots && a !in locals ==> Len(after, a) <= slots) {
      if a in offenders {
        assert Level(before, mid, m, false, a) && Spams(before, locals, slots, a);
      } else {
        assert !Spams(before, locals, slots, a);
      }
    }
  }

  /** While there are too many, or after a round of shortening that began with too many. */
  lemma RoundIsTight(before: AccountMap, mid: AccountMap, after: AccountMap, locals: set<Address>, slots: nat,
                     offenders: seq<Address>, spammers: set<Address>, m: nat, m': nat, limit: nat)
    requires Leveling(before, mid, locals, slots, offenders, spammers, m, false) && offenders != []
    requires Total(after) > limit || (AllLen(after, offenders, m') && m' < m && Total(after) + |offenders| > limit)
    ensures Tight(before, after, limit)
  {
    if Total(after) <= limit {
      forall a | a in Members(offenders) ensures a in Shortened(before, after) {
        assert Level(before, mid, m, false, a) && Spams(before, locals, slots, a);
      }
      MembersSize(offenders);
      SubsetSize(Members(offenders), Shortened(before, after));
    }
  }

  function Members(s: seq<Address>): set<Address> {
    set a | a in s
  }

  lemma {:induction false} MembersSize(s: seq<Address>)
    requires NoRepeat(s)
    ensures |Members(s)| == |s|
  {
    if s != [] {
      var n := |s| - 1;
      MembersSize(s[..n]);
      MembersNext(s, n);
      assert s[..n + 1] == s;
    }
  }

  lemma MembersNext(s: seq<Address>, i: nat)
    requires NoRepeat(s) && i < |s|
    ensures s[i] !in Members(s[..i]) && Members(s[..i + 1]) == Members(s[..i]) + {s[i]}
  {
    assert s[..i + 1] == s[..i] + [s[i]];
  }

  /** The last heartbeat of `a` lies before that of `b`; an account that never had one comes
      before all others. */
  predicate Earlier(beats: map<Address, int>, a: Address, b: Address) {
    b in beats && (a !in beats || beats[a] < beats[b])
  }

  /** Accounts with the most recent heartbeat lose their queued transactions first: one loses
      something only if every remote account with a later heartbeat has lost everything, and
      not more than one loses a part only. */
  ghost predicate NewestFirst(before: AccountMap, after: AccountMap, locals: set<Address>, beats: map<Address, int>) {
    && (forall a, b :: a in before && b in before && b !in locals && Len(after, a) < Len(before, a) && Earlier(beats, a, b) ==> b !in after)
    && (forall a, b :: Partly(before, after, a) && Partly(before, after, b) ==> a == b)
  }

  ghost predicate Partly(before: AccountMap, after: AccountMap, a: Address) {
    a in before && a in after && Len(after, a) < Len(before, a)
  }

  /** A truncation of the queue as the limit asks for it. */
  ghost predicate Relieved(before: AccountMap, after: AccountMap, locals: set<Address>, beats: map<Address, int>, limit: nat) {
    && NewestFirst(before, after, locals, beats) && (forall a :: Len(after, a) <= Len(before, a))
    && (forall a :: a in locals ==> At(after, a) == At(before, a))
    && (if Total(before) <= limit then after == before else Total(after) >= limit)
    && (Total(after) <= limit || forall a :: a in after ==> a in locals)
  }

  /** No two remote accounts have the same last heartbeat. */
  ghost predicate Ordered(ls: AccountMap, locals: set<Address>, beats: map<Address, int>) {
    forall a, b :: a in ls && b in ls && a !in locals && b !in locals && a != b ==> Earlier(beats, a, b) || Earlier(beats, b, a)
  }

  /** There is only one, unless heartbeats coincide. */
  lemma RelievedOnce(before: AccountMap, after: AccountMap, after': AccountMap, locals: set<Address>, beats: map<Address, int>, limit: nat, a: Address)
    requires Relieved(before, after, locals, beats, limit) && Relieved(before, after', locals, beats, limit) && Ordered(before, locals, beats)
    ensures Len(after, a) == Len(after', a)
  {
    RelievedLess(before, after, after', locals, beats, limit, a);
    RelievedLess(before, after', after, locals, beats, limit, a);
  }

  lemma RelievedLess(before: AccountMap, after: AccountMap, after': AccountMap, locals: set<Address>, beats: map<Address, int>, limit: nat, a: Address)
    requires Relieved(before, after, locals, beats, limit) && Relieved(before, after', locals, beats, limit) && Ordered(before, locals, beats)
    ensures Len(after, a) >= Len(after', a)
  {
    hide Earlier;
    if Len(after, a) < Len(after', a) {
      assert Len(after', a) <= Len(before, a) && a in before && a in after' && a !in locals;
      forall b ensures Len(after', b) >= Len(after, b) + if b in {a} then 1 else 0 {
        assert Len(after, b) <= Len(before, b) && Len(after', b) <= Len(before, b);
        if b in before && b !in locals && b != a && Earlier(beats, b, a) {
          assert Len(after', b) == Len(before, b);
        }
      }
      TotalGrows(after, after', {a});
      assert false;
    }
  }

  ghost predicate ByBeat(s: seq<Address>, beats: map<Address, int>) {
    forall i, j :: 0 <= i < j < |s| ==> !Earlier(beats, s[j], s[i])
  }

  /** The queue after the accounts from index `i` on were cut down, in order from the end. */
  ghost predicate Drained(before: AccountMap, after: AccountMap, addrs: seq<Address>, i: nat)
    requires i <= |addrs|
  {
    && SameOutside(before, after, addrs[i..])
    && (forall a :: a in addrs[i..] ==> a in before && Len(after, a) < Len(before, a))
    && forall j :: i < j < |addrs| ==> addrs[j] !in after
  }

  lemma SuffixStep(s: seq<Address>, i: nat)
    requires 0 < i <= |s| && NoRepeat(s)
    ensures s[i - 1] !in s[i..] && forall a :: a in s[i - 1..] <==> a == s[i - 1] || a in s[i..]
  {
    assert s[i - 1..] == [s[i - 1]] + s[i..];
  }

  lemma DrainedStep(before: AccountMap, mid: AccountMap, after: AccountMap, addrs: seq<Address>, i: nat)
    requires NoRepeat(addrs) && 0 < i <= |addrs| && Drained(before, mid, addrs, i)
    requires addrs[i - 1] in mid && after - {addrs[i - 1]} == mid - {addrs[i - 1]} && forall a :: a in addrs[i..] ==> a !in mid
    requires Len(after, addrs[i - 1]) < Len(mid, addrs[i - 1])
    ensures Drained(before, after, addrs, i - 1)
  {
    hide NoRepeat;
    var x := addrs[i - 1];
    SuffixStep(addrs, i);
    forall a | a !in addrs[i - 1..] ensures (a in after <==> a in before) && (a in before ==> after[a] == before[a]) {
      Elsewhere(mid, after, x, a);
    }
    forall a | a in addrs[i - 1..] ensures a in before && Len(after, a) < Len(before, a) {
      if a != x {
        Elsewhere(mid, after, x, a);
      }
    }
    forall j | i - 1 < j < |addrs| ensures addrs[j] !in after {
      assert addrs[j] == addrs[i..][j - i] && addrs[j] in addrs[i..];
      Elsewhere(mid, after, x, addrs[j]);
    }
  }

  lemma DrainedNewestFirst(before: AccountMap, after: AccountMap, locals: set<Address>, beats: map<Address, int>,
                           addrs: seq<Address>, i: nat)
    requires i <= |addrs| && Drained(before, after, addrs, i) && ByBeat(addrs, beats)
    requires forall a :: a in addrs <==> a in before && a !in locals
    ensures NewestFirst(before, after, locals, beats)
  {
    assert forall l :: i <= l < |addrs| ==> addrs[i..][l - i] == addrs[l];
    forall a, b | a in before && b in before && b !in locals && Len(after, a) < Len(before, a) && Earlier(beats, a, b)
      ensures b !in after
    {
      assert a in addrs[i..] && b in addrs;
      var k :| i <= k < |addrs| && addrs[k] == a;
      var l :| 0 <= l < |addrs| && addrs[l] == b;
      assert l > k;
    }
    forall a | Partly(before, after, a) ensures i < |addrs| && a == addrs[i] {
      assert a in addrs[i..];
      var k :| i <= k < |addrs| && addrs[k] == a;
    }
  }

  /** The pool's size is the number of pending plus the number of queued transactions. */
  lemma {:induction false} SizeIsTotal(all: P.All, pending: AccountMap, queue: AccountMap)
    requires Shaped(all, pending, queue)
    ensures |all| == Total(pending) + Total(queue)
    decreases |pending| + |queue|
  {
    if pending == map[] && queue == map[] {
      EmptyPool(all);
    } else {
      var a :| a in pending || a in queue;
      var rest := WithoutAccount(all, pending, queue, a);
      FewerAccounts(pending, queue, a);
      SizeIsTotal(rest, pending - {a}, queue - {a});
      TotalUpdate(pending, pending - {a}, a);
      TotalUpdate(queue, queue - {a}, a);
    }
  }

  lemma FewerAccounts(pending: AccountMap, queue: AccountMap, a: Address)
    requires a in pending || a in queue
    ensures |pending - {a}| + |queue - {a}| < |pending| + |queue|
    ensures (pending - {a}) - {a} == pending - {a} && (queue - {a}) - {a} == queue - {a}
  {
    assert (pending - {a}).Keys == pending.Keys - {a} && (queue - {a}).Keys == queue.Keys - {a};
  }

  lemma EmptyPool(all: P.All)
    requires Shaped(all, map[], map[])
    ensures all == map[]
  {
    forall h ensures h !in all {
      if h.preimage.sender.Some? {
        assert Ok(all, map[], map[], h.preimage.sender.value);
      }
      assert h == h.preimage.Hash();
      assert !P.Live(h.preimage, all);
    }
  }

  /** The pool without one account's transactions. */
  lemma WithoutAccount(all: P.All, pending: AccountMap, queue: AccountMap, a: Address) returns (rest: P.All)
    requires Shaped(all, pending, queue)
    ensures Shaped(rest, pending - {a}, queue - {a}) && |rest| == |all| - Len(pending, a) - Len(queue, a)
  {
    assert Ok(all, pending, queue, a);
    var p, q := At(pending, a), At(queue, a);
    var mid := WithoutSide(all, a, p, q);
    Symmetric(mid, a, p, map[]);
    rest := WithoutSide(mid, a, map[], p);
    ShapeUpdate(all, pending, queue, rest, pending - {a}, queue - {a}, a);
  }

  lemma WithoutSide(all: P.All, a: Address, p: ByNonce, q: ByNonce) returns (rest: P.All)
    requires P.HashKeyed(all) && AccountOk(all, a, p, q)
    ensures P.HashKeyed(rest) && AccountOk(rest, a, p, map[]) && SameElsewhere(all, rest, a) && |rest| == |all| - |q|
  {
    hide InOrder, DistinctNonces, P.Distinct, AccountOk, SameElsewhere;
    var txs := InOrder(q);
    assert Keyed(q) by { KeyedSide(all, a, p, q); }
    InOrderLists(q);
    RestrictRest(q, q.Keys);
    WholeRestrict(q);
    DropOk(all, a, p, q, q.Keys, txs);
    ListedLive(all, a, p, q, q.Keys, txs);
    P.HashesCount(txs);
    rest := all - P.Hashes(txs);
    FewerHashes(all, txs);
  }

  lemma KeyedSide(all: P.All, a: Address, p: ByNonce, q: ByNonce)
    requires AccountOk(all, a, p, q)
    ensures Keyed(q)
  {
  }

  lemma WholeRestrict(q: ByNonce)
    ensures Restrict(q, q.Keys) == q && q - q.Keys == map[]
  {
  }

  lemma FewerHashes(all: P.All, txs: seq<Tx>)
    requires forall tx :: tx in txs ==> P.Live(tx, all)
    ensures |all - P.Hashes(txs)| == |all| - |P.Hashes(txs)|
  {
    assert P.Hashes(txs) <= all.Keys;
    assert (all - P.Hashes(txs)).Keys == all.Keys - P.Hashes(txs);
  }

  lemma SmallerPool(all: P.All, all': P.All)
    requires Shrunk(all, all')
    ensures |all'| <= |all|
  {
    forall h | h in all' ensures h in all {
      assert P.Live(h.preimage, all');
    }
    SubsetSize(all'.Keys, all.Keys);
  }

  lemma GrownPool(all: P.All, all': P.All, tx: Tx)
    requires forall t :: P.Live(t, all') ==> t == tx || P.Live(t, all)
    ensures |all'| <= |all| + 1
  {
    forall h | h in all' ensures h in all.Keys + {tx.Hash()} {
      assert P.Live(h.preimage, all');
    }
    SubsetSize(all'.Keys, all.Keys + {tx.Hash()});
  }

  lemma {:induction false} SubsetSize<T>(a: set<T>, b: set<T>)
    requires a <= b
    ensures |a| <= |b|
  {
    assert b == a + (b - a);
  }

  // Cutting pending lists lowers the virtual nonces.

  /** The lower of `v` and the lowest member of `s`. */
  function Low(v: nat, s: set<nat>): nat {
    if s == {} || v <= Min(s) then v else Min(s)
  }

  /** Every account keeps its lowest pending nonces, and its virtual nonce falls to the
      lowest one it loses. */
  ghost predicate Trimmed(before: AccountMap, virtuals: map<Address, nat>, after: AccountMap, virtuals': map<Address, nat>, head: Head) {
    forall a: Address :: TrimmedAt(At(before, a), VirtualOf(virtuals, head, a), At(after, a), VirtualOf(virtuals', head, a))
  }

  ghost predicate TrimmedAt(p: ByNonce, v: nat, p': ByNonce, v': nat) {
    CutTo(p, p') && v' == Low(v, p.Keys - p'.Keys)
  }

  lemma LowTwice(v: nat, s: set<nat>, t: set<nat>)
    ensures Low(Low(v, s), t) == Low(v, s + t)
  {
    if s != {} && t != {} {
      assert IsMin(Min(s + t), s + t);
      assert Min(s) in s + t && Min(t) in s + t;
    } else {
      assert s == {} ==> s + t == t;
      assert t == {} ==> s + t == s;
    }
  }

  lemma TrimAgain(p: ByNonce, v: nat, p': ByNonce, v': nat, p'': ByNonce, v'': nat)
    requires TrimmedAt(p, v, p', v') && TrimmedAt(p', v', p'', v'')
    ensures TrimmedAt(p, v, p'', v'')
  {
    hide CutTo, Low;
    CutAgain(p, p', p'');
    CutKeeps(p, p');
    CutKeeps(p', p'');
    LowTwice(v, p.Keys - p'.Keys, p'.Keys - p''.Keys);
    assert p.Keys - p''.Keys == (p.Keys - p'.Keys) + (p'.Keys - p''.Keys);
  }

  lemma CutKeeps(p: ByNonce, p': ByNonce)
    requires CutTo(p, p')
    ensures p'.Keys <= p.Keys && forall n :: n in p' ==> p'[n] == p[n]
  {
  }

  lemma TrimNothing(ls: AccountMap, virtuals: map<Address, nat>, head: Head)
    ensures Trimmed(ls, virtuals, ls, virtuals, head)
  {
    forall a: Address ensures TrimmedAt(At(ls, a), VirtualOf(virtuals, head, a), At(ls, a), VirtualOf(virtuals, head, a)) {
      CutNothing(At(ls, a));
    }
  }

  /** Cutting down the list of one more account. */
  lemma TrimStep(first: AccountMap, virtuals: map<Address, nat>, before: AccountMap, virtuals': map<Address, nat>,
                 after: AccountMap, virtuals'': map<Address, nat>, head: Head, a: Address)
    requires Trimmed(first, virtuals, before, virtuals', head) && after - {a} == before - {a} && virtuals'' - {a} == virtuals' - {a}
    requires TrimmedAt(At(before, a), VirtualOf(virtuals', head, a), At(after, a), VirtualOf(virtuals'', head, a))
    ensures Trimmed(first, virtuals, after, virtuals'', head)
  {
    hide TrimmedAt;
    forall b: Address ensures TrimmedAt(At(first, b), VirtualOf(virtuals, head, b), At(after, b), VirtualOf(virtuals'', head, b)) {
      assert TrimmedAt(At(first, b), VirtualOf(virtuals, head, b), At(before, b), VirtualOf(virtuals', head, b));
      if b == a {
        TrimAgain(At(first, a), VirtualOf(virtuals, head, a), At(before, a), VirtualOf(virtuals', head, a), At(after, a), VirtualOf(virtuals'', head, a));
      } else {
        Elsewhere(before, after, a, b);
        VirtualElsewhere(virtuals', virtuals'', head, a, b);
      }
    }
  }

  lemma TrimTrans(first: AccountMap, virtuals: map<Address, nat>, before: AccountMap, virtuals': map<Address, nat>,
                  after: AccountMap, virtuals'': map<Address, nat>, head: Head)
    requires Trimmed(first, virtuals, before, virtuals', head) && Trimmed(before, virtuals', after, virtuals'', head)
    ensures Trimmed(first, virtuals, after, virtuals'', head)
  {
    hide TrimmedAt;
    forall b: Address ensures TrimmedAt(At(first, b), VirtualOf(virtuals, head, b), At(after, b), VirtualOf(virtuals'', head, b)) {
      assert TrimmedAt(At(first, b), VirtualOf(virtuals, head, b), At(before, b), VirtualOf(virtuals', head, b));
      assert TrimmedAt(At(before, b), VirtualOf(virtuals', head, b), At(after, b), VirtualOf(virtuals'', head, b));
      TrimAgain(At(first, b), VirtualOf(virtuals, head, b), At(before, b), VirtualOf(virtuals', head, b), At(after, b), VirtualOf(virtuals'', head, b));
    }
  }

  /** Dropping the highest pending transaction. */
  lemma TrimHighest(p: ByNonce, v: nat)
    requires p != map[]
    ensures var n := Nonces.Max(p.Keys); TrimmedAt(p, v, p - {n}, if v > n then n else v)
  {
    var n := Nonces.Max(p.Keys);
    CutHighest(p);
    assert p.Keys - (p - {n}).Keys == {n};
    assert Min({n}) == n;
  }

  lemma TrimKeepsLowest(before: AccountMap, virtuals: map<Address, nat>, after: AccountMap, virtuals': map<Address, nat>, head: Head)
    requires Trimmed(before, virtuals, after, virtuals', head)
    ensures KeepsLowest(before, after)
  {
    forall a: Address ensures CutTo(At(before, a), At(after, a)) {
      assert TrimmedAt(At(before, a), VirtualOf(virtuals, head, a), At(after, a), VirtualOf(virtuals', head, a));
    }
  }
}
