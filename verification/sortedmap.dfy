/** txSortedMap: a nonce-to-transaction map with a heap of its nonces and a cached
    nonce-ordered copy, kept equal to the plain map it represents. */
module SortedMap {
  import opened Nonces
  import opened Transactions
  import opened Wrappers
  import H = BinaryHeap

  predicate NonceLess(a: nat, b: nat) {
    a < b
  }

  /** The heap holds each nonce of `keys` once. */
  ghost predicate Indexes(index: seq<nat>, keys: set<nat>) {
    H.Heap(index, NonceLess) && multiset(index) == multiset(keys)
  }

  function Matching(m: ByNonce, f: Tx -> bool): (s: set<nat>)
    ensures forall n :: n in s <==> n in m && f(m[n])
  {
    set n | n in m && f(m[n])
  }

  /** The nonces that Ready takes: the unbroken run from the lowest one, if that
      does not lie above `start`. */
  function ReadyRun(m: ByNonce, start: nat): (s: set<nat>)
    ensures s <= m.Keys
  {
    if m == map[] || Min(m.Keys) > start then {}
    else set n | n in m && n < RunEnd(m.Keys, Min(m.Keys))
  }

  lemma IndexFacts(index: seq<nat>, keys: set<nat>)
    requires Indexes(index, keys)
    ensures |index| == |keys|
    ensures forall n :: n in index <==> n in keys
    ensures index != [] ==> IsMin(index[0], keys)
  {
    assert |multiset(index)| == |multiset(keys)|;
    forall n ensures n in index <==> n in keys {
      assert n in index <==> n in multiset(index);
      assert n in keys <==> n in multiset(keys);
    }
    if index != [] {
      forall n | n in keys ensures index[0] <= n {
        var i :| 0 <= i < |index| && index[i] == n;
        H.RootIsMinimal(index, NonceLess, i);
      }
    }
  }

  /** `ns` lists the members of `keys`, each once. */
  ghost predicate Once(ns: seq<nat>, keys: set<nat>) {
    (forall n :: n in ns <==> n in keys) && NoRepeat(ns)
  }

  ghost predicate NoRepeat(ns: seq<nat>) {
    forall i, j :: 0 <= i < j < |ns| ==> ns[i] != ns[j]
  }

  /** Ranging over a Go map: each key once, in some order. */
  method RangeKeys(keys: set<nat>) returns (ns: seq<nat>)
    ensures Once(ns, keys) && multiset(ns) == multiset(keys)
  {
    ns := [];
    var todo := keys;
    while todo != {}
      invariant todo <= keys && Once(ns, keys - todo) && multiset(ns) == multiset(keys - todo)
    {
      var n :| n in todo;
      assert keys - (todo - {n}) == (keys - todo) + {n};
      todo := todo - {n};
      ns := ns + [n];
    }
    assert keys - todo == keys;
  }

  lemma OnceStep(ns: seq<nat>, keys: set<nat>, i: nat)
    requires Once(ns, keys) && i < |ns|
    ensures ns[i] in keys && ns[i] !in ns[..i] && forall n :: n in ns[..i + 1] <==> n in ns[..i] || n == ns[i]
  {
    assert ns[i] in ns;
    assert ns[..i + 1] == ns[..i] + [ns[i]];
  }

  lemma PickLists(m: ByNonce, ns: seq<nat>)
    requires Keyed(m) && Once(ns, m.Keys)
    ensures Lists(Pick(m, ns), m)
  {
    var txs := Pick(m, ns);
    forall i | 0 <= i < |ns| ensures ns[i] in m && txs[i].nonce == ns[i] {
      assert ns[i] in ns;
    }
    forall n | n in m ensures m[n] in txs {
      var i :| 0 <= i < |ns| && ns[i] == n;
      assert txs[i] == m[n];
    }
  }

  /** Ranging over the values of a Go map, in some order. */
  method RangeTxs(m: ByNonce) returns (txs: seq<Tx>)
    requires Keyed(m)
    ensures Lists(txs, m)
  {
    var ns := RangeKeys(m.Keys);
    PickLists(m, ns);
    txs := Pick(m, ns);
  }

  function Reversed(s: seq<Tx>): (r: seq<Tx>)
    ensures |r| == |s| && forall i :: 0 <= i < |s| ==> r[i] == s[|s| - 1 - i]
  {
    seq(|s|, i requires 0 <= i < |s| => s[|s| - 1 - i])
  }

  /** The matching nonces among the first `i` of `ns`. */
  function Hits(m: ByNonce, ns: seq<nat>, i: nat, f: Tx -> bool): (s: set<nat>)
    requires i <= |ns|
  {
    set n | n in ns[..i] && n in m && f(m[n])
  }

  lemma HitsStep(m: ByNonce, ns: seq<nat>, i: nat, f: Tx -> bool)
    requires i < |ns| && ns[i] in m
    ensures Hits(m, ns, i + 1, f) == Hits(m, ns, i, f) + if f(m[ns[i]]) then {ns[i]} else {}
  {
    assert ns[..i + 1] == ns[..i] + [ns[i]];
  }

  lemma ListsOneMore(txs: seq<Tx>, m: ByNonce, s: set<nat>, n: nat)
    requires Keyed(m) && n in m && n !in s && Lists(txs, Restrict(m, s))
    ensures Lists(txs + [m[n]], Restrict(m, s + {n}))
  {
    var r, t := Restrict(m, s), txs + [m[n]];
    forall k | k in Restrict(m, s + {n}) ensures m[k] in t {
      if k == n {
        assert t[|txs|] == m[k];
      } else {
        assert k in r;
      }
    }
  }

  function Set(ns: seq<nat>): (s: set<nat>)
    ensures forall n :: n in s <==> n in ns
  {
    set n | n in ns
  }

  /** `m` is what is left of `m0` after taking its lowest nonces `ns`, one by one. */
  ghost predicate Popped(m0: ByNonce, m: ByNonce, ns: seq<nat>) {
    && Ascending(ns) && (forall n :: n in ns ==> n in m0)
    && m == m0 - Set(ns)
    && (forall n, k :: n in ns && k in m ==> n < k)
  }

  lemma PopStep(m0: ByNonce, m: ByNonce, ns: seq<nat>, n: nat)
    requires Popped(m0, m, ns) && IsMin(n, m.Keys)
    ensures Popped(m0, m - {n}, ns + [n])
    ensures Pick(m0, ns + [n]) == Pick(m0, ns) + [m0[n]]
  {
    assert Set(ns + [n]) == Set(ns) + {n};
    assert m - {n} == m0 - Set(ns + [n]);
    PickConcat(m0, ns, [n]);
  }

  /** The nonces taken, in order, are the ascending listing of their set. */
  lemma PoppedInOrder(m0: ByNonce, m: ByNonce, ns: seq<nat>, s: set<nat>)
    requires Popped(m0, m, ns) && s <= m0.Keys && forall n :: n in ns <==> n in s
    ensures m == m0 - s && Pick(m0, ns) == InOrder(Restrict(m0, s))
  {
    assert Set(ns) == s;
    ListingAscends(s);
    AscendingIsUnique(ns, Listing(s));
    assert Restrict(m0, s).Keys == s;
    PickAgrees(m0, Restrict(m0, s), ns);
  }

  lemma IndexMinus(index: seq<nat>, keys: set<nat>, rest: seq<nat>, n: nat)
    requires multiset(index) == multiset(keys) && n in keys
    requires multiset(index) == multiset(rest) + multiset{n}
    ensures multiset(rest) == multiset(keys - {n})
  {
    assert multiset(keys) == multiset(keys - {n}) + multiset{n};
    assert multiset(rest) == multiset(index) - multiset{n};
    assert multiset(keys - {n}) == multiset(keys) - multiset{n};
  }

  /** Dropping a lower part from the map drops a prefix of its nonce order. */
  lemma CacheSplits(m: ByNonce, s: set<nat>)
    requires s <= m.Keys && Precedes(s, m.Keys - s)
    ensures InOrder(m) == InOrder(Restrict(m, s)) + InOrder(m - s)
  {
    InOrderSplits(m, s);
    RestrictRest(m, s);
  }

  lemma RestrictRest(m: ByNonce, s: set<nat>)
    requires s <= m.Keys
    ensures Restrict(m, m.Keys - s) == m - s
    ensures Restrict(m, s).Keys == s && (m - s).Keys == m.Keys - s
    ensures Restrict(m, s) == m - (m.Keys - s)
  {
  }

  lemma {:induction false} ListingMultiset(s: set<nat>)
    ensures multiset(Listing(s)) == multiset(s)
  {
    if s != {} {
      ListingMultiset(s - {Min(s)});
      assert multiset(s) == multiset{Min(s)} + multiset(s - {Min(s)});
    }
  }

  lemma Twice(ns: seq<nat>, i: nat, j: nat)
    requires i < j < |ns| && ns[i] == ns[j]
    ensures multiset(ns)[ns[j]] >= 2
  {
    assert ns == ns[..j] + [ns[j]] + ns[j + 1..];
    assert ns[i] in ns[..j];
  }

  lemma SortedIsListing(ns: seq<nat>, s: set<nat>)
    requires H.Sorted(ns, NonceLess) && multiset(ns) == multiset(s)
    ensures ns == Listing(s)
  {
    forall n ensures n in ns <==> n in s {
      assert n in ns <==> n in multiset(ns);
    }
    forall i, j | 0 <= i < j < |ns| ensures ns[i] < ns[j] {
      if ns[i] == ns[j] {
        Twice(ns, i, j);
      }
    }
    ListingAscends(s);
    AscendingIsUnique(ns, Listing(s));
  }

  /** sort.Sort on the index. */
  method SortIndex(index: seq<nat>, ghost keys: set<nat>) returns (ns: seq<nat>)
    requires multiset(index) == multiset(keys)
    ensures ns == Listing(keys)
  {
    ns := H.Sort(index, NonceLess);
    SortedIsListing(ns, keys);
  }

  lemma ListingCut(s: set<nat>, k: nat)
    requires k <= |s|
    ensures Listing(s)[..k] == Listing(Lowest(s, k)) && Listing(s)[k..] == Listing(s - Lowest(s, k))
  {
    var a := Lowest(s, k);
    LowestPrecede(s, k);
    ListingSplits(s, a, s - a);
  }

  lemma AscendingApart(ns: seq<nat>, i: nat)
    requires Ascending(ns) && 0 < i <= |ns|
    ensures ns[i - 1] !in ns[i..]
  {
  }

  lemma DropStep(m: ByNonce, ns: seq<nat>, i: nat)
    requires 0 < i <= |ns| && ns == Listing(m.Keys)
    ensures forall n :: n in ns[i..] || n in ns[i - 1..] ==> n in m
    ensures ns[i - 1] in m - Set(ns[i..])
    ensures Reversed(Pick(m, ns[i - 1..])) == Reversed(Pick(m, ns[i..])) + [m[ns[i - 1]]]
    ensures m - Set(ns[i - 1..]) == m - Set(ns[i..]) - {ns[i - 1]}
  {
    hide Ascending, Listing;
    var p, q := ns[i - 1..], ns[i..];
    ListingAscends(m.Keys);
    AscendingApart(ns, i);
    assert p == [ns[i - 1]] + q;
    assert ns[i - 1] in ns;
    assert Set(p) == Set(q) + {ns[i - 1]};
    PickConcat(m, [ns[i - 1]], q);
  }

  lemma CapResult(m: ByNonce, ns: seq<nat>, k: nat)
    requires ns == Listing(m.Keys) && k <= |ns|
    ensures m - Set(ns[k..]) == Restrict(m, Lowest(m.Keys, k))
    ensures Pick(m, ns[k..]) == InOrder(m - Lowest(m.Keys, k))
    ensures multiset(ns[..k]) == multiset(Restrict(m, Lowest(m.Keys, k)).Keys)
  {
    var a := Lowest(m.Keys, k);
    ListingCut(m.Keys, k);
    ListingMultiset(a);
    RestrictRest(m, a);
    ListingSet(m.Keys - a);
    PickAgrees(m, m - a, ns[k..]);
  }

  lemma ListingSet(s: set<nat>)
    ensures Set(Listing(s)) == s
  {
  }

  lemma MinusStep(m: ByNonce, s: set<nat>, n: nat)
    ensures m - s - {n} == m - (s + {n})
  {
  }

  lemma RunIs(m: ByNonce, e: nat)
    requires m != map[] && Min(m.Keys) <= e && e !in m
    requires forall k :: Min(m.Keys) <= k < e ==> k in m
    ensures RunEnd(m.Keys, Min(m.Keys)) == e
  {
  }

  lemma AllHits(m: ByNonce, ns: seq<nat>, f: Tx -> bool)
    requires Once(ns, m.Keys)
    ensures Hits(m, ns, |ns|, f) == Matching(m, f)
  {
    assert ns[..|ns|] == ns;
  }

  lemma NothingListed(txs: seq<Tx>, m: ByNonce, s: set<nat>)
    requires Lists(txs, Restrict(m, s)) && s <= m.Keys && txs == []
    ensures m - s == m
  {
    RestrictRest(m, s);
    assert forall n :: n !in Restrict(m, s);
  }

  ghost predicate TakenBelow(ns: seq<nat>, t: nat) {
    forall n :: n in ns ==> n < t
  }

  lemma TakenMore(ns: seq<nat>, t: nat, n: nat, t': nat)
    requires TakenBelow(ns, t) && t <= t' && n < t'
    ensures TakenBelow(ns + [n], t')
  {
  }

  lemma BelowPrecedes(m: ByNonce, t: nat)
    ensures Precedes(Below(m, t), m.Keys - Below(m, t))
  {
  }

  ghost predicate Spans(m: ByNonce, lo: nat, hi: nat) {
    forall k :: lo <= k < hi ==> k in m
  }

  lemma SpansMore(m: ByNonce, lo: nat, hi: nat)
    requires Spans(m, lo, hi) && hi in m
    ensures Spans(m, lo, hi + 1)
  {
  }

  lemma BelowTaken(m0: ByNonce, m: ByNonce, ns: seq<nat>, t: nat)
    requires Popped(m0, m, ns) && TakenBelow(ns, t) && forall k :: k in m ==> t <= k
    ensures m == m0 - Below(m0, t) && Pick(m0, ns) == InOrder(Restrict(m0, Below(m0, t)))
  {
    assert forall n :: n in m0 ==> n in ns || n in m;
    PoppedInOrder(m0, m, ns, Below(m0, t));
  }

  lemma RunTaken(m0: ByNonce, m: ByNonce, ns: seq<nat>, e: nat)
    requires Popped(m0, m, ns) && TakenBelow(ns, e) && m0 != map[] && forall k :: k in m ==> e < k
    requires Min(m0.Keys) <= e && Spans(m0, Min(m0.Keys), e)
    ensures m == m0 - ReadyRun(m0, Min(m0.Keys))
    ensures Pick(m0, ns) == InOrder(Restrict(m0, ReadyRun(m0, Min(m0.Keys))))
  {
    assert forall n :: n in m0 ==> n in ns || n in m;
    RunIs(m0, e);
    PoppedInOrder(m0, m, ns, ReadyRun(m0, Min(m0.Keys)));
  }

  lemma Halves<T>(s: seq<T>, a: seq<T>, b: seq<T>)
    requires s == a + b
    ensures s[..|s| - |b|] == a
  {
  }

  lemma NothingToCap(m: ByNonce)
    ensures Restrict(m, m.Keys) == m && InOrder(m - m.Keys) == []
  {
    assert m - m.Keys == map[];
  }

  lemma CapCache(m: ByNonce, k: nat, drops: seq<Tx>)
    requires drops == Reversed(InOrder(m - Lowest(m.Keys, k)))
    ensures |drops| <= |InOrder(m)|
    ensures InOrder(m)[..|InOrder(m)| - |drops|] == InOrder(Restrict(m, Lowest(m.Keys, k)))
  {
    hide InOrder;
    var a := Lowest(m.Keys, k);
    LowestPrecede(m.Keys, k);
    CacheSplits(m, a);
    Halves(InOrder(m), InOrder(Restrict(m, a)), InOrder(m - a));
  }

  class TxSortedMap {
    var items: ByNonce
    var index: seq<nat>
    var cache: Option<seq<Tx>>

    ghost predicate Valid()
      reads this
    {
      && Keyed(items)
      && Indexes(index, items.Keys)
      && (cache.Some? ==> cache.value == InOrder(items))
    }

    constructor ()
      ensures Valid() && items == map[]
    {
      items, index, cache := map[], [], None;
    }

    method Put(tx: Tx)
      requires Valid()
      modifies this
      ensures Valid() && items == old(items)[tx.nonce := tx]
    {
      hide H.Heap, InOrder;
      if tx.nonce !in items {
        index := H.Push(index, NonceLess, tx.nonce);
        assert (items[tx.nonce := tx]).Keys == items.Keys + {tx.nonce};
      } else {
        assert (items[tx.nonce := tx]).Keys == items.Keys;
      }
      items, cache := items[tx.nonce := tx], None;
    }

    /** The index and map agree, and `ns` is what was taken from `m0` so far. */
    ghost predicate Popping(m0: ByNonce, ns: seq<nat>)
      reads this
    {
      && Keyed(items) && Indexes(index, items.Keys) && |index| == |items|
      && (index != [] ==> IsMin(index[0], items.Keys))
      && Popped(m0, items, ns)
    }

    /** heap.Pop on the index, together with the deletion from the map. */
    method PopFront(ghost m0: ByNonce, ghost ns: seq<nat>) returns (tx: Tx)
      requires Popping(m0, ns) && index != []
      modifies this`items, this`index
      ensures Popping(m0, ns + [tx.nonce])
      ensures tx.nonce == old(index[0]) && tx.nonce in m0 && |items| < old(|items|)
      ensures index != [] ==> tx.nonce < index[0]
      ensures Pick(m0, ns + [tx.nonce]) == Pick(m0, ns) + [tx]
    {
      var h, n := H.Pop(index, NonceLess);
      tx := items[n];
      PopStep(m0, items, ns, n);
      IndexMinus(index, items.Keys, h, n);
      RestrictRest(items, {n});
      items, index := items - {n}, h;
      IndexFacts(index, items.Keys);
      assert index != [] ==> index[0] in items && n in ns + [n];
    }

    /** The popping loop of Forward, which leaves the cache to its caller. */
    method PopBelow(threshold: nat) returns (removed: seq<Tx>)
      requires Keyed(items) && Indexes(index, items.Keys)
      modifies this`items, this`index
      ensures Keyed(items) && Indexes(index, items.Keys)
      ensures items == old(items) - Below(old(items), threshold)
      ensures removed == InOrder(Restrict(old(items), Below(old(items), threshold)))
    {
      removed := [];
      ghost var m0, ns: seq<nat> := items, [];
      IndexFacts(index, items.Keys);
      while |index| > 0 && index[0] < threshold
        invariant Popping(m0, ns) && TakenBelow(ns, threshold)
        invariant removed == Pick(m0, ns)
        decreases |items|
      {
        var tx := PopFront(m0, ns);
        TakenMore(ns, threshold, tx.nonce, threshold);
        removed, ns := removed + [tx], ns + [tx.nonce];
      }
      BelowTaken(m0, items, ns, threshold);
    }

    method Forward(threshold: nat) returns (removed: seq<Tx>)
      requires Valid()
      modifies this
      ensures Valid() && items == old(items) - Below(old(items), threshold)
      ensures removed == InOrder(Restrict(old(items), Below(old(items), threshold)))
    {
      removed := PopBelow(threshold);
      if cache.Some? {
        BelowPrecedes(old(items), threshold);
        CacheSplits(old(items), Below(old(items), threshold));
        cache := Some(cache.value[|removed|..]);
      }
    }

    /** Rebuilds the index from the map, as Filter does when it removed something. */
    method Reindex()
      requires Keyed(items)
      modifies this
      ensures Valid() && items == old(items)
    {
      var ns := RangeKeys(items.Keys);
      index := H.Init(ns, NonceLess);
      cache := None;
    }

    /** The sweep over the map in Filter. */
    method Sweep(f: Tx -> bool) returns (removed: seq<Tx>)
      requires Keyed(items)
      modifies this`items
      ensures items == old(items) - Matching(old(items), f)
      ensures Lists(removed, Restrict(old(items), Matching(old(items), f)))
    {
      removed := [];
      var ns := RangeKeys(items.Keys);
      ghost var m := items;
      for i := 0 to |ns|
        invariant items == m - Hits(m, ns, i, f)
        invariant Lists(removed, Restrict(m, Hits(m, ns, i, f)))
      {
        assert ns[i] in ns && ns[i] !in ns[..i];
        HitsStep(m, ns, i, f);
        if f(items[ns[i]]) {
          ListsOneMore(removed, m, Hits(m, ns, i, f), ns[i]);
          MinusStep(m, Hits(m, ns, i, f), ns[i]);
          removed := removed + [items[ns[i]]];
          items := items - {ns[i]};
        }
      }
      AllHits(m, ns, f);
    }

    method Filter(f: Tx -> bool) returns (removed: seq<Tx>)
      requires Valid()
      modifies this
      ensures Valid() && items == old(items) - Matching(old(items), f)
      ensures Lists(removed, Restrict(old(items), Matching(old(items), f)))
    {
      removed := Sweep(f);
      if |removed| > 0 {
        Reindex();
      } else {
        NothingListed(removed, old(items), Matching(old(items), f));
      }
    }

    /** The dropping loop of Cap over the sorted index. */
    method DropFrom(ns: seq<nat>, threshold: nat) returns (drops: seq<Tx>)
      requires ns == Listing(items.Keys) && threshold <= |ns|
      modifies this`items
      ensures items == old(items) - Set(ns[threshold..])
      ensures forall n :: n in ns[threshold..] ==> n in old(items)
      ensures drops == Reversed(Pick(old(items), ns[threshold..]))
    {
      drops := [];
      var size := |items|;
      assert ns[size..] == [];
      while size > threshold
        invariant threshold <= size <= |ns|
        invariant forall n :: n in ns[size..] ==> n in old(items)
        invariant drops == Reversed(Pick(old(items), ns[size..]))
        invariant items == old(items) - Set(ns[size..])
      {
        DropStep(old(items), ns, size);
        drops := drops + [items[ns[size - 1]]];
        items := items - {ns[size - 1]};
        size := size - 1;
      }
    }

    /** The part of Cap that shrinks the map and its index. */
    method Shrink(threshold: nat) returns (drops: seq<Tx>)
      requires Keyed(items) && Indexes(index, items.Keys) && threshold < |items|
      modifies this`items, this`index
      ensures Keyed(items) && Indexes(index, items.Keys)
      ensures items == Restrict(old(items), Lowest(old(items).Keys, threshold))
      ensures drops == Reversed(InOrder(old(items) - Lowest(old(items).Keys, threshold)))
    {
      var ns := SortIndex(index, items.Keys);
      drops := DropFrom(ns, threshold);
      CapResult(old(items), ns, threshold);
      index := H.Init(ns[..threshold], NonceLess);
    }

    method Cap(threshold: nat) returns (drops: seq<Tx>)
      requires Valid()
      modifies this
      ensures Valid() && items == Restrict(old(items), Lowest(old(items).Keys, threshold))
      ensures drops == Reversed(InOrder(old(items) - Lowest(old(items).Keys, threshold)))
    {
      if |items| <= threshold {
        NothingToCap(items);
        return [];
      }
      drops := Shrink(threshold);
      if cache.Some? {
        CapCache(old(items), threshold, drops);
        cache := Some(cache.value[..|cache.value| - |drops|]);
      }
    }

    method Remove(nonce: nat) returns (found: bool)
      requires Valid()
      modifies this
      ensures Valid() && items == old(items) - {nonce} && found == (nonce in old(items))
    {
      if nonce !in items {
        return false;
      }
      hide H.Heap, InOrder;
      IndexFacts(index, items.Keys);
      var i := 0;
      while index[i] != nonce
        invariant 0 <= i < |index|
        invariant nonce in index[i..]
        decreases |index| - i
      {
        i := i + 1;
      }
      var h, n := H.Remove(index, NonceLess, i);
      assert (items - {nonce}).Keys == items.Keys - {nonce};
      IndexMinus(index, items.Keys, h, n);
      items, index, cache := items - {nonce}, h, None;
      found := true;
    }

    method Ready(start: nat) returns (ready: seq<Tx>)
      requires Valid()
      modifies this
      ensures Valid() && items == old(items) - ReadyRun(old(items), start)
      ensures ready == InOrder(Restrict(old(items), ReadyRun(old(items), start)))
    {
      IndexFacts(index, items.Keys);
      if |index| == 0 || index[0] > start {
        assert Restrict(items, {}) == map[];
        return [];
      }
      ready := PopRun();
      cache := None;
    }

    /** The popping loop of Ready. */
    method PopRun() returns (ready: seq<Tx>)
      requires Keyed(items) && Indexes(index, items.Keys) && items != map[]
      modifies this`items, this`index
      ensures Keyed(items) && Indexes(index, items.Keys)
      ensures items == old(items) - ReadyRun(old(items), Min(old(items).Keys))
      ensures ready == InOrder(Restrict(old(items), ReadyRun(old(items), Min(old(items).Keys))))
    {
      ready := [];
      ghost var m0, ns: seq<nat> := items, [];
      IndexFacts(index, items.Keys);
      var next := index[0];
      ghost var lo := next;
      assert IsMin(lo, m0.Keys) && lo == Min(m0.Keys);
      while |index| > 0 && index[0] == next
        invariant Popping(m0, ns) && TakenBelow(ns, next) && lo <= next
        invariant index != [] ==> next <= index[0]
        invariant Spans(m0, lo, next)
        invariant ready == Pick(m0, ns)
        decreases |items|
      {
        var tx := PopFront(m0, ns);
        TakenMore(ns, next, tx.nonce, next + 1);
        SpansMore(m0, lo, next);
        ready, ns := ready + [tx], ns + [tx.nonce];
        next := next + 1;
      }
      RunTaken(m0, items, ns, next);
    }

    method Flatten() returns (txs: seq<Tx>)
      requires Valid()
      modifies this`cache
      ensures Valid() && txs == InOrder(items)
    {
      if cache.None? {
        var ns := RangeKeys(items.Keys);
        var sorted := SortIndex(ns, items.Keys);
        cache := Some(Pick(items, sorted));
      }
      txs := cache.value;
    }
  }
}
