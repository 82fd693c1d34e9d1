/** txPricedList: a price heap over the pool's transactions that is cleaned lazily.
    Entries of transactions that left the pool stay in the heap until they surface
    or until too many of them have gathered. */
module PricedLists {
  import opened Transactions
  import H = BinaryHeap

  /** Every pooled transaction, by hash. */
  type All = map<Hash, Tx>

  ghost predicate HashKeyed(all: All) {
    forall h :: h in all ==> all[h] == h.preimage
  }

  predicate Live(tx: Tx, all: All) {
    tx.Hash() in all
  }

  /** Cheaper first; of two equally priced, the one with the higher nonce. */
  predicate PriceLess(a: Tx, b: Tx) {
    a.price < b.price || (a.price == b.price && a.nonce > b.nonce)
  }

  predicate IsLocal(locals: set<Address>, tx: Tx) {
    tx.sender.Some? && tx.sender.value in locals
  }

  /** Every pooled transaction has an entry. */
  ghost predicate Covers(items: seq<Tx>, all: All) {
    forall tx :: Live(tx, all) ==> tx in items
  }

  /** `after`, `drop` and `gone` are the entries of `before`; `gone` were all stale. */
  ghost predicate Parted(before: seq<Tx>, after: seq<Tx>, drop: seq<Tx>, gone: multiset<Tx>, all: All) {
    && multiset(before) == multiset(after) + multiset(drop) + gone
    && forall tx :: tx in gone ==> !Live(tx, all)
  }

  /** No entry sorts before `tx`. */
  ghost predicate AtLeast(items: seq<Tx>, tx: Tx) {
    forall y :: y in items ==> !PriceLess(y, tx)
  }

  /** Live entries are never lost: they are still in the heap or were handed out. */
  lemma PartedCovers(before: seq<Tx>, after: seq<Tx>, drop: seq<Tx>, gone: multiset<Tx>, all: All)
    requires Parted(before, after, drop, gone, all) && Covers(before, all)
    ensures forall tx :: Live(tx, all) ==> tx in after || tx in drop
  {
    forall tx | Live(tx, all) ensures tx in after || tx in drop {
      assert tx in multiset(before);
    }
  }

  lemma NothingLive(items: seq<Tx>, all: All)
    requires Covers(items, all) && items == []
    ensures all == map[]
  {
    assert forall h :: h in all ==> Live(h.preimage, all);
  }

  /** The root of a covering heap, when live, is a cheapest pooled transaction. */
  lemma CheapestLive(items: seq<Tx>, all: All)
    requires H.Heap(items, PriceLess) && Covers(items, all) && |items| > 0 && Live(items[0], all)
    ensures forall tx :: Live(tx, all) ==> items[0].price <= tx.price
  {
    forall tx | Live(tx, all) ensures items[0].price <= tx.price {
      var i :| 0 <= i < |items| && items[i] == tx;
      H.RootIsMinimal(items, PriceLess, i);
    }
  }

  /** No remote entry is cheaper than `tx`, or as cheap with a higher nonce. */
  ghost predicate NoneCheaper(items: seq<Tx>, locals: set<Address>, tx: Tx) {
    forall y :: y in items && !IsLocal(locals, y) ==> tx.price < y.price || (tx.price == y.price && tx.nonce >= y.nonce)
  }

  function Max0(n: int): nat {
    if n < 0 then 0 else n
  }

  /** Ranging over the pool: each transaction once, in some order. */
  method RangeValues(all: All) returns (txs: seq<Tx>)
    ensures multiset(txs) == multiset(all.Values)
  {
    txs := [];
    var todo := all.Values;
    while todo != {}
      invariant todo <= all.Values && multiset(txs) == multiset(all.Values - todo)
    {
      var tx :| tx in todo;
      assert all.Values - (todo - {tx}) == (all.Values - todo) + {tx};
      todo := todo - {tx};
      txs := txs + [tx];
    }
    assert all.Values - todo == all.Values;
  }

  /** A heap rebuilt from the pool has one entry for each transaction. */
  lemma RebuiltFromAll(items: seq<Tx>, all: All)
    requires HashKeyed(all) && multiset(items) == multiset(all.Values)
    ensures Covers(items, all) && |items| == |all| && Distinct(items)
    ensures forall tx :: tx in items ==> Live(tx, all)
  {
    ValuesCount(all);
    assert |multiset(items)| == |multiset(all.Values)|;
    forall tx ensures tx in items <==> Live(tx, all) {
      assert tx in items <==> tx in multiset(items);
      assert Live(tx, all) ==> all[tx.Hash()] in all.Values;
    }
    DistinctOnce(items);
  }

  lemma {:induction false} ValuesCount(all: All)
    requires HashKeyed(all)
    ensures |all.Values| == |all|
    decreases |all|
  {
    if all != map[] {
      var h :| h in all;
      var rest := all - {h};
      ValuesCount(rest);
      assert all.Values == rest.Values + {all[h]};
      assert all[h] !in rest.Values;
      assert all.Keys == rest.Keys + {h};
    } else {
      assert all.Values == {};
    }
  }

  /** There are at least as many entries as pooled transactions. */
  lemma {:induction false} CoversCount(items: seq<Tx>, all: All)
    requires HashKeyed(all) && Covers(items, all)
    ensures |items| >= |all|
  {
    ValuesCount(all);
    forall tx | tx in all.Values ensures tx in items {
      assert Live(tx, all);
    }
    SubsetCount(items, all.Values);
  }

  lemma {:induction false} SubsetCount(items: seq<Tx>, s: set<Tx>)
    requires forall tx :: tx in s ==> tx in items
    ensures |s| <= |items|
  {
    if items == [] {
      assert s == {};
    } else {
      SubsetCount(items[1..], s - {items[0]});
    }
  }

  lemma CoversLess(items: seq<Tx>, all: All, h: Hash)
    requires Covers(items, all) && h in all
    ensures Covers(items, all - {h}) && |all - {h}| == |all| - 1
  {
    assert (all - {h}).Keys == all.Keys - {h};
    forall tx | Live(tx, all - {h}) ensures tx in items {
      assert Live(tx, all);
    }
  }

  lemma CoversMore(items: seq<Tx>, items': seq<Tx>, all: All, tx: Tx)
    requires Covers(items, all) && multiset(items') == multiset(items) + multiset{tx} && !Live(tx, all)
    ensures Covers(items', all[tx.Hash() := tx])
    ensures |items'| == |items| + 1 && |all[tx.Hash() := tx]| == |all| + 1
  {
    var all' := all[tx.Hash() := tx];
    assert |multiset(items')| == |multiset(items)| + 1;
    assert all'.Keys == all.Keys + {tx.Hash()};
    forall t | Live(t, all') ensures t in items' {
      assert t == tx || Live(t, all);
      assert t in multiset(items');
    }
  }

  function Hashes(txs: seq<Tx>): (s: set<Hash>)
    ensures forall tx :: tx in txs <==> tx.Hash() in s
  {
    set tx | tx in txs :: tx.Hash()
  }

  /** How far `stales` overstates the surplus of entries over pooled transactions. */
  function Slack(stales: int, items: seq<Tx>, all: All): int {
    stales - (|items| - |all|)
  }

  /** Once the transactions handed out by Cap or Discard have left the pool, the heap
      covers the rest, and the slack has grown by exactly the number of entries that
      were handed out more than once. */
  lemma SlackAfterDrop(before: seq<Tx>, after: seq<Tx>, drop: seq<Tx>, gone: multiset<Tx>, all: All, stales: int)
    requires Covers(before, all) && Parted(before, after, drop, gone, all)
    requires forall tx :: tx in drop ==> Live(tx, all)
    ensures Covers(after, all - Hashes(drop))
    ensures Slack(stales - |gone|, after, all - Hashes(drop)) == Slack(stales, before, all) + |drop| - |Hashes(drop)|
    ensures |Hashes(drop)| <= |drop|
  {
    PartedCovers(before, after, drop, gone, all);
    assert |multiset(before)| == |multiset(after)| + |multiset(drop)| + |gone|;
    var rest := all - Hashes(drop);
    assert rest.Keys == all.Keys - Hashes(drop);
    assert Hashes(drop) <= all.Keys;
    HashesCount(drop);
  }

  /** The heap goes on tracking the pool, and an exact counter over distinct entries stays so. */
  lemma DropTracks(before: seq<Tx>, after: seq<Tx>, drop: seq<Tx>, gone: multiset<Tx>, all: All, stales: int)
    requires Covers(before, all) && Parted(before, after, drop, gone, all) && stales >= |before| - |all|
    requires forall tx :: tx in drop ==> Live(tx, all)
    ensures var rest := all - Hashes(drop);
            && Covers(after, rest) && stales - |gone| >= |after| - |rest|
            && (Distinct(before) && stales == |before| - |all| ==> Distinct(after) && stales - |gone| == |after| - |rest|)
    ensures forall tx :: tx in after ==> tx in before
  {
    SlackAfterDrop(before, after, drop, gone, all, stales);
    if Distinct(before) {
      DistinctDrop(before, after, drop, gone, all);
    }
    forall tx | tx in after ensures tx in before {
      assert tx in multiset(after) && tx in multiset(before);
    }
  }

  lemma ListedLess(before: seq<Tx>, after: seq<Tx>, entered: set<Tx>)
    requires forall tx :: tx in after ==> tx in before
    ensures Listed(before, entered) ==> Listed(after, entered)
  {
  }

  /** What stays is exactly what is local or at the threshold. */
  ghost predicate Floored(all: All, all': All, locals: set<Address>, threshold: int) {
    forall t :: Live(t, all') <==> Live(t, all) && (IsLocal(locals, t) || t.price >= threshold)
  }

  lemma FlooredInFields(all: All, all': All, locals: set<Address>, threshold: int)
    requires Floored(all, all', locals, threshold)
    ensures forall t: Tx :: t.Hash() in all' <==> t.Hash() in all && ((t.sender.Some? && t.sender.value in locals) || t.price >= threshold)
  {
    forall t: Tx ensures t.Hash() in all' <==> t.Hash() in all && ((t.sender.Some? && t.sender.value in locals) || t.price >= threshold) {
      assert Live(t, all') <==> Live(t, all) && (IsLocal(locals, t) || t.price >= threshold);
    }
  }

  /** Once all live remote entries below the threshold have left the pool, what stays is
      exactly what is local or at the threshold. */
  lemma FlooredByDrop(after: seq<Tx>, drop: seq<Tx>, all: All, threshold: int, locals: set<Address>)
    requires Covers(after, all - Hashes(drop))
    requires forall tx :: tx in drop ==> Live(tx, all) && tx.price < threshold && !IsLocal(locals, tx)
    requires forall tx :: tx in after ==> tx.price >= threshold || IsLocal(locals, tx)
    ensures Floored(all, all - Hashes(drop), locals, threshold)
  {
    forall t
      ensures Live(t, all - Hashes(drop)) <==> Live(t, all) && (IsLocal(locals, t) || t.price >= threshold)
    {
      assert Live(t, all - Hashes(drop)) ==> t in after;
      assert Live(t, all) && t.Hash() in Hashes(drop) ==> t in drop;
    }
  }

  /** However many entries have been taken out, the stale ones among them were counted. */
  lemma StalesNonNegative(before: seq<Tx>, after: seq<Tx>, drop: seq<Tx>, gone: multiset<Tx>, all: All, stales: int)
    requires HashKeyed(all) && Covers(before, all) && Parted(before, after, drop, gone, all) && stales >= |before| - |all|
    ensures stales - |gone| >= 0
  {
    PartedCovers(before, after, drop, gone, all);
    assert |multiset(before)| == |multiset(after)| + |multiset(drop)| + |gone|;
    forall tx | Live(tx, all) ensures tx in after + drop {
    }
    CoversCount(after + drop, all);
  }

  ghost predicate Distinct(txs: seq<Tx>) {
    forall i, j :: 0 <= i < j < |txs| ==> txs[i] != txs[j]
  }

  lemma DistinctSnoc(txs: seq<Tx>, tx: Tx)
    ensures Distinct(txs + [tx]) <==> Distinct(txs) && tx !in txs
  {
    var t := txs + [tx];
    if Distinct(t) {
      forall i | 0 <= i < |txs| ensures txs[i] != tx {
        assert t[i] != t[|txs|];
      }
      forall i, j | 0 <= i < j < |txs| ensures txs[i] != txs[j] {
        assert t[i] != t[j];
      }
    }
  }

  lemma {:induction false} HashesCount(txs: seq<Tx>)
    ensures |Hashes(txs)| <= |txs|
    ensures |Hashes(txs)| == |txs| <==> Distinct(txs)
  {
    if txs != [] {
      var n := |txs| - 1;
      HashesCount(txs[..n]);
      DistinctSnoc(txs[..n], txs[n]);
      assert txs == txs[..n] + [txs[n]];
      assert Hashes(txs) == Hashes(txs[..n]) + {txs[n].Hash()};
    }
  }

  lemma {:induction false} DistinctOnce(txs: seq<Tx>)
    ensures Distinct(txs) <==> forall tx :: multiset(txs)[tx] <= 1
  {
    if txs != [] {
      var n := |txs| - 1;
      DistinctOnce(txs[..n]);
      DistinctSnoc(txs[..n], txs[n]);
      assert txs == txs[..n] + [txs[n]];
      assert txs[n] in txs[..n] <==> multiset(txs[..n])[txs[n]] >= 1;
      assert forall tx :: multiset(txs)[tx] == multiset(txs[..n])[tx] + if tx == txs[n] then 1 else 0;
    } else {
      assert Distinct(txs);
    }
  }

  /** From a heap without double entries no transaction is handed out twice. */
  lemma DistinctDrop(before: seq<Tx>, after: seq<Tx>, drop: seq<Tx>, gone: multiset<Tx>, all: All)
    requires Parted(before, after, drop, gone, all) && Distinct(before)
    ensures Distinct(after) && Distinct(drop) && |Hashes(drop)| == |drop|
  {
    DistinctOnce(before);
    forall tx ensures multiset(after)[tx] <= 1 && multiset(drop)[tx] <= 1 {
      assert multiset(before)[tx] == multiset(after)[tx] + multiset(drop)[tx] + gone[tx];
    }
    DistinctOnce(after);
    DistinctOnce(drop);
    HashesCount(drop);
  }

  /** The counter stays exact if and only if no transaction is handed out twice. */
  lemma SlackKept(before: seq<Tx>, after: seq<Tx>, drop: seq<Tx>, gone: multiset<Tx>, all: All, stales: int)
    requires Covers(before, all) && Parted(before, after, drop, gone, all)
    requires forall tx :: tx in drop ==> Live(tx, all)
    ensures Slack(stales - |gone|, after, all - Hashes(drop)) == Slack(stales, before, all) <==> Distinct(drop)
    ensures Slack(stales - |gone|, after, all - Hashes(drop)) >= Slack(stales, before, all)
  {
    SlackAfterDrop(before, after, drop, gone, all, stales);
    HashesCount(drop);
  }

  /** A live remote transaction below the threshold has one entry only. */
  ghost predicate SingleBelow(items: seq<Tx>, all: All, locals: set<Address>, threshold: int) {
    forall t :: Live(t, all) && !IsLocal(locals, t) && t.price < threshold ==> multiset(items)[t] <= 1
  }

  /** A live remote transaction has one entry only. */
  ghost predicate Single(items: seq<Tx>, all: All, locals: set<Address>) {
    forall t :: Live(t, all) && !IsLocal(locals, t) ==> multiset(items)[t] <= 1
  }

  /** The pool holds at most one remote transaction. */
  ghost predicate Sparse(all: All, locals: set<Address>) {
    forall t, u :: Live(t, all) && Live(u, all) && !IsLocal(locals, t) && !IsLocal(locals, u) ==> t == u
  }

  /** Cap hands a transaction out twice if and only if one that it is to drop has two entries. */
  lemma CapDoubles(before: seq<Tx>, after: seq<Tx>, drop: seq<Tx>, gone: multiset<Tx>, all: All, locals: set<Address>, threshold: int)
    requires Parted(before, after, drop, gone, all)
    requires forall tx :: tx in drop ==> Live(tx, all) && tx.price < threshold && !IsLocal(locals, tx)
    requires forall tx :: tx in after ==> tx.price >= threshold || IsLocal(locals, tx)
    ensures Distinct(drop) <==> SingleBelow(before, all, locals, threshold)
  {
    DistinctOnce(drop);
    forall t
      ensures Live(t, all) && !IsLocal(locals, t) && t.price < threshold ==> multiset(drop)[t] == multiset(before)[t]
      ensures !(Live(t, all) && !IsLocal(locals, t) && t.price < threshold) ==> multiset(drop)[t] == 0
    {
      assert multiset(before)[t] == multiset(after)[t] + multiset(drop)[t] + gone[t];
      assert t in after <==> multiset(after)[t] > 0;
      assert t in drop <==> multiset(drop)[t] > 0;
      assert t in gone <==> gone[t] > 0;
    }
  }

  /** Discard hands out a single entry never twice; and if there is one remote transaction at
      most, it is handed out twice if and only if it has two entries. */
  lemma DiscardDoubles(before: seq<Tx>, after: seq<Tx>, drop: seq<Tx>, gone: multiset<Tx>, all: All, locals: set<Address>, count: int)
    requires Parted(before, after, drop, gone, all)
    requires forall tx :: tx in drop ==> Live(tx, all) && !IsLocal(locals, tx)
    requires |drop| <= Max0(count) && (|drop| < count ==> forall tx :: tx in after ==> IsLocal(locals, tx))
    ensures count <= 1 ==> Distinct(drop)
    ensures Sparse(all, locals) && count >= 2 ==> (Distinct(drop) <==> Single(before, all, locals))
  {
    if Sparse(all, locals) && count >= 2 {
      if |drop| == count {
        assert drop[0] in drop && drop[1] in drop;
        assert drop[0] == drop[1];
        TwiceCounted(before, drop, 0, 1);
      } else {
        DrainDoubles(before, after, drop, gone, all, locals);
      }
    }
  }

  lemma TwiceCounted(items: seq<Tx>, drop: seq<Tx>, i: nat, j: nat)
    requires i < j < |drop| && drop[i] == drop[j] && multiset(drop) <= multiset(items)
    ensures !Distinct(drop) && multiset(items)[drop[i]] >= 2
  {
    DistinctOnce(drop);
    assert drop == drop[..i] + [drop[i]] + drop[i + 1..];
    assert drop[j] in drop[i + 1..];
  }

  lemma DrainDoubles(before: seq<Tx>, after: seq<Tx>, drop: seq<Tx>, gone: multiset<Tx>, all: All, locals: set<Address>)
    requires Parted(before, after, drop, gone, all)
    requires forall tx :: tx in drop ==> Live(tx, all) && !IsLocal(locals, tx)
    requires forall tx :: tx in after ==> IsLocal(locals, tx)
    ensures Distinct(drop) <==> Single(before, all, locals)
  {
    DistinctOnce(drop);
    forall t
      ensures Live(t, all) && !IsLocal(locals, t) ==> multiset(drop)[t] == multiset(before)[t]
      ensures !(Live(t, all) && !IsLocal(locals, t)) ==> multiset(drop)[t] == 0
    {
      assert multiset(before)[t] == multiset(after)[t] + multiset(drop)[t] + gone[t];
      assert t in after <==> multiset(after)[t] > 0;
      assert t in drop <==> multiset(drop)[t] > 0;
      assert t in gone <==> gone[t] > 0;
    }
  }

  /** Taking out stale entries only leaves the entries of live transactions as they were. */
  lemma SingleStays(before: seq<Tx>, after: seq<Tx>, gone: multiset<Tx>, all: All, locals: set<Address>)
    requires Parted(before, after, [], gone, all)
    ensures Single(after, all, locals) <==> Single(before, all, locals)
  {
    forall t | Live(t, all) ensures multiset(before)[t] == multiset(after)[t] {
      assert multiset(before)[t] == multiset(after)[t] + gone[t];
      assert t in gone <==> gone[t] > 0;
    }
  }

  lemma DistinctMore(items: seq<Tx>, items': seq<Tx>, tx: Tx)
    requires multiset(items') == multiset(items) + multiset{tx}
    ensures Distinct(items') <==> Distinct(items) && tx !in items
    ensures forall t :: t in items' <==> t in items || t == tx
  {
    DistinctOnce(items);
    DistinctOnce(items');
    forall t ensures (t in items' <==> t in items || t == tx) && multiset(items')[t] == multiset(items)[t] + if t == tx then 1 else 0 {
      assert t in items' <==> t in multiset(items');
      assert t in items <==> t in multiset(items);
    }
  }

  /** Every entry is that of a transaction that was put in at some time. */
  ghost predicate Listed(items: seq<Tx>, entered: set<Tx>) {
    forall t :: t in items ==> t in entered
  }

  /** The price heap with its history, and the size of the pool. */
  datatype Ledger = Ledger(size: nat, items: seq<Tx>, stales: int, entered: set<Tx>, reentered: bool)

  /** The pool has only shrunk, and the heap was left alone unless too many of its entries
      have become stale. */
  ghost predicate Wanes(l: Ledger, l': Ledger) {
    && l'.size <= l.size && l'.entered == l.entered && l'.reentered == l.reentered
    && (l'.size == l.size || l.stales + l.size - l'.size <= |l.items| / 4 ==>
          l'.items == l.items && l'.stales == l.stales + l.size - l'.size)
  }

  lemma WanesNothing(l: Ledger)
    ensures Wanes(l, l)
  {
  }

  lemma WanesTrans(l: Ledger, l': Ledger, l'': Ledger)
    requires Wanes(l, l') && Wanes(l', l'')
    ensures Wanes(l, l'')
  {
  }

  /** No transaction but `tx` was put into the heap, and `tx` over an entry of its own only
      if there was one before. */
  ghost predicate Hears(l: Ledger, tx: Tx, ok: bool, l': Ledger) {
    && (if ok then l'.entered <= l.entered + {tx} else l'.entered == l.entered)
    && (l'.reentered ==> l.reentered || (ok && tx in l.items))
  }

  lemma HearsNothing(l: Ledger, tx: Tx)
    ensures Hears(l, tx, false, l)
  {
  }

  lemma HearsAfter(l: Ledger, l': Ledger, tx: Tx, ok: bool, l'': Ledger)
    requires l'.entered == l.entered && l'.reentered == l.reentered && (forall t :: t in l'.items ==> t in l.items)
    requires Hears(l', tx, ok, l'')
    ensures Hears(l, tx, ok, l'')
  {
  }

  /** Only transactions of the batch were put into the heap; one over an entry of its own only
      if the batch names one twice or one that was put in before. */
  ghost predicate HearsAll(l: Ledger, txs: seq<Tx>, l': Ledger) {
    && (forall t :: t in l'.entered ==> t in l.entered || t in txs)
    && (l'.reentered ==> l.reentered || !Distinct(txs) || exists t :: t in txs && t in l.entered)
  }

  lemma HearsNone(l: Ledger)
    ensures HearsAll(l, [], l)
  {
  }

  lemma HearsNext(l: Ledger, txs: seq<Tx>, l': Ledger, tx: Tx, ok: bool, l'': Ledger)
    requires HearsAll(l, txs, l') && Hears(l', tx, ok, l'') && Listed(l'.items, l'.entered)
    ensures HearsAll(l, txs + [tx], l'')
  {
    hide Distinct;
    DistinctSnoc(txs, tx);
    if l''.reentered && !l.reentered && Distinct(txs + [tx]) {
      if l'.reentered {
        var t :| t in txs && t in l.entered;
        assert t in txs + [tx];
      } else {
        assert tx in l'.entered && tx in txs + [tx];
      }
    }
  }

  lemma HearsSame(l: Ledger, l': Ledger)
    requires l'.entered == l.entered && l'.reentered == l.reentered
    ensures HearsAll(l, [], l')
  {
  }

  lemma DistinctApart(txs: seq<Tx>, txs': seq<Tx>, t: Tx)
    requires Distinct(txs + txs') && t in txs'
    ensures t !in txs
  {
    var j :| 0 <= j < |txs'| && txs'[j] == t;
    assert (txs + txs')[|txs| + j] == t;
    assert forall i :: 0 <= i < |txs| ==> (txs + txs')[i] == txs[i];
  }

  /** One batch after another is like both at once. */
  lemma HearsMore(l: Ledger, txs: seq<Tx>, l': Ledger, txs': seq<Tx>, l'': Ledger)
    requires HearsAll(l, txs, l') && HearsAll(l', txs', l'')
    ensures HearsAll(l, txs + txs', l'')
  {
    var every := txs + txs';
    if l''.reentered && !l.reentered && Distinct(every) {
      assert Distinct(txs) by { assert forall i :: 0 <= i < |txs| ==> every[i] == txs[i]; }
      assert Distinct(txs') by { assert forall i :: 0 <= i < |txs'| ==> every[|txs| + i] == txs'[i]; }
      if l'.reentered {
        var t :| t in txs && t in l.entered;
        assert t in every;
      } else {
        var t :| t in txs' && t in l'.entered;
        DistinctApart(txs, txs', t);
        assert t in every;
      }
    }
  }

  lemma HearsWaned(l: Ledger, txs: seq<Tx>, l': Ledger, l'': Ledger)
    requires HearsAll(l, txs, l') && Wanes(l', l'')
    ensures HearsAll(l, txs, l'')
  {
  }

  method PushAll(h0: seq<Tx>, txs: seq<Tx>) returns (h: seq<Tx>)
    requires H.Heap(h0, PriceLess)
    ensures H.Heap(h, PriceLess) && multiset(h) == multiset(h0) + multiset(txs)
  {
    h := h0;
    for i := 0 to |txs|
      invariant H.Heap(h, PriceLess) && multiset(h) == multiset(h0) + multiset(txs[..i])
    {
      h := H.Push(h, PriceLess, txs[i]);
      assert txs[..i + 1] == txs[..i] + [txs[i]];
    }
    assert txs[..|txs|] == txs;
  }

  class PricedList {
    var items: seq<Tx>
    var stales: int
    /** All transactions ever put in, and whether one was put in over an entry of its own. */
    ghost var entered: set<Tx>
    ghost var reentered: bool

    ghost predicate Valid()
      reads this
    {
      H.Heap(items, PriceLess)
    }

    /** The heap covers the pool, and `stales` accounts at least for every entry beyond
        one for each pooled transaction, exactly so while no transaction has come back
        over a stale entry of its own. */
    ghost predicate Tracks(all: All)
      reads this
    {
      && Valid() && Covers(items, all) && stales >= |items| - |all| && stales >= 0
      && Listed(items, entered) && (!reentered ==> Exact(all))
    }

    /** One entry at most for each transaction, and every surplus entry counted as stale. */
    ghost predicate Exact(all: All)
      reads this
    {
      Distinct(items) && stales == |items| - |all|
    }

    constructor ()
      ensures Valid() && items == [] && stales == 0 && entered == {} && !reentered
    {
      items, stales := [], 0;
      entered, reentered := {}, false;
    }

    method Put(tx: Tx)
      requires Valid()
      modifies this`items, this`entered, this`reentered
      ensures Valid() && multiset(items) == multiset(old(items)) + multiset{tx}
      ensures entered == old(entered) + {tx} && (reentered <==> old(reentered) || tx in old(items))
    {
      entered, reentered := entered + {tx}, reentered || tx in items;
      items := H.Push(items, PriceLess, tx);
    }

    /** Counts one more stale entry; beyond a quarter of the heap, rebuilds it from `all`. */
    method Removed(all: All)
      requires Valid() && HashKeyed(all)
      modifies this`items, this`stales
      ensures Valid()
      ensures if old(stales) + 1 <= |old(items)| / 4
              then items == old(items) && stales == old(stales) + 1
              else multiset(items) == multiset(all.Values) && stales == 0
      ensures Covers(old(items), all) ==> Covers(items, all) && forall t :: t in items ==> t in old(items)
      ensures Distinct(old(items)) ==> Distinct(items)
      ensures old(stales) + 1 >= |old(items)| - |all| ==> stales >= |items| - |all| && 3 * |items| <= 4 * |all|
      ensures old(stales) + 1 == |old(items)| - |all| ==> stales == |items| - |all|
    {
      stales := stales + 1;
      if stales <= |items| / 4 {
        return;
      }
      var reheap := RangeValues(all);
      items := H.Init(reheap, PriceLess);
      stales := 0;
      RebuiltFromAll(items, all);
    }

    /** heap.Pop on the entries. */
    method PopCheapest() returns (tx: Tx)
      requires Valid() && |items| > 0
      modifies this`items
      ensures Valid() && multiset(old(items)) == multiset(items) + multiset{tx}
      ensures |items| == |old(items)| - 1 && tx == old(items[0])
      ensures AtLeast(items, tx) && forall y :: y in items ==> y in old(items)
    {
      var h, x := H.Pop(items, PriceLess);
      tx := x;
      ghost var before := items;
      items := h;
      assert |multiset(before)| == |multiset(h)| + 1;
      forall y | y in items ensures y in before && !PriceLess(y, tx) {
        assert y in multiset(items) && y in multiset(before);
      }
    }

    /** Takes out the entries below `threshold`, except those of local accounts, and
        returns the live ones. */
    method Cap(threshold: int, locals: set<Address>, all: All) returns (drop: seq<Tx>, ghost gone: multiset<Tx>)
      requires Tracks(all) && HashKeyed(all)
      modifies this`items, this`stales
      ensures Valid() && Parted(old(items), items, drop, gone, all)
      ensures stales == old(stales) - |gone| && stales >= 0
      ensures forall tx :: tx in drop ==> Live(tx, all) && tx.price < threshold && !IsLocal(locals, tx)
      ensures forall tx :: tx in items ==> tx.price >= threshold || IsLocal(locals, tx)
      ensures Distinct(drop) <==> SingleBelow(old(items), all, locals, threshold)
    {
      hide H.Heap, Distinct, SingleBelow, Covers;
      var save;
      drop, save, gone := TakeBelow(threshold, locals, all);
      GiveBack(save);
      CapDoubles(old(items), items, drop, gone, all, locals, threshold);
    }

    /** The popping loop of Cap. */
    method TakeBelow(threshold: int, locals: set<Address>, all: All)
        returns (drop: seq<Tx>, save: seq<Tx>, ghost gone: multiset<Tx>)
      requires Tracks(all) && HashKeyed(all)
      modifies this`items, this`stales
      ensures Valid() && Parted(old(items), items, save + drop, gone, all)
      ensures stales == old(stales) - |gone| && stales >= 0
      ensures forall tx :: tx in drop ==> Live(tx, all) && tx.price < threshold && !IsLocal(locals, tx)
      ensures forall tx :: tx in items ==> tx.price >= threshold
      ensures forall tx :: tx in save ==> tx.price >= threshold || IsLocal(locals, tx)
    {
      hide H.Heap, Covers, HashKeyed, Distinct, Listed;
      drop, save, gone := [], [], multiset{};
      while |items| > 0
        invariant Valid() && Parted(old(items), items, save + drop, gone, all)
        invariant stales == old(stales) - |gone| && stales >= 0
        invariant forall tx :: tx in drop ==> Live(tx, all) && tx.price < threshold && !IsLocal(locals, tx)
        invariant forall tx :: tx in save ==> IsLocal(locals, tx)
      {
        var tx := PopCheapest();
        if !Live(tx, all) {
          stales, gone := stales - 1, gone + multiset{tx};
          StalesNonNegative(old(items), items, save + drop, gone, all, old(stales));
        } else if tx.price >= threshold {
          save := save + [tx];
          return;
        } else if IsLocal(locals, tx) {
          save := save + [tx];
        } else {
          drop := drop + [tx];
        }
      }
    }

    /** Pushes the saved entries back. */
    method GiveBack(save: seq<Tx>)
      requires Valid()
      modifies this`items
      ensures Valid() && multiset(items) == multiset(old(items)) + multiset(save)
      ensures forall tx :: tx in items ==> tx in old(items) || tx in save
    {
      ghost var before := items;
      items := PushAll(items, save);
      forall tx | tx in items ensures tx in before || tx in save {
        assert tx in multiset(items);
      }
    }

    /** Whether `tx` is no dearer than the cheapest pooled transaction; stale entries
        at the front of the heap are dropped on the way. */
    method Underpriced(tx: Tx, locals: set<Address>, all: All) returns (under: bool, ghost gone: multiset<Tx>)
      requires Tracks(all) && HashKeyed(all)
      modifies this`items, this`stales
      ensures Valid() && Parted(old(items), items, [], gone, all)
      ensures stales == old(stales) - |gone| && stales >= 0
      ensures under <==> !IsLocal(locals, tx) && all != map[] && forall t :: Live(t, all) ==> tx.price <= t.price
    {
      hide Distinct, Listed, HashKeyed;
      gone := multiset{};
      if IsLocal(locals, tx) {
        return false, gone;
      }
      while |items| > 0 && !Live(items[0], all)
        invariant Valid() && Parted(old(items), items, [], gone, all)
        invariant stales == old(stales) - |gone| && stales >= 0
      {
        var front := PopCheapest();
        stales, gone := stales - 1, gone + multiset{front};
        StalesNonNegative(old(items), items, [], gone, all, old(stales));
      }
      PartedCovers(old(items), items, [], gone, all);
      if |items| == 0 {
        NothingLive(items, all);
        return false, gone;
      }
      CheapestLive(items, all);
      under := items[0].price >= tx.price;
    }

    /** Takes out the `count` cheapest live entries of remote accounts. */
    method Discard(count: int, locals: set<Address>, all: All) returns (drop: seq<Tx>, ghost gone: multiset<Tx>)
      requires Tracks(all) && HashKeyed(all)
      modifies this`items, this`stales
      ensures Valid() && Parted(old(items), items, drop, gone, all)
      ensures stales == old(stales) - |gone| && stales >= 0
      ensures forall tx :: tx in drop ==> Live(tx, all) && !IsLocal(locals, tx)
      ensures forall d :: d in drop ==> NoneCheaper(items, locals, d)
      ensures |drop| <= Max0(count) && (|drop| < count ==> forall tx :: tx in items ==> IsLocal(locals, tx))
      ensures count <= 1 ==> Distinct(drop)
      ensures Sparse(all, locals) && count >= 2 ==> (Distinct(drop) <==> Single(old(items), all, locals))
    {
      hide H.Heap, Distinct, Covers, Listed, HashKeyed, Sparse, Single;
      var save;
      drop, save, gone := TakeCheapest(count, locals, all);
      GiveBack(save);
      DiscardDoubles(old(items), items, drop, gone, all, locals, count);
    }

    /** The popping loop of Discard. */
    method TakeCheapest(count: int, locals: set<Address>, all: All)
        returns (drop: seq<Tx>, save: seq<Tx>, ghost gone: multiset<Tx>)
      requires Tracks(all) && HashKeyed(all)
      modifies this`items, this`stales
      ensures Valid() && Parted(old(items), items, save + drop, gone, all)
      ensures stales == old(stales) - |gone| && stales >= 0
      ensures forall tx :: tx in drop ==> Live(tx, all) && !IsLocal(locals, tx)
      ensures forall tx :: tx in save ==> IsLocal(locals, tx)
      ensures forall d :: d in drop ==> AtLeast(items, d)
      ensures |drop| <= Max0(count) && (|drop| < count ==> items == [])
    {
      hide H.Heap, Covers, HashKeyed, Distinct, Listed;
      drop, save, gone := [], [], multiset{};
      while |items| > 0 && |drop| < count
        invariant Valid() && Parted(old(items), items, save + drop, gone, all)
        invariant stales == old(stales) - |gone| && stales >= 0
        invariant forall tx :: tx in drop ==> Live(tx, all) && !IsLocal(locals, tx)
        invariant forall tx :: tx in save ==> IsLocal(locals, tx)
        invariant forall d :: d in drop ==> AtLeast(items, d)
        invariant |drop| <= Max0(count)
      {
        var tx := PopCheapest();
        if !Live(tx, all) {
          stales, gone := stales - 1, gone + multiset{tx};
          StalesNonNegative(old(items), items, save + drop, gone, all, old(stales));
        } else if IsLocal(locals, tx) {
          save := save + [tx];
        } else {
          drop := drop + [tx];
        }
      }
    }
  }
}
