/** One account's transactions with the two spending caps: the value that a txList
    object represents, and what its operations do to that value. */
module AccountLists {
  import opened Nonces
  import opened Transactions

  /** `strict` lists hold executable transactions, whose nonces must not have gaps. */
  datatype AccountList = AccountList(strict: bool, txs: ByNonce, costcap: int, gascap: nat)

  function Empty(strict: bool): (l: AccountList)
    ensures Sound(l)
  {
    AccountList(strict, map[], 0, 0)
  }

  /** Neither cap is below what any held transaction may spend. */
  ghost predicate Capped(l: AccountList) {
    forall n :: n in l.txs ==> l.txs[n].Cost() <= l.costcap && l.txs[n].gas <= l.gascap
  }

  ghost predicate Sound(l: AccountList) {
    Keyed(l.txs) && Capped(l)
  }

  /** The replacement rule: dearer than the old price and by at least `bump` percent. */
  predicate Outbids(old_: Tx, tx: Tx, bump: nat) {
    old_.price < tx.price && old_.price * (100 + bump) / 100 <= tx.price
  }

  /** The rule in prices. The percentage is rounded down. */
  lemma OutbidsInPrices(old_: Tx, tx: Tx, bump: nat)
    ensures Outbids(old_, tx, bump) <==> tx.price > old_.price && 100 * tx.price > old_.price * (100 + bump) - 100
  {
  }

  predicate Accepts(l: AccountList, tx: Tx, bump: nat) {
    tx.nonce in l.txs ==> Outbids(l.txs[tx.nonce], tx, bump)
  }

  function Max(a: int, b: int): int {
    if a < b then b else a
  }

  function Added(l: AccountList, tx: Tx): (r: AccountList)
    ensures Sound(l) ==> Sound(r)
  {
    l.(txs := l.txs[tx.nonce := tx], costcap := Max(l.costcap, tx.Cost()), gascap := Max(l.gascap, tx.gas))
  }

  /** The list without the transactions at the given nonces. */
  function Without(l: AccountList, s: set<nat>): (r: AccountList)
    ensures Sound(l) ==> Sound(r)
  {
    l.(txs := l.txs - s)
  }

  predicate Unpayable(tx: Tx, cost: int, gas: nat) {
    tx.Cost() > cost || tx.gas > gas
  }

  function UnpayableIn(l: AccountList, cost: int, gas: nat): (s: set<nat>)
    ensures forall n :: n in s <==> n in l.txs && Unpayable(l.txs[n], cost, gas)
  {
    set n | n in l.txs && Unpayable(l.txs[n], cost, gas)
  }

  /** What a strict list must give up besides `s`: everything above its lowest nonce. */
  function Stranded(l: AccountList, s: set<nat>): (r: set<nat>)
    ensures r !! s && r <= l.txs.Keys
  {
    if !l.strict || s == {} then {} else set n | n in l.txs && n !in s && n > Nonces.Min(s)
  }

  /** Filter: short-circuits when the caps show that nothing can be unpayable. */
  function Filtered(l: AccountList, cost: int, gas: nat): (r: AccountList) {
    if l.costcap <= cost && l.gascap <= gas then l
    else
      var s := UnpayableIn(l, cost, gas);
      Without(l, s + Stranded(l, s)).(costcap := cost, gascap := gas)
  }

  /** The caps are precise enough: short-circuiting or not, Filter keeps exactly what a
      full scan keeps, and the caps still bound what is left. */
  lemma FilterIsFullScan(l: AccountList, cost: int, gas: nat)
    requires Sound(l)
    ensures var s := UnpayableIn(l, cost, gas);
            Filtered(l, cost, gas).txs == l.txs - (s + Stranded(l, s))
    ensures Sound(Filtered(l, cost, gas)) && Filtered(l, cost, gas).strict == l.strict
    ensures forall n :: n in Filtered(l, cost, gas).txs ==> !Unpayable(l.txs[n], cost, gas)
  {
    var s := UnpayableIn(l, cost, gas);
    if l.costcap <= cost && l.gascap <= gas {
      assert s == {};
      assert l.txs - (s + Stranded(l, s)) == l.txs;
    }
  }

  /** The nonces lo, lo+1, ..., hi-1 and no others. */
  ghost predicate Run(m: ByNonce, lo: nat, hi: nat) {
    lo <= hi && forall n :: n in m <==> lo <= n < hi
  }

  /** On a gapless strict list, giving up any nonces and what they strand leaves the
      run below the lowest of them: still gapless. */
  lemma StrandingKeepsRun(l: AccountList, s: set<nat>, lo: nat, hi: nat)
    requires l.strict && Run(l.txs, lo, hi) && s <= l.txs.Keys
    ensures Run(l.txs - (s + Stranded(l, s)), lo, if s == {} then hi else Nonces.Min(s))
  {
  }

  /** Kept, removed and stranded transactions are the old contents, each in one part. */
  lemma StrandingPartitions(l: AccountList, s: set<nat>)
    requires s <= l.txs.Keys
    ensures var kept, gone, left := l.txs - (s + Stranded(l, s)), Restrict(l.txs, s), Restrict(l.txs, Stranded(l, s));
            kept + gone + left == l.txs && kept.Keys !! gone.Keys !! left.Keys
  {
  }

  lemma ForwardKeepsRun(m: ByNonce, t: nat, lo: nat, hi: nat)
    requires Run(m, lo, hi)
    ensures Run(m - Below(m, t), if t <= lo then lo else if t <= hi then t else hi, hi)
  {
  }

  lemma RunSize(m: ByNonce, lo: nat, hi: nat)
    requires Run(m, lo, hi)
    ensures |m| == hi - lo
  {
    IntervalSize(m.Keys, lo, hi);
  }

  /** Capping a gapless list to `k` transactions leaves its first `k`. */
  lemma CapKeepsRun(m: ByNonce, k: nat, lo: nat, hi: nat)
    requires Run(m, lo, hi) && lo + k <= hi
    ensures Run(Restrict(m, Lowest(m.Keys, k)), lo, lo + k)
  {
    LowestOfRun(m.Keys, k, lo, hi);
  }

  lemma {:induction false} LowestOfRun(s: set<nat>, k: nat, lo: nat, hi: nat)
    requires lo + k <= hi && forall n :: n in s <==> lo <= n < hi
    ensures forall n :: n in Lowest(s, k) <==> lo <= n < lo + k
    decreases hi
  {
    IntervalSize(s, lo, hi);
    if |s| > k {
      assert hi - 1 in s && IsMax(Nonces.Max(s), s);
      LowestOfRun(s - {hi - 1}, k, lo, hi - 1);
    }
  }

  lemma {:induction false} IntervalSize(s: set<nat>, lo: nat, hi: nat)
    requires lo <= hi && forall n :: n in s <==> lo <= n < hi
    ensures |s| == hi - lo
    decreases hi
  {
    if lo < hi {
      IntervalSize(s - {hi - 1}, lo, hi - 1);
    } else {
      assert s == {};
    }
  }
}

/** txList: the mutable list object, kept equal to its AccountList value. */
module TxLists {
  import opened Nonces
  import opened Transactions
  import opened Wrappers
  import opened SortedMap
  import opened AccountLists

  /** The running minimum over the removed transactions in Filter. */
  method LowestNonce(txs: seq<Tx>, ghost m: ByNonce) returns (lowest: nat)
    requires |txs| > 0 && Keyed(m) && Lists(txs, m)
    ensures IsMin(lowest, m.Keys)
  {
    lowest := txs[0].nonce;
    for i := 1 to |txs|
      invariant lowest in m
      invariant forall k :: 0 <= k < i ==> lowest <= txs[k].nonce
    {
      if lowest > txs[i].nonce {
        lowest := txs[i].nonce;
      }
    }
    forall n | n in m ensures lowest <= n {
      assert m[n] in txs;
    }
  }

  /** In a strict list, what is stranded by `s` is what lies above its lowest nonce. */
  lemma StrandedMatches(l: AccountList, s: set<nat>, lowest: nat, above: Tx -> bool)
    requires Keyed(l.txs) && l.strict && s <= l.txs.Keys && IsMin(lowest, s)
    requires forall tx :: above(tx) <==> tx.nonce > lowest
    ensures Matching(l.txs - s, above) == Stranded(l, s)
    ensures Restrict(l.txs - s, Stranded(l, s)) == Restrict(l.txs, Stranded(l, s))
    ensures l.txs - s - Stranded(l, s) == l.txs - (s + Stranded(l, s))
  {
  }

  lemma UnpayableMatches(l: AccountList, cost: int, gas: nat, f: Tx -> bool)
    requires forall tx :: f(tx) <==> Unpayable(tx, cost, gas)
    ensures Matching(l.txs, f) == UnpayableIn(l, cost, gas)
  {
  }

  lemma NothingUnpayable(l: AccountList, cost: int, gas: nat)
    requires Capped(l) && l.costcap <= cost && l.gascap <= gas
    ensures UnpayableIn(l, cost, gas) == {} && Stranded(l, {}) == {} && Restrict(l.txs, {}) == map[]
  {
  }

  lemma NothingStranded(l: AccountList, s: set<nat>, removed: seq<Tx>)
    requires s <= l.txs.Keys && Lists(removed, Restrict(l.txs, s)) && !(l.strict && |removed| > 0)
    ensures Stranded(l, s) == {} && s + Stranded(l, s) == s && Restrict(l.txs, {}) == map[]
  {
    if l.strict {
      RestrictRest(l.txs, s);
    }
  }

  class TxList {
    const strict: bool
    const txs: TxSortedMap
    var costcap: int
    var gascap: nat

    ghost predicate Valid()
      reads this, txs
    {
      txs.Valid() && Capped(View())
    }

    ghost function View(): AccountList
      reads this, txs
    {
      AccountList(strict, txs.items, costcap, gascap)
    }

    constructor (strict: bool)
      ensures Valid() && fresh(txs) && View() == AccountLists.Empty(strict)
    {
      this.strict := strict;
      txs := new TxSortedMap();
      costcap, gascap := 0, 0;
    }

    /** Accepts a new nonce, or a replacement that outbids the transaction it replaces. */
    method Add(tx: Tx, priceBump: nat) returns (inserted: bool, replaced: Option<Tx>)
      requires Valid()
      modifies this, txs
      ensures Valid() && inserted == Accepts(old(View()), tx, priceBump)
      ensures inserted <==>
                (tx.nonce in old(txs.items) ==>
                   var price := old(txs.items)[tx.nonce].price; tx.price > price && 100 * tx.price > price * (100 + priceBump) - 100)
      ensures View() == if inserted then Added(old(View()), tx) else old(View())
      ensures replaced == if inserted && tx.nonce in old(txs.items) then Some(old(txs.items)[tx.nonce]) else None
    {
      replaced := None;
      if tx.nonce in txs.items {
        OutbidsInPrices(txs.items[tx.nonce], tx, priceBump);
        var threshold := txs.items[tx.nonce].price * (100 + priceBump) / 100;
        if txs.items[tx.nonce].price >= tx.price || threshold > tx.price {
          return false, None;
        }
        replaced := Some(txs.items[tx.nonce]);
      }
      txs.Put(tx);
      if costcap < tx.Cost() {
        costcap := tx.Cost();
      }
      if gascap < tx.gas {
        gascap := tx.gas;
      }
      inserted := true;
    }

    method Forward(threshold: nat) returns (removed: seq<Tx>)
      requires Valid()
      modifies txs
      ensures Valid() && View() == Without(old(View()), Below(old(txs.items), threshold))
      ensures removed == InOrder(Restrict(old(txs.items), Below(old(txs.items), threshold)))
    {
      removed := txs.Forward(threshold);
    }

    /** Drops what the limits no longer cover and, in a strict list, what that strands. */
    method Filter(costLimit: int, gasLimit: nat) returns (removed: seq<Tx>, invalids: seq<Tx>)
      requires Valid()
      modifies this, txs
      ensures Valid() && View() == Filtered(old(View()), costLimit, gasLimit)
      ensures var s := UnpayableIn(old(View()), costLimit, gasLimit);
              && Lists(removed, Restrict(old(txs.items), s))
              && Lists(invalids, Restrict(old(txs.items), Stranded(old(View()), s)))
    {
      ghost var l := View();
      ghost var s := UnpayableIn(l, costLimit, gasLimit);
      FilterIsFullScan(l, costLimit, gasLimit);
      if costcap <= costLimit && gascap <= gasLimit {
        NothingUnpayable(l, costLimit, gasLimit);
        return [], [];
      }
      var unpayable := (tx: Tx) => Unpayable(tx, costLimit, gasLimit);
      UnpayableMatches(l, costLimit, gasLimit, unpayable);
      removed := txs.Filter(unpayable);
      invalids := DropStranded(removed, l, s);
      costcap, gascap := costLimit, gasLimit;
    }

    /** The second sweep of Filter. */
    method DropStranded(removed: seq<Tx>, ghost l: AccountList, ghost s: set<nat>) returns (invalids: seq<Tx>)
      requires txs.Valid() && l.strict == strict && Keyed(l.txs) && s <= l.txs.Keys
      requires txs.items == l.txs - s && Lists(removed, Restrict(l.txs, s))
      modifies txs
      ensures txs.Valid() && txs.items == l.txs - (s + Stranded(l, s))
      ensures Lists(invalids, Restrict(l.txs, Stranded(l, s)))
    {
      if !strict || |removed| == 0 {
        NothingStranded(l, s, removed);
        return [];
      }
      RestrictRest(l.txs, s);
      var lowest := LowestNonce(removed, Restrict(l.txs, s));
      var above := (tx: Tx) => tx.nonce > lowest;
      StrandedMatches(l, s, lowest, above);
      invalids := txs.Filter(above);
    }

    method Cap(threshold: nat) returns (drops: seq<Tx>)
      requires Valid()
      modifies txs
      ensures Valid() && View() == Without(old(View()), old(txs.items).Keys - Nonces.Lowest(old(txs.items).Keys, threshold))
      ensures drops == Reversed(InOrder(old(txs.items) - Nonces.Lowest(old(txs.items).Keys, threshold)))
    {
      hide Nonces.Lowest, InOrder, Keyed;
      drops := txs.Cap(threshold);
      RestrictRest(old(txs.items), Nonces.Lowest(old(txs.items).Keys, threshold));
    }

    /** Removes the transaction at the nonce of `tx` and, in a strict list, what that strands. */
    method Remove(tx: Tx) returns (found: bool, invalids: seq<Tx>)
      requires Valid()
      modifies txs
      ensures Valid() && found == (tx.nonce in old(txs.items))
      ensures View() == if found then Without(old(View()), {tx.nonce} + Stranded(old(View()), {tx.nonce})) else old(View())
      ensures found ==> Lists(invalids, Restrict(old(txs.items), Stranded(old(View()), {tx.nonce})))
      ensures !found ==> invalids == []
    {
      invalids := [];
      found := txs.Remove(tx.nonce);
      if found && strict {
        var above := (t: Tx) => t.nonce > tx.nonce;
        StrandedMatches(old(View()), {tx.nonce}, tx.nonce, above);
        invalids := txs.Filter(above);
      }
    }

    method Ready(start: nat) returns (ready: seq<Tx>)
      requires Valid()
      modifies txs
      ensures Valid() && View() == Without(old(View()), ReadyRun(old(txs.items), start))
      ensures ready == InOrder(Restrict(old(txs.items), ReadyRun(old(txs.items), start)))
    {
      ready := txs.Ready(start);
    }

    method Flatten() returns (all: seq<Tx>)
      requires Valid()
      modifies txs
      ensures Valid() && View() == old(View()) && all == InOrder(txs.items)
    {
      all := txs.Flatten();
    }
  }
}
