/** Sets of nonces and their ascending listing. */
module Nonces {

  predicate IsMin(n: nat, s: set<nat>) {
    n in s && forall k :: k in s ==> n <= k
  }

  predicate IsMax(n: nat, s: set<nat>) {
    n in s && forall k :: k in s ==> k <= n
  }

  lemma {:induction false} MinExists(s: set<nat>) returns (n: nat)
    requires s != {}
    ensures IsMin(n, s)
  {
    var x :| x in s;
    assert forall k :: k in s ==> k == x || k in s - {x};
    n := x;
    if s - {x} != {} {
      var k := MinExists(s - {x});
      n := if k < x then k else x;
    }
  }

  lemma {:induction false} MaxExists(s: set<nat>) returns (n: nat)
    requires s != {}
    ensures IsMax(n, s)
  {
    var x :| x in s;
    assert forall k :: k in s ==> k == x || k in s - {x};
    n := x;
    if s - {x} != {} {
      var k := MaxExists(s - {x});
      n := if k > x then k else x;
    }
  }

  function Min(s: set<nat>): (n: nat)
    requires s != {}
    ensures IsMin(n, s)
  {
    assert exists n :: IsMin(n, s) by { var n := MinExists(s); }
    var n :| IsMin(n, s);
    n
  }

  function Max(s: set<nat>): (n: nat)
    requires s != {}
    ensures IsMax(n, s)
  {
    assert exists n :: IsMax(n, s) by { var n := MaxExists(s); }
    var n :| IsMax(n, s);
    n
  }

  ghost predicate Ascending(s: seq<nat>) {
    forall i, j :: 0 <= i < j < |s| ==> s[i] < s[j]
  }

  /** Every member of `a` lies below every member of `b`. */
  ghost predicate Precedes(a: set<nat>, b: set<nat>) {
    forall x, y :: x in a && y in b ==> x < y
  }

  function Listing(s: set<nat>): (r: seq<nat>)
    ensures |r| == |s|
    ensures forall n :: n in r <==> n in s
  {
    if s == {} then [] else [Min(s)] + Listing(s - {Min(s)})
  }

  lemma ConsAscends(n: nat, s: seq<nat>)
    requires Ascending(s) && forall k :: k in s ==> n < k
    ensures Ascending([n] + s)
  {
    assert forall j :: 0 <= j < |s| ==> s[j] in s;
  }

  lemma {:induction false} ListingAscends(s: set<nat>)
    ensures Ascending(Listing(s))
  {
    if s != {} {
      var rest := s - {Min(s)};
      ListingAscends(rest);
      hide Ascending;
      ConsAscends(Min(s), Listing(rest));
    } else {
      assert Listing(s) == [];
    }
  }

  lemma ListingLast(s: set<nat>)
    requires s != {}
    ensures |Listing(s)| > 0 && Listing(s)[|s| - 1] == Max(s)
  {
    var ns := Listing(s);
    ListingAscends(s);
    hide Listing;
    assert Max(s) in ns;
    var i :| 0 <= i < |ns| && ns[i] == Max(s);
    assert ns[|ns| - 1] in ns;
  }

  /** An ascending sequence starts with its least element, and the rest ascends. */
  lemma AscendingTail(s: seq<nat>)
    requires Ascending(s) && s != []
    ensures Ascending(s[1..]) && s[0] in s
    ensures forall n :: n in s ==> s[0] <= n
    ensures forall n :: n in s[1..] <==> n in s && n != s[0]
  {
    assert s == [s[0]] + s[1..];
  }

  /** Two ascending sequences with the same elements are the same. */
  lemma {:induction false} AscendingIsUnique(s: seq<nat>, t: seq<nat>)
    requires Ascending(s) && Ascending(t)
    requires forall n :: n in s <==> n in t
    ensures s == t
  {
    hide Ascending;
    assert s != [] ==> s[0] in s;
    assert t != [] ==> t[0] in t;
    if s != [] {
      AscendingTail(s);
      AscendingTail(t);
      AscendingIsUnique(s[1..], t[1..]);
      assert s == [s[0]] + s[1..] && t == [t[0]] + t[1..];
    }
  }

  /** Listing a set is listing a lower part, then the rest. */
  lemma ListingSplits(s: set<nat>, a: set<nat>, b: set<nat>)
    requires s == a + b && Precedes(a, b)
    ensures Listing(s) == Listing(a) + Listing(b)
  {
    var p, q := Listing(a), Listing(b);
    ListingAscends(s);
    ConcatAscends(a, b);
    forall n ensures n in p + q <==> n in s {
    }
    AscendingIsUnique(Listing(s), p + q);
  }

  lemma ConcatAscends(a: set<nat>, b: set<nat>)
    requires Precedes(a, b)
    ensures Ascending(Listing(a) + Listing(b))
  {
    ListingAscends(a);
    ListingAscends(b);
    hide Listing;
    var p, q := Listing(a), Listing(b);
    assert forall i :: 0 <= i < |p| ==> p[i] in p;
    assert forall j :: 0 <= j < |q| ==> q[j] in q;
    forall i, j | 0 <= i < |p| && 0 <= j < |q| ensures p[i] < q[j] {
    }
  }

  /** The `k` lowest members, or all if there are no more than `k`. */
  function Lowest(s: set<nat>, k: nat): (r: set<nat>)
    ensures r <= s && |r| == (if |s| <= k then |s| else k)
  {
    if |s| <= k then s else Lowest(s - {Max(s)}, k)
  }

  lemma {:induction false} LowestPrecede(s: set<nat>, k: nat)
    ensures Precedes(Lowest(s, k), s - Lowest(s, k))
  {
    if |s| > k {
      var m := Max(s);
      var r := Lowest(s - {m}, k);
      LowestPrecede(s - {m}, k);
      assert forall y :: y in s - r ==> y == m || y in (s - {m}) - r;
    }
  }

  /** The first value from `n` on that is not a member. */
  function RunEnd(s: set<nat>, n: nat): (e: nat)
    ensures n <= e && e !in s
    ensures forall k :: n <= k < e ==> k in s
    decreases s
  {
    if n !in s then n else
      var e := RunEnd(s - {n}, n + 1);
      assert forall k :: n <= k < e ==> k == n || k in s - {n};
      e
  }
}

/** Transactions as the pool sees them, and one account's transactions by nonce. */
module Transactions {
  import opened Nonces
  import opened Wrappers

  type Address = nat

  newtype Byte = b: int | 0 <= b < 256

  /** `sender` is the address recovered from the signature, if that succeeds. */
  datatype Tx = Tx(sender: Option<Address>, nonce: nat, price: int, gas: nat, value: int,
                   to: Option<Address>, data: seq<Byte>, size: nat)
  {
    /** The most the transaction can take from its sender. */
    function Cost(): int {
      value + price * gas
    }

    function Hash(): Hash {
      Digest(this)
    }
  }

  /** A collision-free digest: the hash of a transaction determines it. */
  datatype Hash = Digest(preimage: Tx)

  /** One account's transactions, by nonce. */
  type ByNonce = map<nat, Tx>

  ghost predicate Keyed(m: ByNonce) {
    forall n :: n in m ==> m[n].nonce == n
  }

  /** The transactions of `m` whose nonce is in `s`. */
  function Restrict(m: ByNonce, s: set<nat>): (r: ByNonce)
    ensures r.Keys == m.Keys * s
    ensures forall n :: n in r ==> r[n] == m[n]
  {
    map n | n in m && n in s :: m[n]
  }

  /** The transactions of `m` at the given nonces. */
  function Pick(m: ByNonce, ns: seq<nat>): (txs: seq<Tx>)
    requires forall n :: n in ns ==> n in m
    ensures |txs| == |ns| && forall i :: 0 <= i < |ns| ==> txs[i] == m[ns[i]]
  {
    seq(|ns|, i requires 0 <= i < |ns| => assert ns[i] in ns; m[ns[i]])
  }

  /** The transactions in nonce order. */
  function InOrder(m: ByNonce): (txs: seq<Tx>)
    ensures |txs| == |m|
  {
    Pick(m, Listing(m.Keys))
  }

  function Below(m: ByNonce, t: nat): (s: set<nat>)
    ensures forall n :: n in s <==> n in m && n < t
  {
    set n | n in m && n < t
  }

  ghost predicate DistinctNonces(txs: seq<Tx>) {
    forall i, j :: 0 <= i < j < |txs| ==> txs[i].nonce != txs[j].nonce
  }

  /** `txs` lists the transactions of `m`, each once. */
  ghost predicate Lists(txs: seq<Tx>, m: ByNonce) {
    && (forall i :: 0 <= i < |txs| ==> txs[i].nonce in m && m[txs[i].nonce] == txs[i])
    && DistinctNonces(txs)
    && (forall n :: n in m ==> m[n] in txs)
  }

  lemma InOrderLists(m: ByNonce)
    requires Keyed(m)
    ensures Lists(InOrder(m), m)
  {
    var ns := Listing(m.Keys);
    ListingAscends(m.Keys);
    forall n | n in m ensures m[n] in InOrder(m) {
      assert n in ns;
      var i :| 0 <= i < |ns| && ns[i] == n;
      assert InOrder(m)[i] == m[n];
    }
    forall i | 0 <= i < |ns| ensures ns[i] in m && InOrder(m)[i].nonce == ns[i] {
      assert ns[i] in ns;
    }
  }

  lemma PickAgrees(m: ByNonce, r: ByNonce, ns: seq<nat>)
    requires forall n :: n in ns ==> n in m && n in r && m[n] == r[n]
    ensures Pick(m, ns) == Pick(r, ns)
  {
    forall i | 0 <= i < |ns| ensures Pick(m, ns)[i] == Pick(r, ns)[i] {
      assert ns[i] in ns;
    }
  }

  lemma PickConcat(m: ByNonce, p: seq<nat>, q: seq<nat>)
    requires forall n :: n in p + q ==> n in m
    requires forall n :: n in p ==> n in m
    requires forall n :: n in q ==> n in m
    ensures Pick(m, p + q) == Pick(m, p) + Pick(m, q)
  {
  }

  /** Nonce order of the whole is that of any lower part followed by the rest. */
  lemma InOrderSplits(m: ByNonce, s: set<nat>)
    requires s <= m.Keys && Precedes(s, m.Keys - s)
    ensures InOrder(m) == InOrder(Restrict(m, s)) + InOrder(Restrict(m, m.Keys - s))
  {
    hide Listing, Precedes;
    var a, b := Restrict(m, s), Restrict(m, m.Keys - s);
    assert a.Keys == s && b.Keys == m.Keys - s;
    ListingSplits(m.Keys, a.Keys, b.Keys);
    PickConcat(m, Listing(a.Keys), Listing(b.Keys));
    PickAgrees(m, a, Listing(a.Keys));
    PickAgrees(m, b, Listing(b.Keys));
  }
}
