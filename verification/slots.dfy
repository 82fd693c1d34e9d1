/** A row of weighted slots: what the leaves of a selection tree hold, left to right. */
module WeightedSlots {

  const BRANCHES: nat := 8

  type Item = nat

  datatype Slot = Free | Held(item: Item, weight: int)

  function Weight(x: Slot): int {
    if x.Held? then x.weight else 0
  }

  function Sum(s: seq<Slot>): int {
    if s == [] then 0 else Sum(s[..|s| - 1]) + Weight(s[|s| - 1])
  }

  function Count(s: seq<Slot>): nat {
    if s == [] then 0 else Count(s[..|s| - 1]) + if s[|s| - 1].Held? then 1 else 0
  }

  function Frees(n: nat): seq<Slot> {
    seq(n, _ => Free)
  }

  /** Nothing held weighs nothing: an item of weight zero is removed. */
  ghost predicate Positive(s: seq<Slot>) {
    forall i :: 0 <= i < |s| && s[i].Held? ==> s[i].weight > 0
  }

  /** The leftmost free slot. */
  ghost predicate FirstFree(s: seq<Slot>, k: nat) {
    k < |s| && s[k].Free? && forall i :: 0 <= i < k ==> s[i].Held?
  }

  lemma {:induction false} SumConcat(s: seq<Slot>, t: seq<Slot>)
    ensures Sum(s + t) == Sum(s) + Sum(t) && Count(s + t) == Count(s) + Count(t)
  {
    if t == [] {
      assert s + t == s;
    } else {
      assert (s + t)[..|s + t| - 1] == s + t[..|t| - 1];
      SumConcat(s, t[..|t| - 1]);
    }
  }

  /** Updating a slot changes sum and count by just that. */
  lemma {:induction false} SumUpdate(s: seq<Slot>, k: nat, x: Slot)
    requires k < |s|
    ensures Sum(s[k := x]) == Sum(s) - Weight(s[k]) + Weight(x)
    ensures Count(s[k := x]) == Count(s) - (if s[k].Held? then 1 else 0) + (if x.Held? then 1 else 0)
  {
    var n := |s| - 1;
    if k == n {
      assert s[k := x][..n] == s[..n];
    } else {
      assert s[k := x][..n] == s[..n][k := x];
      SumUpdate(s[..n], k, x);
    }
  }

  lemma {:induction false} SumFrees(n: nat)
    ensures Sum(Frees(n)) == 0 && Count(Frees(n)) == 0
  {
    if n > 0 {
      assert Frees(n)[..n - 1] == Frees(n - 1);
      SumFrees(n - 1);
    }
  }

  lemma {:induction false} SumNonNegative(s: seq<Slot>)
    requires Positive(s)
    ensures Sum(s) >= 0
  {
    if s != [] {
      SumNonNegative(s[..|s| - 1]);
    }
  }

  /** A row is full exactly when it has no free slot. */
  lemma {:induction false} CountFull(s: seq<Slot>)
    ensures Count(s) <= |s|
    ensures Count(s) == |s| <==> forall i :: 0 <= i < |s| ==> s[i].Held?
  {
    if s != [] {
      CountFull(s[..|s| - 1]);
      assert forall i :: 0 <= i < |s| - 1 ==> s[..|s| - 1][i] == s[i];
    }
  }

  /** No weight at all means no items. */
  lemma {:induction false} SumZero(s: seq<Slot>)
    requires Positive(s) && Sum(s) == 0
    ensures forall i :: 0 <= i < |s| ==> s[i].Free?
  {
    if s != [] {
      SumNonNegative(s[..|s| - 1]);
      SumZero(s[..|s| - 1]);
      assert forall i :: 0 <= i < |s| - 1 ==> s[..|s| - 1][i] == s[i];
    }
  }

  // A row cut into BRANCHES parts of equal length.

  lemma PartBounds(c: nat, i: nat)
    requires i < BRANCHES
    ensures 0 <= i * c <= i * c + c <= BRANCHES * c
  {
    assert (BRANCHES - i - 1) * c >= 0;
  }

  ghost function Part(s: seq<Slot>, c: nat, i: nat): (r: seq<Slot>)
    requires |s| == BRANCHES * c && i < BRANCHES
    ensures |r| == c
  {
    PartBounds(c, i);
    s[i * c..i * c + c]
  }

  lemma PartApart(c: nat, i: nat, j: nat)
    requires i < j
    ensures i * c + c <= j * c
  {
    assert (j - i - 1) * c >= 0;
  }

  lemma PartAt(s: seq<Slot>, c: nat, i: nat, j: nat)
    requires |s| == BRANCHES * c && i < BRANCHES && j < c
    ensures i * c + j < |s| && s[i * c + j] == Part(s, c, i)[j]
  {
    PartBounds(c, i);
  }

  /** Updating a slot of one part. */
  lemma PartUpdate(s: seq<Slot>, c: nat, i: nat, j: nat, x: Slot)
    requires |s| == BRANCHES * c && i < BRANCHES && j < c
    ensures i * c + j < |s| && Part(s[i * c + j := x], c, i) == Part(s, c, i)[j := x]
  {
    PartBounds(c, i);
    var k := i * c;
    assert s[k + j := x][k..k + c] == s[k..k + c][j := x];
  }

  lemma PartOther(s: seq<Slot>, c: nat, i: nat, j: nat, x: Slot, o: nat)
    requires |s| == BRANCHES * c && i < BRANCHES && j < c && o < BRANCHES && o != i
    ensures i * c + j < |s| && Part(s[i * c + j := x], c, o) == Part(s, c, o)
  {
    PartBounds(c, i);
    PartBounds(c, o);
    if o < i {
      PartApart(c, o, i);
    } else {
      PartApart(c, i, o);
    }
    var k, l := i * c + j, o * c;
    assert s[k := x][l..l + c] == s[l..l + c];
  }

  lemma PartFrees(c: nat, i: nat)
    requires i < BRANCHES
    ensures Part(Frees(BRANCHES * c), c, i) == Frees(c)
  {
    PartBounds(c, i);
  }

  /** The leftmost free slot lies in the first part that is not full. */
  lemma FirstFreeInPart(s: seq<Slot>, c: nat, i: nat, j: nat)
    requires |s| == BRANCHES * c && i < BRANCHES && FirstFree(Part(s, c, i), j)
    requires forall o: nat :: o < i ==> Count(Part(s, c, o)) == c
    ensures FirstFree(s, i * c + j)
  {
    PartAt(s, c, i, j);
    forall k | 0 <= k < i * c + j ensures s[k].Held? {
      if k < i * c {
        DividePart(k, c, i);
        var o := k / c;
        PartAt(s, c, o, k - o * c);
        CountFull(Part(s, c, o));
      } else {
        PartAt(s, c, i, k - i * c);
      }
    }
  }

  /** The part and the place in it that an index falls into. */
  lemma DividePart(k: nat, c: nat, n: nat)
    requires k < n * c
    ensures c > 0 && k / c < n && 0 <= k - (k / c) * c < c
  {
    assert c > 0;
    var o := k / c;
    assert k == o * c + k % c;
    assert o >= n ==> (o - n) * c >= 0;
  }

  // Drawing.

  /** The draw `val` falls on slot `k` in a scan of the running sums. */
  ghost predicate Picks(s: seq<Slot>, val: int, k: nat) {
    k < |s| && Sum(s[..k]) <= val < Sum(s[..k]) + Weight(s[k])
  }

  /** The draw `val` falls on a slot that holds `item` at `weight`. */
  ghost predicate Drawn(s: seq<Slot>, val: int, item: Item, weight: int) {
    exists k: nat :: Picks(s, val, k) && s[k] == Held(item, weight)
  }

  /** Every draw falls on exactly one slot. */
  lemma {:induction false} PickExists(s: seq<Slot>, val: int) returns (k: nat)
    requires 0 <= val < Sum(s)
    ensures Picks(s, val, k)
  {
    var n := |s| - 1;
    if val >= Sum(s[..n]) {
      k := n;
    } else {
      k := PickExists(s[..n], val);
      assert s[..n][..k] == s[..k];
    }
  }

  lemma {:induction false} SumPrefix(s: seq<Slot>, k: nat, l: nat)
    requires Positive(s) && k <= l <= |s|
    ensures Sum(s[..k]) <= Sum(s[..l])
  {
    if k < l {
      assert s[..l][..l - 1] == s[..l - 1];
      SumPrefix(s, k, l - 1);
    }
  }

  lemma PickUnique(s: seq<Slot>, val: int, k: nat, l: nat)
    requires Positive(s) && Picks(s, val, k) && Picks(s, val, l)
    ensures k == l
  {
    if k < l {
      assert s[..k + 1][..k] == s[..k];
      SumPrefix(s, k + 1, l);
    } else if l < k {
      assert s[..l + 1][..l] == s[..l];
      SumPrefix(s, l + 1, k);
    }
  }

  ghost function Range(lo: int, n: nat): (r: set<int>) {
    if n == 0 then {} else Range(lo, n - 1) + {lo + n - 1}
  }

  lemma {:induction false} RangeSize(lo: int, n: nat)
    ensures |Range(lo, n)| == n && forall v :: v in Range(lo, n) <==> lo <= v < lo + n
  {
    if n > 0 {
      RangeSize(lo, n - 1);
    }
  }

  /** Of the draws below the total weight exactly as many pick an item as it weighs. */
  lemma DrawsPerItem(s: seq<Slot>, k: nat)
    requires Positive(s) && k < |s|
    ensures |set val | 0 <= val < Sum(s) && Picks(s, val, k)| == Weight(s[k])
  {
    SumNonNegative(s[..k]);
    assert s[..k + 1][..k] == s[..k];
    assert s[..|s|] == s;
    SumPrefix(s, k + 1, |s|);
    RangeSize(Sum(s[..k]), Weight(s[k]));
    assert (set val | 0 <= val < Sum(s) && Picks(s, val, k)) == Range(Sum(s[..k]), Weight(s[k]));
  }

  /** A draw on a row is a draw on the part it falls into. */
  lemma PickInPart(s: seq<Slot>, c: nat, i: nat, val: int, j: nat)
    requires |s| == BRANCHES * c && i < BRANCHES && Picks(Part(s, c, i), val, j)
    ensures i * c <= |s| && Picks(s, val + Sum(s[..i * c]), i * c + j)
  {
    PartBounds(c, i);
    PartAt(s, c, i, j);
    assert s[..i * c + j] == s[..i * c] + Part(s, c, i)[..j];
    SumConcat(s[..i * c], Part(s, c, i)[..j]);
  }

  /** A draw that falls on a part falls on the slot chosen there. */
  lemma DrawnInPart(s: seq<Slot>, c: nat, i: nat, val: int, item: Item, weight: int)
    requires |s| == BRANCHES * c && i < BRANCHES && Drawn(Part(s, c, i), val, item, weight)
    ensures i * c <= |s| && Drawn(s, val + Sum(s[..i * c]), item, weight)
  {
    var j: nat :| Picks(Part(s, c, i), val, j) && Part(s, c, i)[j] == Held(item, weight);
    PickInPart(s, c, i, val, j);
    PartAt(s, c, i, j);
  }

  lemma SumNextPart(s: seq<Slot>, c: nat, i: nat)
    requires |s| == BRANCHES * c && i < BRANCHES
    ensures i * c <= |s| && (i + 1) * c <= |s| && Sum(s[..(i + 1) * c]) == Sum(s[..i * c]) + Sum(Part(s, c, i))
  {
    PartBounds(c, i);
    assert (i + 1) * c == i * c + c;
    assert s[..(i + 1) * c] == s[..i * c] + Part(s, c, i);
    SumConcat(s[..i * c], Part(s, c, i));
  }
}
