/** The binary min-heap of Go's container/heap, as the transaction lists use it:
    a slice whose element order is given by a `less` callback. Every operation
    takes the slice and returns its new contents. */
module BinaryHeap {

  /** What container/heap needs of `less`: `!less(y, x)` reads "x may stand above y",
      and that relation is a total preorder. */
  ghost predicate Order<T(!new)>(less: (T, T) -> bool) {
    && (forall x, y :: less(x, y) ==> !less(y, x))
    && (forall x, y, z :: !less(y, x) && !less(z, y) ==> !less(z, x))
  }

  function Parent(i: nat): (p: nat)
    requires 1 <= i
  {
    (i - 1) / 2
  }

  /** Element `i` does not sort before its parent. */
  ghost predicate Above<T>(h: seq<T>, less: (T, T) -> bool, i: nat)
    requires 1 <= i < |h|
  {
    !less(h[i], h[Parent(i)])
  }

  ghost predicate Heap<T>(h: seq<T>, less: (T, T) -> bool) {
    forall i :: 1 <= i < |h| ==> Above(h, less, i)
  }

  /** Element `i` does not sort before its grandparent. */
  ghost predicate AboveTwice<T>(h: seq<T>, less: (T, T) -> bool, i: nat)
    requires 1 <= i < |h| && 1 <= Parent(i)
  {
    !less(h[i], h[Parent(Parent(i))])
  }

  /** Heap order within the first `n` elements for every parent from `lo` on, except
      below `hole` and above `top`; children of `hole` respect their grandparent. */
  ghost predicate Sinking<T>(h: seq<T>, less: (T, T) -> bool, lo: nat, n: nat, hole: nat, top: nat)
    requires n <= |h|
  {
    && (forall i :: 1 <= i < n && lo <= Parent(i) && Parent(i) != hole && i != top ==> Above(h, less, i))
    && (forall i :: 1 <= i < n && Parent(i) == hole && 1 <= hole && lo <= Parent(hole) ==> AboveTwice(h, less, i))
  }

  /** Heap order everywhere except between `hole` and its parent; children of
      `hole` respect their grandparent. */
  ghost predicate Rising<T>(h: seq<T>, less: (T, T) -> bool, hole: nat) {
    && (forall i :: 1 <= i < |h| && i != hole ==> Above(h, less, i))
    && (forall i :: 1 <= i < |h| && Parent(i) == hole && 1 <= hole ==> AboveTwice(h, less, i))
  }

  function Swap<T>(h: seq<T>, i: nat, j: nat): (r: seq<T>)
    requires i < |h| && j < |h|
    ensures |r| == |h|
    ensures multiset(r) == multiset(h)
  {
    h[i := h[j]][j := h[i]]
  }

  /** No element of a heap sorts before its root. */
  lemma {:induction false} RootIsMinimal<T(!new)>(h: seq<T>, less: (T, T) -> bool, i: nat)
    requires Order(less) && Heap(h, less) && i < |h|
    ensures !less(h[i], h[0])
    decreases i
  {
    if i > 0 {
      RootIsMinimal(h, less, Parent(i));
      assert Above(h, less, i);
    }
  }

  lemma SinkStep<T(!new)>(h: seq<T>, less: (T, T) -> bool, lo: nat, n: nat, i: nat, top: nat, j: nat)
    requires Order(less) && lo <= top <= i && n <= |h| && Sinking(h, less, lo, n, i, top)
    requires 2 * i < j <= 2 * i + 2 && j < n && less(h[j], h[i])
    requires !less(h[2 * i + 1], h[j]) && (2 * i + 2 < n ==> !less(h[2 * i + 2], h[j]))
    ensures Sinking(Swap(h, i, j), less, lo, n, j, top)
    ensures i == top && 1 <= top && lo <= Parent(top) ==> Above(Swap(h, i, j), less, top)
    ensures i != top && 1 <= top && lo <= Parent(top) && Above(h, less, top) ==> Above(Swap(h, i, j), less, top)
  {
    assert i == 0 || Parent(i) < lo || AboveTwice(h, less, j);
    var s := Swap(h, i, j);
    forall c | 1 <= c < n && lo <= Parent(c) && Parent(c) != j && c != top
      ensures Above(s, less, c)
    {
      if Parent(c) != i {
        assert Above(h, less, c);
      }
    }
    forall c | 1 <= c < n && Parent(c) == j
      ensures AboveTwice(s, less, c)
    {
      assert Above(h, less, c);
    }
  }

  /** When the children of `i` may stand below it, the sinking is over. */
  lemma Sunk<T(!new)>(h: seq<T>, less: (T, T) -> bool, lo: nat, n: nat, i: nat, top: nat)
    requires Order(less) && lo <= top <= i <= n <= |h| && Sinking(h, less, lo, n, i, top)
    requires 2 * i + 1 < n ==> !less(h[2 * i + 1], h[i])
    requires 2 * i + 2 < n ==> !less(h[2 * i + 2], h[i])
    requires i != top && 1 <= top < |h| && lo <= Parent(top) ==> Above(h, less, top)
    ensures Sunken(h, less, lo, n, top)
  {
    forall c | 1 <= c < n && lo <= Parent(c) && c != top ensures Above(h, less, c) {
      assert Parent(c) == i ==> c == 2 * i + 1 || c == 2 * i + 2;
    }
    forall c | 1 <= c < n && Parent(c) == top && 1 <= top && lo <= Parent(top)
      ensures AboveTwice(h, less, c)
    {
      if i != top {
        assert Above(h, less, c);
      }
    }
  }

  /** What `Down` leaves: heap order for every parent from `lo` on, except above `top`. */
  ghost predicate Sunken<T>(h: seq<T>, less: (T, T) -> bool, lo: nat, n: nat, top: nat)
    requires n <= |h|
  {
    && (forall c :: 1 <= c < n && lo <= Parent(c) && c != top ==> Above(h, less, c))
    && (forall c :: 1 <= c < n && Parent(c) == top && 1 <= top && lo <= Parent(top) ==> AboveTwice(h, less, c))
  }

  /** The child of `i` that heap.down compares with `i`: the right one only if it
      sorts before the left one. */
  function LesserChild<T(!new)>(h: seq<T>, less: (T, T) -> bool, i: nat, n: nat): (j: nat)
    requires 2 * i + 1 < n <= |h|
  {
    var j := 2 * i + 1;
    if j + 1 < n && less(h[j + 1], h[j]) then j + 1 else j
  }

  /** heap.down: sinks element `i0` within the first `n` elements. */
  method Down<T(!new)>(h0: seq<T>, less: (T, T) -> bool, ghost lo: nat, i0: nat, n: nat) returns (h: seq<T>)
    requires Order(less) && lo <= i0 <= n <= |h0|
    requires Sinking(h0, less, lo, n, i0, i0)
    ensures |h| == |h0| && multiset(h) == multiset(h0) && (forall k :: n <= k < |h| ==> h[k] == h0[k])
    ensures Sunken(h, less, lo, n, i0)
  {
    h := h0;
    var i := i0;
    while true
      invariant i0 <= i <= n && |h| == |h0| && multiset(h) == multiset(h0)
      invariant forall k :: n <= k < |h| ==> h[k] == h0[k]
      invariant Sinking(h, less, lo, n, i, i0)
      invariant i0 != i && 1 <= i0 && lo <= Parent(i0) ==> Above(h, less, i0)
      decreases n - i
    {
      if 2 * i + 1 >= n || !less(h[LesserChild(h, less, i, n)], h[i]) {
        Sunk(h, less, lo, n, i, i0);
        return;
      }
      var j := LesserChild(h, less, i, n);
      SinkStep(h, less, lo, n, i, i0, j);
      h, i := Swap(h, i, j), j;
    }
  }

  lemma RiseStep<T(!new)>(h: seq<T>, less: (T, T) -> bool, j: nat)
    requires Order(less) && 1 <= j < |h| && Rising(h, less, j) && less(h[j], h[Parent(j)])
    ensures Rising(Swap(h, Parent(j), j), less, Parent(j))
  {
    var i := Parent(j);
    var s := Swap(h, i, j);
    forall c | 1 <= c < |h| && c != i
      ensures Above(s, less, c)
    {
      if c != j {
        assert Above(h, less, c);
        if Parent(c) == j {
          assert AboveTwice(h, less, c);
        }
      }
    }
    forall c | 1 <= c < |h| && Parent(c) == i && 1 <= i
      ensures AboveTwice(s, less, c)
    {
      assert Above(h, less, i);
      if c != j {
        assert Above(h, less, c);
      }
    }
  }

  /** heap.up: raises element `j0` to its place. */
  method Up<T(!new)>(h0: seq<T>, less: (T, T) -> bool, j0: nat) returns (h: seq<T>)
    requires Order(less) && j0 < |h0| && Rising(h0, less, j0)
    ensures Heap(h, less) && multiset(h) == multiset(h0)
  {
    h := h0;
    var j := j0;
    while j > 0 && less(h[j], h[Parent(j)])
      invariant 0 <= j < |h| && |h| == |h0| && multiset(h) == multiset(h0) && Rising(h, less, j)
    {
      RiseStep(h, less, j);
      h := Swap(h, Parent(j), j);
      j := Parent(j);
    }
  }

  /** heap.Push. */
  method Push<T(!new)>(h0: seq<T>, less: (T, T) -> bool, x: T) returns (h: seq<T>)
    requires Order(less) && Heap(h0, less)
    ensures Heap(h, less) && multiset(h) == multiset(h0) + multiset{x}
  {
    var s := h0 + [x];
    forall i | 1 <= i < |s| && i != |h0| ensures Above(s, less, i) {
      assert Above(h0, less, i);
    }
    h := Up(s, less, |h0|);
  }

  /** heap.Pop: takes out the root. */
  method Pop<T(!new)>(h0: seq<T>, less: (T, T) -> bool) returns (h: seq<T>, x: T)
    requires Order(less) && Heap(h0, less) && |h0| > 0
    ensures Heap(h, less) && multiset(h0) == multiset(h) + multiset{x}
    ensures x == h0[0] && forall y :: y in h0 ==> !less(y, x)
  {
    h, x := Remove(h0, less, 0);
    forall y | y in h0 ensures !less(y, h0[0]) {
      var i :| 0 <= i < |h0| && h0[i] == y;
      RootIsMinimal(h0, less, i);
    }
  }

  lemma RemovedSinks<T(!new)>(h: seq<T>, less: (T, T) -> bool, i: nat)
    requires Order(less) && Heap(h, less) && i < |h|
    ensures Sinking(Swap(h, i, |h| - 1), less, 0, |h| - 1, i, i)
  {
    var n := |h| - 1;
    var s := Swap(h, i, n);
    forall c | 1 <= c < n && Parent(c) != i && c != i ensures Above(s, less, c) {
      assert Above(h, less, c);
    }
    forall c | 1 <= c < n && Parent(c) == i && 1 <= i ensures AboveTwice(s, less, c) {
      assert Above(h, less, c) && Above(h, less, i);
    }
  }

  lemma PrefixRises<T>(h: seq<T>, less: (T, T) -> bool, n: nat, i: nat)
    requires i < n <= |h| && Sunken(h, less, 0, n, i)
    ensures Rising(h[..n], less, i)
  {
    forall c | 1 <= c < n && c != i ensures Above(h[..n], less, c) {
      assert Above(h, less, c);
    }
    forall c | 1 <= c < n && Parent(c) == i && 1 <= i ensures AboveTwice(h[..n], less, c) {
      assert AboveTwice(h, less, c);
    }
  }

  lemma PrefixHeap<T>(h: seq<T>, less: (T, T) -> bool, n: nat)
    requires n <= |h| && Sunken(h, less, 0, n, n)
    ensures Heap(h[..n], less)
  {
    forall c | 1 <= c < n ensures Above(h[..n], less, c) {
      assert Above(h, less, c);
    }
  }

  /** heap.Remove: takes out element `i`. */
  method Remove<T(!new)>(h0: seq<T>, less: (T, T) -> bool, i: nat) returns (h: seq<T>, x: T)
    requires Order(less) && Heap(h0, less) && i < |h0|
    ensures Heap(h, less) && multiset(h0) == multiset(h) + multiset{x} && x == h0[i]
  {
    hide Sinking, Sunken, Rising, Heap, Order;
    var n := |h0| - 1;
    var s := Swap(h0, i, n);
    RemovedSinks(h0, less, i);
    s := Down(s, less, 0, i, n);
    x := s[n];
    h := s[..n];
    assert s == h + [x];
    if i < n {
      PrefixRises(s, less, n, i);
      h := Up(h, less, i);
    } else {
      PrefixHeap(s, less, n);
    }
  }

  /** heap.Init: orders an arbitrary slice. */
  method Init<T(!new)>(h0: seq<T>, less: (T, T) -> bool) returns (h: seq<T>)
    requires Order(less)
    ensures Heap(h, less) && multiset(h) == multiset(h0)
  {
    h := h0;
    var i := |h| / 2;
    while i > 0
      invariant 0 <= i <= |h| / 2 && |h| == |h0| && multiset(h) == multiset(h0)
      invariant forall c :: 1 <= c < |h| && i <= Parent(c) ==> Above(h, less, c)
    {
      i := i - 1;
      h := Down(h, less, i, i, |h|);
    }
    assert forall c :: 1 <= c < |h| ==> Above(h, less, c);
  }

  ghost predicate Sorted<T>(s: seq<T>, less: (T, T) -> bool) {
    forall i, j :: 0 <= i < j < |s| ==> !less(s[j], s[i])
  }

  /** sort.Sort: any sorted permutation will do for its callers. */
  method Sort<T(!new)>(s: seq<T>, less: (T, T) -> bool) returns (r: seq<T>)
    requires Order(less)
    ensures Sorted(r, less) && multiset(r) == multiset(s)
  {
    r := [];
    for i := 0 to |s|
      invariant Sorted(r, less) && multiset(r) == multiset(s[..i])
    {
      r := Insert(r, less, s[i]);
      assert s[..i + 1] == s[..i] + [s[i]];
    }
    assert s[..|s|] == s;
  }

  method Insert<T(!new)>(s: seq<T>, less: (T, T) -> bool, x: T) returns (r: seq<T>)
    requires Order(less) && Sorted(s, less)
    ensures Sorted(r, less) && multiset(r) == multiset(s) + multiset{x}
  {
    var k := |s|;
    while k > 0 && less(x, s[k - 1])
      invariant 0 <= k <= |s|
      invariant forall j :: k <= j < |s| ==> less(x, s[j])
    {
      k := k - 1;
    }
    InsertKeepsSorted(s, less, k, x);
    assert s == s[..k] + s[k..];
    r := s[..k] + [x] + s[k..];
  }

  lemma InsertKeepsSorted<T(!new)>(r: seq<T>, less: (T, T) -> bool, k: nat, x: T)
    requires Order(less) && Sorted(r, less) && k <= |r|
    requires k > 0 ==> !less(x, r[k - 1])
    requires forall j :: k <= j < |r| ==> less(x, r[j])
    ensures Sorted(r[..k] + [x] + r[k..], less)
  {
    var t := r[..k] + [x] + r[k..];
    forall i, j | 0 <= i < j < |t| ensures !less(t[j], t[i]) {
      if i < k && j == k {
        assert i == k - 1 || !less(r[k - 1], r[i]);
      }
    }
  }
}
