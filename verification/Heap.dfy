/**
 The binary heap of Go's `container/heap`, on which the nonce heap and the price heap of
 the transaction pool are built. A heap is a sequence ordered by a strict weak order `less`.
 */
module Heap {

  /** `less` is a strict weak order, as `container/heap` demands of its callers. */
  ghost predicate StrictWeak<T(!new)>(less: (T, T) -> bool) {
    && (forall a, b :: less(a, b) ==> !less(b, a))
    && (forall a, b, c :: !less(b, a) && !less(c, b) ==> !less(c, a))
  }

  function Parent(k: nat): nat
    requires 0 < k
  {
    (k - 1) / 2
  }

  /** Slot `k` is not smaller than slot `p`. */
  ghost predicate Above<T(!new)>(h: seq<T>, less: (T, T) -> bool, p: nat, k: nat)
    requires p < |h| && k < |h|
  {
    !less(h[k], h[p])
  }

  /** Every slot below `n` whose parent is at least `lo` respects its parent. */
  ghost predicate OrderedFrom<T(!new)>(h: seq<T>, less: (T, T) -> bool, lo: nat, n: nat)
    requires n <= |h|
  {
    forall k :: 0 < k < n && lo <= Parent(k) ==> Above(h, less, Parent(k), k)
  }

  ghost predicate IsHeap<T(!new)>(h: seq<T>, less: (T, T) -> bool) {
    OrderedFrom(h, less, 0, |h|)
  }

  /** The heap order but for slot `i`, whose children still respect the parent of `i`. */
  ghost predicate OrderedBut<T(!new)>(h: seq<T>, less: (T, T) -> bool, lo: nat, n: nat, i: nat)
    requires n <= |h|
  {
    && (forall k :: 0 < k < n && lo <= Parent(k) && k != i && Parent(k) != i ==> Above(h, less, Parent(k), k))
    && (forall k :: 0 < k < n && Parent(k) == i && 0 < i && lo <= Parent(i) ==> Above(h, less, Parent(i), k))
  }

  /** The slots directly below `i` respect it. */
  ghost predicate ChildrenAbove<T(!new)>(h: seq<T>, less: (T, T) -> bool, n: nat, i: nat)
    requires n <= |h|
  {
    forall k :: 0 < k < n && Parent(k) == i ==> Above(h, less, i, k)
  }

  /** The root of a heap is a least element. */
  lemma {:induction false} RootIsLeast<T(!new)>(h: seq<T>, less: (T, T) -> bool, k: nat)
    requires StrictWeak(less) && IsHeap(h, less) && k < |h|
    ensures !less(h[k], h[0])
  {
    if k > 0 {
      RootIsLeast(h, less, Parent(k));
      assert Above(h, less, Parent(k), k);
    }
  }

  function Swap<T>(h: seq<T>, i: nat, j: nat): (r: seq<T>)
    requires i < |h| && j < |h|
    ensures |r| == |h| && multiset(r) == multiset(h)
    ensures r[i] == h[j] && r[j] == h[i]
    ensures forall k :: 0 <= k < |h| && k != i && k != j ==> r[k] == h[k]
  {
    h[i := h[j]][j := h[i]]
  }

  /** `heap.up`: sift slot `j0` towards the root. */
  method Up<T(!new)>(h0: seq<T>, less: (T, T) -> bool, j0: nat) returns (h: seq<T>)
    requires StrictWeak(less) && j0 < |h0|
    requires OrderedBut(h0, less, 0, |h0|, j0) && ChildrenAbove(h0, less, |h0|, j0)
    ensures IsHeap(h, less) && |h| == |h0| && multiset(h) == multiset(h0)
  {
    h := h0;
    var j := j0;
    while j > 0 && less(h[j], h[Parent(j)])
      invariant |h| == |h0| && 0 <= j < |h| && multiset(h) == multiset(h0)
      invariant OrderedBut(h, less, 0, |h|, j) && ChildrenAbove(h, less, |h|, j)
    {
      var i := Parent(j);
      ghost var g := h;
      h := Swap(h, i, j);
      UpStep(g, h, less, j);
      j := i;
    }
    forall k | 0 < k < |h| ensures Above(h, less, Parent(k), k) {
      if k == j { } else if Parent(k) == j { } else { }
    }
  }

  lemma UpStep<T(!new)>(g: seq<T>, h: seq<T>, less: (T, T) -> bool, j: nat)
    requires StrictWeak(less) && 0 < j < |g| && h == Swap(g, Parent(j), j)
    requires OrderedBut(g, less, 0, |g|, j) && ChildrenAbove(g, less, |g|, j)
    requires less(g[j], g[Parent(j)])
    ensures OrderedBut(h, less, 0, |h|, Parent(j)) && ChildrenAbove(h, less, |h|, Parent(j))
  {
  }

  /** The smaller of the children of slot `i`. */
  function SmallerChild<T(!new)>(h: seq<T>, less: (T, T) -> bool, n: nat, i: nat): (j: nat)
    requires StrictWeak(less) && 2 * i + 1 < n <= |h|
    ensures 0 < j < n && Parent(j) == i
    ensures forall k :: 0 < k < n && Parent(k) == i ==> Above(h, less, j, k)
  {
    if 2 * i + 2 < n && less(h[2 * i + 2], h[2 * i + 1]) then 2 * i + 2 else 2 * i + 1
  }

  /** `heap.down`: sift slot `i0` away from the root, among the first `n` slots. */
  method Down<T(!new)>(h0: seq<T>, less: (T, T) -> bool, lo: nat, i0: nat, n: nat)
    returns (h: seq<T>, moved: bool)
    requires StrictWeak(less) && lo <= i0 && n <= |h0|
    requires OrderedBut(h0, less, lo, n, i0)
    ensures |h| == |h0| && multiset(h) == multiset(h0) && h[n..] == h0[n..]
    ensures moved ==> OrderedFrom(h, less, lo, n)
    ensures !moved ==> h == h0 && ChildrenAbove(h, less, n, i0)
  {
    h := h0;
    var i := i0;
    while 2 * i + 1 < n && less(h[SmallerChild(h, less, n, i)], h[i])
      invariant i0 <= i && |h| == |h0| && multiset(h) == multiset(h0) && h[n..] == h0[n..]
      invariant i == i0 ==> h == h0
      invariant OrderedBut(h, less, lo, n, i)
      invariant i0 < i ==> i < n && Above(h, less, Parent(i), i)
      decreases n - i
    {
      var j := SmallerChild(h, less, n, i);
      var g := h;
      h := Swap(g, i, j);
      SwapKeepsTail(g, i, j, n);
      DownStep(g, h, less, lo, n, i, j);
      i := j;
    }
    moved := i > i0;
    DownDone(h, less, lo, n, i);
  }

  lemma SwapKeepsTail<T>(g: seq<T>, i: nat, j: nat, n: nat)
    requires i < n && j < n <= |g|
    ensures Swap(g, i, j)[n..] == g[n..]
  {
  }

  lemma DownDone<T(!new)>(h: seq<T>, less: (T, T) -> bool, lo: nat, n: nat, i: nat)
    requires StrictWeak(less) && lo <= i && n <= |h| && OrderedBut(h, less, lo, n, i)
    requires 2 * i + 1 < n ==> !less(h[SmallerChild(h, less, n, i)], h[i])
    ensures ChildrenAbove(h, less, n, i)
    ensures 0 < i < n && Above(h, less, Parent(i), i) ==> OrderedFrom(h, less, lo, n)
  {
  }

  lemma DownStep<T(!new)>(g: seq<T>, h: seq<T>, less: (T, T) -> bool, lo: nat, n: nat, i: nat, j: nat)
    requires StrictWeak(less) && n <= |g| && lo <= i && i < n && 0 < j < n && Parent(j) == i
    requires h == Swap(g, i, j) && OrderedBut(g, less, lo, n, i)
    requires less(g[j], g[i])
    requires forall k :: 0 < k < n && Parent(k) == i ==> Above(g, less, j, k)
    ensures OrderedBut(h, less, lo, n, j) && Above(h, less, i, j)
  {
  }

  /** `heap.Init`: order an arbitrary sequence. */
  method Init<T(!new)>(h0: seq<T>, less: (T, T) -> bool) returns (h: seq<T>)
    requires StrictWeak(less)
    ensures IsHeap(h, less) && |h| == |h0| && multiset(h) == multiset(h0)
  {
    h := h0;
    var i := |h| / 2;
    while i > 0
      invariant 0 <= i <= |h| / 2 && |h| == |h0| && multiset(h) == multiset(h0)
      invariant OrderedFrom(h, less, i, |h|)
    {
      i := i - 1;
      ghost var g := h;
      var moved;
      h, moved := Down(h, less, i, i, |h|);
      if !moved {
        forall k | 0 < k < |h| && i <= Parent(k) ensures Above(h, less, Parent(k), k) {
          if Parent(k) == i { } else { }
        }
      }
    }
  }

  /** `heap.Push`. */
  method Push<T(!new)>(h0: seq<T>, less: (T, T) -> bool, x: T) returns (h: seq<T>)
    requires StrictWeak(less) && IsHeap(h0, less)
    ensures IsHeap(h, less) && |h| == |h0| + 1 && multiset(h) == multiset(h0) + multiset{x}
  {
    var g := h0 + [x];
    forall k | 0 < k < |g| && k != |h0| && Parent(k) != |h0| ensures Above(g, less, Parent(k), k) {
      assert Above(h0, less, Parent(k), k);
    }
    h := Up(g, less, |h0|);
  }

  lemma LeastOfAll<T(!new)>(h: seq<T>, less: (T, T) -> bool)
    requires StrictWeak(less) && IsHeap(h, less) && |h| > 0
    ensures forall y :: y in h ==> !less(y, h[0])
  {
    forall k | 0 <= k < |h| ensures !less(h[k], h[0]) {
      RootIsLeast(h, less, k);
    }
  }

  /** Dropping the last slot, as the `Pop` of the heap interface does. */
  function CutLast<T>(f: seq<T>): (h: seq<T>)
    requires |f| > 0
    ensures |h| == |f| - 1 && multiset(f) == multiset(h) + multiset{f[|f| - 1]}
    ensures forall k :: 0 <= k < |h| ==> h[k] == f[k]
  {
    assert f == f[..|f| - 1] + [f[|f| - 1]];
    f[..|f| - 1]
  }

  lemma CutLastOrdered<T(!new)>(f: seq<T>, less: (T, T) -> bool)
    requires |f| > 0 && OrderedFrom(f, less, 0, |f| - 1)
    ensures IsHeap(CutLast(f), less)
  {
  }

  lemma CutLastOrderedBut<T(!new)>(f: seq<T>, less: (T, T) -> bool, i: nat)
    requires |f| > 0 && OrderedBut(f, less, 0, |f| - 1, i) && ChildrenAbove(f, less, |f| - 1, i)
    ensures OrderedBut(CutLast(f), less, 0, |f| - 1, i) && ChildrenAbove(CutLast(f), less, |f| - 1, i)
  {
  }

  /** Moving the last slot into slot `i` leaves the order broken at `i` only. */
  lemma SwapLast<T(!new)>(h: seq<T>, less: (T, T) -> bool, i: nat)
    requires StrictWeak(less) && IsHeap(h, less) && i < |h|
    ensures OrderedBut(Swap(h, i, |h| - 1), less, 0, |h| - 1, i)
  {
  }

  /** `heap.Pop`: remove a least element. */
  method Pop<T(!new)>(h0: seq<T>, less: (T, T) -> bool) returns (h: seq<T>, x: T)
    requires StrictWeak(less) && IsHeap(h0, less) && |h0| > 0
    ensures IsHeap(h, less) && |h| == |h0| - 1 && x == h0[0]
    ensures multiset(h0) == multiset(h) + multiset{x}
    ensures forall y :: y in h0 ==> !less(y, x)
  {
    hide *;
    LeastOfAll(h0, less);
    h, x := Remove(h0, less, 0);
  }

  /** `heap.Remove`: remove the element in slot `i`. */
  method Remove<T(!new)>(h0: seq<T>, less: (T, T) -> bool, i: nat) returns (h: seq<T>, x: T)
    requires StrictWeak(less) && IsHeap(h0, less) && i < |h0|
    ensures IsHeap(h, less) && |h| == |h0| - 1 && x == h0[i]
    ensures multiset(h0) == multiset(h) + multiset{x}
  {
    hide *;
    var n := |h0| - 1;
    SwapLast(h0, less, i);
    var g := Swap(h0, i, n);
    var f, moved := Down(g, less, 0, i, n);
    assert f[n] == f[n..][0] == g[n..][0];
    x := f[n];
    h := CutLast(f);
    if !moved && i != n {
      CutLastOrderedBut(f, less, i);
      h := Up(h, less, i);
    } else {
      if !moved {
        BrokenAtEnd(f, less, n);
      }
      CutLastOrdered(f, less);
    }
  }

  lemma BrokenAtEnd<T(!new)>(f: seq<T>, less: (T, T) -> bool, n: nat)
    requires n < |f| && OrderedBut(f, less, 0, n, n)
    ensures OrderedFrom(f, less, 0, n)
  {
  }
}
