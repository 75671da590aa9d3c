/** Go's `sort.Sort` as its callers here use it: some sorted permutation. */
module Sorting {
  import opened Heap

  ghost predicate SortedBy<T(!new)>(s: seq<T>, less: (T, T) -> bool) {
    forall i, j :: 0 <= i < j < |s| ==> !less(s[j], s[i])
  }

  method Sort<T(!new)>(s: seq<T>, less: (T, T) -> bool) returns (r: seq<T>)
    requires StrictWeak(less)
    ensures SortedBy(r, less) && multiset(r) == multiset(s) && |r| == |s|
  {
    r := [];
    for i := 0 to |s|
      invariant SortedBy(r, less) && |r| == i && multiset(r) == multiset(s[..i])
    {
      assert s[..i + 1] == s[..i] + [s[i]];
      r := Insert(r, less, s[i]);
    }
    assert s[..|s|] == s;
  }

  method Insert<T(!new)>(s: seq<T>, less: (T, T) -> bool, x: T) returns (r: seq<T>)
    requires StrictWeak(less) && SortedBy(s, less)
    ensures SortedBy(r, less) && multiset(r) == multiset(s) + multiset{x} && |r| == |s| + 1
  {
    var j := |s|;
    while j > 0 && less(x, s[j - 1])
      invariant 0 <= j <= |s|
      invariant forall k :: j <= k < |s| ==> less(x, s[k])
      decreases j
    {
      j := j - 1;
    }
    InsertedSorted(s, less, x, j);
    assert s == s[..j] + s[j..];
    r := s[..j] + [x] + s[j..];
  }

  lemma InsertedSorted<T(!new)>(s: seq<T>, less: (T, T) -> bool, x: T, j: nat)
    requires StrictWeak(less) && SortedBy(s, less) && j <= |s|
    requires forall k :: j <= k < |s| ==> less(x, s[k])
    requires j > 0 ==> !less(x, s[j - 1])
    ensures SortedBy(s[..j] + [x] + s[j..], less)
  {
  }
}
