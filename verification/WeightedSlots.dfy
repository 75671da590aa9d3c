/**
 The flat view of the weighted selection tree of les/randselect.go: one slot per index the tree
 can issue, in index order.
 */
module WeightedSlots {
  import opened Numbers

  datatype Slot = Free | Taken(item: nat, weight: nat)

  function WeightOf(s: Slot): nat {
    if s.Free? then 0 else s.weight
  }

  ghost function Weight(s: seq<Slot>): nat {
    if s == [] then 0 else Weight(s[..|s| - 1]) + WeightOf(s[|s| - 1])
  }

  ghost function Count(s: seq<Slot>): nat {
    if s == [] then 0 else Count(s[..|s| - 1]) + if s[|s| - 1].Free? then 0 else 1
  }

  /** A taken slot has a positive weight. */
  ghost predicate Positive(s: seq<Slot>) {
    forall i :: 0 <= i < |s| && s[i].Taken? ==> s[i].weight > 0
  }

  ghost function Blank(n: nat): (s: seq<Slot>)
    ensures |s| == n && forall i :: 0 <= i < n ==> s[i] == Free
  {
    seq(n, i => Free)
  }

  lemma {:induction false} BlankTotals(s: seq<Slot>)
    requires forall i :: 0 <= i < |s| ==> s[i] == Free
    ensures Weight(s) == 0 && Count(s) == 0
  {
    if s != [] {
      BlankTotals(s[..|s| - 1]);
    }
  }

  lemma {:induction false} Totals(a: seq<Slot>, b: seq<Slot>)
    ensures Weight(a + b) == Weight(a) + Weight(b) && Count(a + b) == Count(a) + Count(b)
  {
    if b == [] {
      assert a + b == a;
    } else {
      assert (a + b)[..|a + b| - 1] == a + b[..|b| - 1];
      Totals(a, b[..|b| - 1]);
    }
  }

  lemma {:induction false} CountBound(s: seq<Slot>)
    ensures Count(s) <= |s| && (Count(s) == |s| <==> forall i :: 0 <= i < |s| ==> s[i].Taken?)
  {
    if s != [] {
      CountBound(s[..|s| - 1]);
      assert forall i :: 0 <= i < |s| - 1 ==> s[i] == s[..|s| - 1][i];
    }
  }

  lemma TotalsUpdate(s: seq<Slot>, i: nat, v: Slot)
    requires i < |s|
    ensures Weight(s[i := v]) == Weight(s) - WeightOf(s[i]) + WeightOf(v)
    ensures Count(s[i := v]) == Count(s) - (if s[i].Free? then 0 else 1) + if v.Free? then 0 else 1
  {
    var a, b := s[..i], s[i + 1..];
    assert s == a + [s[i]] + b && s[i := v] == a + [v] + b;
    Totals(a + [s[i]], b);
    Totals(a + [v], b);
    Totals(a, [s[i]]);
    Totals(a, [v]);
  }

  // ----- selection -----

  /** The value `val` falls on slot `i`. */
  ghost predicate Selects(s: seq<Slot>, val: int, i: int) {
    0 <= i < |s| && Weight(s[..i]) <= val < Weight(s[..i]) + WeightOf(s[i])
  }

  lemma {:induction false} Monotone(s: seq<Slot>, i: nat, j: nat)
    requires i < j <= |s|
    ensures Weight(s[..i]) + WeightOf(s[i]) <= Weight(s[..j])
  {
    assert s[..j][..j - 1] == s[..j - 1];
    if i < j - 1 {
      Monotone(s, i, j - 1);
    }
  }

  lemma SelectsOne(s: seq<Slot>, val: int, i: nat, j: nat)
    requires Selects(s, val, i) && Selects(s, val, j)
    ensures i == j
  {
    if i < j {
      Monotone(s, i, j);
    } else if j < i {
      Monotone(s, j, i);
    }
  }

  /** Of the values below the total weight, exactly as many fall on a slot as it weighs. */
  lemma SelectionCount(s: seq<Slot>, i: nat)
    requires i < |s|
    ensures |set val | 0 <= val < Weight(s) && Selects(s, val, i)| == WeightOf(s[i])
  {
    Monotone(s, i, |s|);
    assert s[..|s|] == s;
    var vals := set val | 0 <= val < Weight(s) && Selects(s, val, i);
    assert vals == Range(Weight(s[..i]), WeightOf(s[i]));
  }

  // ----- eight parts of equal size -----

  ghost function Join(parts: seq<seq<Slot>>): seq<Slot> {
    if parts == [] then [] else Join(parts[..|parts| - 1]) + parts[|parts| - 1]
  }

  ghost predicate Even(parts: seq<seq<Slot>>, sub: nat) {
    forall i :: 0 <= i < |parts| ==> |parts[i]| == sub
  }

  lemma {:induction false} JoinLength(parts: seq<seq<Slot>>, sub: nat)
    requires Even(parts, sub)
    ensures |Join(parts)| == |parts| * sub
  {
    if parts != [] {
      JoinLength(parts[..|parts| - 1], sub);
      assert |parts| * sub == (|parts| - 1) * sub + sub;
    }
  }

  /** Where a part lies, and what lies before it. */
  lemma {:induction false} JoinSplit(parts: seq<seq<Slot>>, sub: nat, b: nat)
    requires Even(parts, sub) && b < |parts|
    ensures b * sub + sub <= |Join(parts)|
    ensures Join(parts)[..b * sub] == Join(parts[..b]) && Join(parts)[b * sub..b * sub + sub] == parts[b]
  {
    var n := |parts| - 1;
    JoinLength(parts[..n], sub);
    assert (n + 1) * sub == n * sub + sub;
    if b == n {
    } else {
      JoinSplit(parts[..n], sub, b);
      assert parts[..n][..b] == parts[..b];
      JoinLength(parts[..b], sub);
      assert b * sub + sub <= n * sub by {
        assert n * sub == (b + 1) * sub + (n - b - 1) * sub;
      }
      JoinPrefix(parts, n, b * sub);
      JoinPrefix(parts, n, b * sub + sub);
    }
  }

  lemma JoinPrefix(parts: seq<seq<Slot>>, n: nat, m: nat)
    requires n == |parts| - 1 && m <= |Join(parts[..n])|
    ensures m <= |Join(parts)| && Join(parts)[..m] == Join(parts[..n])[..m]
  {
  }

  /** The slot at offset `j` of part `b`. */
  lemma JoinAt(parts: seq<seq<Slot>>, sub: nat, b: nat, j: nat)
    requires Even(parts, sub) && b < |parts| && j < sub
    ensures b * sub + j < |Join(parts)| && Join(parts)[b * sub + j] == parts[b][j]
    ensures Weight(Join(parts)[..b * sub + j]) == Weight(Join(parts[..b])) + Weight(parts[b][..j])
  {
    JoinSplit(parts, sub, b);
    var s := Join(parts);
    assert s[b * sub + j] == s[b * sub..b * sub + sub][j];
    assert s[..b * sub + j] == s[..b * sub] + s[b * sub..b * sub + sub][..j];
    Totals(s[..b * sub], parts[b][..j]);
  }

  lemma {:induction false} JoinUpdate(parts: seq<seq<Slot>>, sub: nat, b: nat, j: nat, v: Slot)
    requires Even(parts, sub) && b < |parts| && j < sub
    ensures b * sub + j < |Join(parts)| && Join(parts[b := parts[b][j := v]]) == Join(parts)[b * sub + j := v]
  {
    var n, part := |parts| - 1, parts[b][j := v];
    var a, last, k := Join(parts[..n]), parts[n], b * sub + j;
    var parts' := parts[b := part];
    if b == n {
      JoinLength(parts[..n], sub);
      assert parts'[..n] == parts[..n];
      assert a + last[j := v] == (a + last)[k := v];
    } else {
      JoinUpdate(parts[..n], sub, b, j, v);
      assert parts'[..n] == parts[..n][b := part];
      assert a[k := v] + last == (a + last)[k := v];
    }
  }
}
