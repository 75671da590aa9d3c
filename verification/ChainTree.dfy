/**
 A parent-closed tree of blocks with one genesis. The path of a block is the list of its
 ancestors from genesis on; every chain structure is specified by paths.
 */
module ChainTree {
  import opened Sequences
  import opened Transactions

  type Hash = nat

  datatype Block = Block(parent: Hash, number: nat, difficulty: nat, txs: seq<Tx>)

  type Tree = map<Hash, Block>

  ghost predicate WellFormed(t: Tree, g: Hash) {
    && g in t && t[g].number == 0
    && forall h {:trigger Linked(t, h)} :: h in t && h != g ==> Linked(t, h)
  }

  /** The parent of `h` is known and one below it. */
  ghost predicate Linked(t: Tree, h: Hash)
    requires h in t
  {
    t[h].parent in t && t[h].number == t[t[h].parent].number + 1
  }

  lemma ParentOf(t: Tree, g: Hash, h: Hash)
    requires WellFormed(t, g) && h in t && (h != g || t[h].number > 0)
    ensures t[h].parent in t && t[h].number == t[t[h].parent].number + 1
  {
    assert Linked(t, h);
  }

  /** The ancestors of `h`, genesis first. */
  ghost function Path(t: Tree, g: Hash, h: Hash): (p: seq<Hash>)
    requires WellFormed(t, g) && h in t
    ensures |p| == t[h].number + 1 && p[0] == g && p[t[h].number] == h
    decreases t[h].number
  {
    if h == g then [g] else
      assert Linked(t, h);
      Path(t, g, t[h].parent) + [h]
  }

  lemma {:induction false} PathIn(t: Tree, g: Hash, h: Hash, i: nat)
    requires WellFormed(t, g) && h in t && i <= t[h].number
    ensures Path(t, g, h)[i] in t && t[Path(t, g, h)[i]].number == i
    decreases t[h].number
  {
    if h != g && i < t[h].number {
      assert Linked(t, h);
      PathIn(t, g, t[h].parent, i);
    }
  }

  /** A prefix of a path is the path of its last block. */
  lemma {:induction false} PathPrefix(t: Tree, g: Hash, h: Hash, i: nat)
    requires WellFormed(t, g) && h in t && i <= t[h].number
    ensures Path(t, g, h)[i] in t && Path(t, g, Path(t, g, h)[i]) == Path(t, g, h)[..i + 1]
    decreases t[h].number
  {
    var p := Path(t, g, h);
    if i == t[h].number {
      assert p[..i + 1] == p;
    } else {
      assert Linked(t, h);
      PathPrefix(t, g, t[h].parent, i);
      assert Path(t, g, t[h].parent)[..i + 1] == p[..i + 1];
    }
  }

  /** The parent of the block at height `i` of a path is the block below it. */
  lemma PathParent(t: Tree, g: Hash, h: Hash, i: nat)
    requires WellFormed(t, g) && h in t && 0 < i <= t[h].number
    ensures Path(t, g, h)[i] in t && t[Path(t, g, h)[i]].parent == Path(t, g, h)[i - 1]
  {
    var x := Path(t, g, h)[i];
    PathIn(t, g, h, i);
    PathPrefix(t, g, h, i);
    var q := Path(t, g, x);
    assert q[i - 1] == Path(t, g, h)[..i + 1][i - 1];
  }

  /** Adding blocks does not change the paths of the old ones. */
  lemma {:induction false} PathGrows(t: Tree, t': Tree, g: Hash, h: Hash)
    requires WellFormed(t, g) && WellFormed(t', g) && h in t
    requires forall x :: x in t ==> x in t' && t'[x] == t[x]
    ensures Path(t', g, h) == Path(t, g, h)
    decreases t[h].number
  {
    if h != g {
      assert Linked(t, h) && Linked(t', h);
      PathGrows(t, t', g, t[h].parent);
    }
  }

  lemma Grown(t: Tree, g: Hash, h: Hash, b: Block)
    requires WellFormed(t, g) && b.parent in t && b.number == t[b.parent].number + 1 && (h in t ==> t[h] == b)
    ensures WellFormed(t[h := b], g) && forall x :: x in t ==> t[h := b][x] == t[x]
  {
    var t' := t[h := b];
    forall x | x in t' && x != g ensures Linked(t', x) {
      if x in t {
        assert Linked(t, x);
      }
    }
  }

  /** A number index is right up to the end of the path. */
  ghost predicate Covers(canon: map<nat, Hash>, p: seq<Hash>) {
    forall i :: 0 <= i < |p| ==> i in canon && canon[i] == p[i]
  }

  // ----- common ancestors -----

  /** `k` is the length of the longest common prefix. */
  ghost predicate Common(p: seq<Hash>, q: seq<Hash>, k: nat) {
    && k <= |p| && k <= |q| && (forall i :: 0 <= i < k ==> p[i] == q[i])
    && (k < |p| && k < |q| ==> p[k] != q[k])
  }

  /** Paths that meet at a height stay together below it. */
  lemma MeetBelow(t: Tree, g: Hash, x: Hash, y: Hash, i: nat)
    requires WellFormed(t, g) && x in t && y in t && i <= t[x].number && i <= t[y].number
    requires Path(t, g, x)[i] == Path(t, g, y)[i]
    ensures forall m :: 0 <= m <= i ==> Path(t, g, x)[m] == Path(t, g, y)[m]
  {
    PathPrefix(t, g, x, i);
    PathPrefix(t, g, y, i);
    forall m | 0 <= m <= i ensures Path(t, g, x)[m] == Path(t, g, y)[m] {
      assert Path(t, g, x)[m] == Path(t, g, x)[..i + 1][m];
    }
  }

  /** The blocks of a path from `h` down to height `k`, highest first. */
  ghost function Down(p: seq<Hash>, k: nat): (s: seq<Hash>)
    requires k <= |p|
    ensures |s| == |p| - k && forall i :: 0 <= i < |s| ==> s[i] == p[|p| - 1 - i]
  {
    seq(|p| - k, i requires 0 <= i < |p| - k => p[|p| - 1 - i])
  }

  lemma DownStep(p: seq<Hash>, k: nat)
    requires 0 < k <= |p|
    ensures Down(p, k - 1) == Down(p, k) + [p[k - 1]]
  {
  }

  /** The result of looking for the common ancestor of two heads: it and both branches, highest first. */
  ghost predicate Fork(t: Tree, g: Hash, x: Hash, y: Hash, common: Hash, xs: seq<Hash>, ys: seq<Hash>)
    requires WellFormed(t, g) && x in t && y in t
  {
    exists k :: 0 < k && Common(Path(t, g, x), Path(t, g, y), k) && common == Path(t, g, x)[k - 1]
                && xs == Down(Path(t, g, x), k) && ys == Down(Path(t, g, y), k)
  }

  /**
   Both walks stand on their paths, having collected what lies above them. They either still
   have to reach the same height, or have not met above where they are.
   */
  ghost predicate Walking(t: Tree, g: Hash, x: Hash, y: Hash, a: Hash, b: Hash, xs: seq<Hash>, ys: seq<Hash>)
    requires WellFormed(t, g) && x in t && y in t
  {
    && a in t && b in t && t[a].number <= t[x].number && t[b].number <= t[y].number
    && Path(t, g, x)[t[a].number] == a && Path(t, g, y)[t[b].number] == b
    && xs == Down(Path(t, g, x), t[a].number + 1) && ys == Down(Path(t, g, y), t[b].number + 1)
    && (t[a].number > t[b].number ==> b == y) && (t[b].number > t[a].number ==> a == x)
    && (t[a].number == t[b].number && a != x && b != y ==>
          Path(t, g, x)[t[a].number + 1] != Path(t, g, y)[t[a].number + 1])
  }

  lemma WalkStart(t: Tree, g: Hash, x: Hash, y: Hash)
    requires WellFormed(t, g) && x in t && y in t
    ensures Walking(t, g, x, y, x, y, [], [])
  {
  }

  /** What one step down from `a` yields. */
  lemma StepDown(t: Tree, g: Hash, x: Hash, a: Hash)
    requires WellFormed(t, g) && x in t && a in t && 0 < t[a].number <= t[x].number && Path(t, g, x)[t[a].number] == a
    ensures t[a].parent in t && t[t[a].parent].number == t[a].number - 1
    ensures Path(t, g, x)[t[a].number - 1] == t[a].parent
    ensures Down(Path(t, g, x), t[a].number) == Down(Path(t, g, x), t[a].number + 1) + [a]
  {
    PathParent(t, g, x, t[a].number);
    PathIn(t, g, x, t[a].number - 1);
    DownStep(Path(t, g, x), t[a].number + 1);
  }

  lemma WalkLeft(t: Tree, g: Hash, x: Hash, y: Hash, a: Hash, b: Hash, xs: seq<Hash>, ys: seq<Hash>)
    requires WellFormed(t, g) && x in t && y in t && Walking(t, g, x, y, a, b, xs, ys) && t[a].number > t[b].number
    ensures t[a].parent in t && t[t[a].parent].number == t[a].number - 1
    ensures Walking(t, g, x, y, t[a].parent, b, xs + [a], ys)
  {
    hide Path, Down;
    StepDown(t, g, x, a);
  }

  lemma WalkRight(t: Tree, g: Hash, x: Hash, y: Hash, a: Hash, b: Hash, xs: seq<Hash>, ys: seq<Hash>)
    requires WellFormed(t, g) && x in t && y in t && Walking(t, g, x, y, a, b, xs, ys) && t[b].number > t[a].number
    ensures t[b].parent in t && t[t[b].parent].number == t[b].number - 1
    ensures Walking(t, g, x, y, a, t[b].parent, xs, ys + [b])
  {
    hide Path, Down;
    StepDown(t, g, y, b);
  }

  lemma WalkBoth(t: Tree, g: Hash, x: Hash, y: Hash, a: Hash, b: Hash, xs: seq<Hash>, ys: seq<Hash>)
    requires WellFormed(t, g) && x in t && y in t && Walking(t, g, x, y, a, b, xs, ys)
    requires t[a].number == t[b].number && a != b
    ensures t[a].number > 0
    ensures t[a].parent in t && t[t[a].parent].number == t[a].number - 1
    ensures t[b].parent in t && t[t[b].parent].number == t[b].number - 1
    ensures Walking(t, g, x, y, t[a].parent, t[b].parent, xs + [a], ys + [b])
  {
    hide Path, Down;
    assert t[a].number > 0;
    StepDown(t, g, x, a);
    StepDown(t, g, y, b);
  }

  lemma WalkDone(t: Tree, g: Hash, x: Hash, y: Hash, a: Hash, xs: seq<Hash>, ys: seq<Hash>)
    requires WellFormed(t, g) && x in t && y in t && Walking(t, g, x, y, a, a, xs, ys)
    ensures Fork(t, g, x, y, a, xs, ys)
  {
    hide Path, Down;
    var p, q, k := Path(t, g, x), Path(t, g, y), t[a].number + 1;
    MeetBelow(t, g, x, y, t[a].number);
    assert Common(p, q, k);
  }

  /** The fork of two heads is unique. */
  lemma ForkUnique(t: Tree, g: Hash, x: Hash, y: Hash, c: Hash, xs: seq<Hash>, ys: seq<Hash>, c': Hash, xs': seq<Hash>,
                   ys': seq<Hash>)
    requires WellFormed(t, g) && x in t && y in t && Fork(t, g, x, y, c, xs, ys) && Fork(t, g, x, y, c', xs', ys')
    ensures c == c' && xs == xs' && ys == ys'
  {
  }

  /** The height at which a fork splits. */
  lemma ForkAt(t: Tree, g: Hash, x: Hash, y: Hash, c: Hash, xs: seq<Hash>, ys: seq<Hash>) returns (k: nat)
    requires WellFormed(t, g) && x in t && y in t && Fork(t, g, x, y, c, xs, ys)
    ensures Common(Path(t, g, x), Path(t, g, y), k) && xs == Down(Path(t, g, x), k) && ys == Down(Path(t, g, y), k)
    ensures 0 < k && c == Path(t, g, x)[k - 1] == Path(t, g, y)[k - 1]
  {
    k :| 0 < k && Common(Path(t, g, x), Path(t, g, y), k) && c == Path(t, g, x)[k - 1]
         && xs == Down(Path(t, g, x), k) && ys == Down(Path(t, g, y), k);
  }

  lemma UpDown(p: seq<Hash>, k: nat)
    requires k <= |p|
    ensures p == p[..k] + Reversed(Down(p, k))
  {
  }

  /** A fork splits both paths at the common ancestor. */
  lemma ForkSplits(t: Tree, g: Hash, x: Hash, y: Hash, c: Hash, xs: seq<Hash>, ys: seq<Hash>)
    requires WellFormed(t, g) && x in t && y in t && Fork(t, g, x, y, c, xs, ys)
    ensures c in t && Path(t, g, x) == Path(t, g, c) + Reversed(xs) && Path(t, g, y) == Path(t, g, c) + Reversed(ys)
    ensures xs != [] && ys != [] ==> xs[|xs| - 1] != ys[|ys| - 1]
  {
    hide Path, Fork, Down;
    var k := ForkAt(t, g, x, y, c, xs, ys);
    PathPrefix(t, g, x, k - 1);
    PathPrefix(t, g, y, k - 1);
    UpDown(Path(t, g, x), k);
    UpDown(Path(t, g, y), k);
  }

  /** The common ancestor is the lowest one: every block on both paths is one of its ancestors. */
  lemma ForkIsLowest(t: Tree, g: Hash, x: Hash, y: Hash, c: Hash, xs: seq<Hash>, ys: seq<Hash>, i: nat, j: nat)
    requires WellFormed(t, g) && x in t && y in t && Fork(t, g, x, y, c, xs, ys)
    requires i <= t[x].number && j <= t[y].number && Path(t, g, x)[i] == Path(t, g, y)[j]
    ensures i == j && c in t && i <= t[c].number && Path(t, g, c)[i] == Path(t, g, x)[i]
  {
    hide Path, Fork, Down, WellFormed;
    var k := ForkAt(t, g, x, y, c, xs, ys);
    PathIn(t, g, x, i);
    PathIn(t, g, y, j);
    MeetBelow(t, g, x, y, i);
    PathPrefix(t, g, x, k - 1);
    PathIn(t, g, x, k - 1);
    assert i < k;
  }
}
