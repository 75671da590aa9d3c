/** core/headerchain.go: total difficulty, the canonical number index and fast ancestor queries. */
module HeaderChains {
  import opened Numbers
  import opened Transactions
  import opened ChainTree

  /** The sum of the difficulties along the path of `h`. */
  ghost function TotalDifficulty(t: Tree, g: Hash, h: Hash): nat
    requires WellFormed(t, g) && h in t
    decreases t[h].number
  {
    if h == g then t[g].difficulty
    else
      assert Linked(t, h);
      TotalDifficulty(t, g, t[h].parent) + t[h].difficulty
  }

  lemma {:induction false} DifficultyGrows(t: Tree, t': Tree, g: Hash, h: Hash)
    requires WellFormed(t, g) && WellFormed(t', g) && h in t
    requires forall x :: x in t ==> x in t' && t'[x] == t[x]
    ensures TotalDifficulty(t', g, h) == TotalDifficulty(t, g, h)
    decreases t[h].number
  {
    if h != g {
      assert Linked(t, h) && Linked(t', h);
      DifficultyGrows(t, t', g, t[h].parent);
    }
  }

  /** The index assigns to every height of the path its block, and nothing else. */
  ghost predicate IndexOf(canon: map<nat, Hash>, p: seq<Hash>) {
    forall i :: (i in canon <==> 0 <= i < |p|) && (0 <= i < |p| ==> canon[i] == p[i])
  }

  /** The stored difficulties are the sums along the paths. */
  ghost predicate Stored(t: Tree, g: Hash, tds: map<Hash, nat>)
    requires WellFormed(t, g)
  {
    forall h :: (h in tds <==> h in t) && (h in t ==> tds[h] == TotalDifficulty(t, g, h))
  }

  ghost predicate Heaviest(tds: map<Hash, nat>, head: Hash) {
    head in tds && forall h :: h in tds ==> tds[h] <= tds[head]
  }

  datatype Status = NonStat | Canon | Side

  lemma StoreOne(t: Tree, g: Hash, tds: map<Hash, nat>, h: Hash, b: Block)
    requires WellFormed(t, g) && Stored(t, g, tds)
    requires b.parent in t && b.number == t[b.parent].number + 1 && (h in t ==> t[h] == b)
    ensures WellFormed(t[h := b], g) && Stored(t[h := b], g, tds[h := tds[b.parent] + b.difficulty])
    ensures forall x :: x in t ==> Path(t[h := b], g, x) == Path(t, g, x)
    ensures h in tds ==> tds[h] == tds[b.parent] + b.difficulty
  {
    hide Path, TotalDifficulty;
    Grown(t, g, h, b);
    var t' := t[h := b];
    forall x | x in t ensures TotalDifficulty(t', g, x) == TotalDifficulty(t, g, x) && Path(t', g, x) == Path(t, g, x) {
      DifficultyGrows(t, t', g, x);
      PathGrows(t, t', g, x);
    }
    DifficultyStep(t', g, h);
  }

  lemma StoredKeys(t: Tree, g: Hash, tds: map<Hash, nat>)
    requires WellFormed(t, g) && Stored(t, g, tds)
    ensures t.Keys == tds.Keys
  {
  }

  lemma DifficultyStep(t: Tree, g: Hash, h: Hash)
    requires WellFormed(t, g) && h in t && t[h].number > 0
    ensures t[h].parent in t
    ensures TotalDifficulty(t, g, h) == TotalDifficulty(t, g, t[h].parent) + t[h].difficulty
  {
    assert Linked(t, h);
  }

  /** The sums and the index of a path, block by block. */
  lemma PlainChain(t: Tree, g: Hash, tds: map<Hash, nat>, head: Hash, canon: map<nat, Hash>)
    requires WellFormed(t, g) && Stored(t, g, tds) && head in t && Covers(canon, Path(t, g, head))
    ensures tds.Keys == t.Keys && tds[g] == t[g].difficulty
    ensures forall h :: h in t && h != g ==> t[h].parent in t && tds[h] == tds[t[h].parent] + t[h].difficulty
    ensures
      var n := t[head].number;
      && (forall i :: 0 <= i <= n ==> i in canon && canon[i] in t && t[canon[i]].number == i)
      && canon[0] == g && canon[n] == head && (forall i :: 0 < i <= n ==> t[canon[i]].parent == canon[i - 1])
  {
    hide Path;
    StoredKeys(t, g, tds);
    forall h | h in t && h != g ensures t[h].parent in t && tds[h] == tds[t[h].parent] + t[h].difficulty {
      assert Linked(t, h);
      DifficultyStep(t, g, h);
    }
    forall i | 0 <= i <= t[head].number ensures canon[i] in t && t[canon[i]].number == i {
      PathIn(t, g, head, i);
    }
    forall i | 0 < i <= t[head].number ensures t[canon[i]].parent == canon[i - 1] {
      PathParent(t, g, head, i);
    }
  }

  class HeaderChain {
    const genesis: Hash
    var headers: Tree
    var tds: map<Hash, nat>
    var canon: map<nat, Hash>
    var current: Hash

    ghost predicate Valid()
      reads this
    {
      && WellFormed(headers, genesis) && Stored(headers, genesis, tds) && Heaviest(tds, current)
      && current in headers && IndexOf(canon, Path(headers, genesis, current))
    }

    constructor (genesis: Hash, header: Block)
      requires header.number == 0
      ensures Valid() && this.genesis == genesis && headers == map[genesis := header] && current == genesis
    {
      this.genesis := genesis;
      headers, tds := map[genesis := header], map[genesis := header.difficulty];
      canon, current := map[0 := genesis], genesis;
    }

    /** The invariant in plain terms: sums, heaviest head, and a number index linked by parents up to the head. */
    lemma Plain()
      requires Valid()
      ensures tds.Keys == headers.Keys && tds[genesis] == headers[genesis].difficulty
      ensures forall h :: h in headers && h != genesis ==>
                headers[h].parent in headers && tds[h] == tds[headers[h].parent] + headers[h].difficulty
      ensures current in headers && forall h :: h in headers ==> tds[h] <= tds[current]
      ensures
        var n := headers[current].number;
        && (forall i :: i in canon <==> 0 <= i <= n)
        && (forall i :: 0 <= i <= n ==> canon[i] in headers && headers[canon[i]].number == i)
        && canon[0] == genesis && canon[n] == current
        && (forall i :: 0 < i <= n ==> headers[canon[i]].parent == canon[i - 1])
    {
      hide Path, TotalDifficulty, WellFormed;
      PlainChain(headers, genesis, tds, current, canon);
    }

    /** Delete the canonical numbers from `from` up to the first gap. */
    method DeleteFrom(from: nat, ghost p: seq<Hash>)
      requires IndexOf(canon, p)
      modifies this`canon
      ensures IndexOf(canon, if from < |p| then p[..from] else p)
    {
      var i := from;
      while i in canon
        invariant from <= i && (i <= |p| || i == from)
        invariant forall j :: (j in canon <==> 0 <= j < |p| && !(from <= j < i)) && (j in canon ==> canon[j] == p[j])
        decreases |p| - i
      {
        canon := canon - {i};
        i := i + 1;
      }
    }

    /** Overwrite stale canonical numbers from `h` downwards until the index agrees. */
    method Overwrite(h: Hash, ghost x: Hash)
      requires WellFormed(headers, genesis) && h in headers && x in headers
      requires forall j :: j in canon ==> j <= headers[x].number && canon[j] == Path(headers, genesis, x)[j]
      requires 0 in canon && forall i, j :: 0 <= i < j && j in canon ==> i in canon
      modifies this`canon
      ensures forall j :: 0 <= j <= headers[h].number ==> j in canon && canon[j] == Path(headers, genesis, h)[j]
      ensures forall j :: j > headers[h].number ==>
                (j in canon <==> j in old(canon)) && (j in canon ==> canon[j] == old(canon)[j])
    {
      hide Path, WellFormed;
      ghost var p := Path(headers, genesis, h);
      var hash, number := h, headers[h].number;
      while !(number in canon && canon[number] == hash)
        invariant number <= headers[h].number && hash in headers && headers[hash].number == number && p[number] == hash
        invariant forall j :: number < j <= headers[h].number ==> j in canon && canon[j] == p[j]
        invariant forall j :: 0 <= j <= number || j > headers[h].number ==>
                  (j in canon <==> j in old(canon)) && (j in canon ==> canon[j] == old(canon)[j])
        decreases number
      {
        AtGenesis(headers, genesis, x, hash);
        canon := canon[number := hash];
        StepDown(headers, genesis, h, hash);
        hash, number := headers[hash].parent, number - 1;
      }
      MeetBelow(headers, genesis, x, h, number);
    }

    /** `WriteHeader`; `coin` breaks ties of total difficulty. */
    method WriteHeader(hash: Hash, header: Block, coin: bool) returns (status: Status)
      requires Valid()
      requires header.parent in headers ==> header.number == headers[header.parent].number + 1
      requires hash in headers ==> headers[hash] == header
      modifies this`headers, this`tds, this`canon, this`current
      ensures Valid()
      ensures status == NonStat <==> header.parent !in old(headers)
      ensures status == NonStat ==> headers == old(headers) && current == old(current)
      ensures status != NonStat ==> headers == old(headers)[hash := header]
      ensures status == Canon ==> current == hash
      ensures status == Side ==> current == old(current) && canon == old(canon)
      ensures status != NonStat ==>
                var extern, local := old(tds)[header.parent] + header.difficulty, old(tds)[old(current)];
                status == Canon <==> extern > local || (extern == local && coin)
    {
      hide Path, WellFormed, TotalDifficulty, IndexOf, Stored;
      StoredKeys(headers, genesis, tds);
      if header.parent !in tds {
        return NonStat;
      }
      var localTd, externTd := tds[current], header.difficulty + tds[header.parent];
      ghost var x := current;
      StoreOne(headers, genesis, tds, hash, header);
      tds, headers := tds[hash := externTd], headers[hash := header];
      if externTd > localTd || (externTd == localTd && coin) {
        var number := header.number;
        ghost var p := Path(headers, genesis, x);
        DeleteFrom(number + 1, p);
        Truncated(canon, headers, genesis, x, number);
        Overwrite(header.parent, x);
        canon := canon[number := hash];
        Extended(canon, headers, genesis, hash);
        current := hash;
        status := Canon;
      } else {
        status := Side;
      }
    }

    /**
     `InsertHeaderChain` from `WriteHeader`: known headers are skipped, an unknown parent or an
     interruption stops the loop. `world` says which header each hash stands for.
     */
    method InsertHeaderChain(chain: seq<Hash>, coins: seq<bool>, abortAt: nat, world: Tree)
      returns (failed: Option<nat>)
      requires Valid() && |coins| == |chain|
      requires forall h :: h in headers ==> h in world && world[h] == headers[h]
      requires forall h :: h in chain ==> h in world && Numbered(world, world[h])
      modifies this`headers, this`tds, this`canon, this`current
      ensures Valid()
      ensures forall h :: h in headers ==> h in old(headers) || (h in chain && headers[h] == world[h])
      ensures forall h :: h in old(headers) ==> h in headers && headers[h] == old(headers)[h]
      ensures var n := if failed.Some? then failed.value else |chain|;
              && n <= |chain| && (forall i :: 0 <= i < n ==> chain[i] in headers)
              && (failed.Some? && n != abortAt ==>
                    n < |chain| && world[chain[n]].parent !in headers && chain[n] !in headers)
    {
      hide Valid;
      for i := 0 to |chain|
        invariant Valid()
        invariant forall h :: h in headers ==> h in world && headers[h] == world[h] && (h in old(headers) || h in chain)
        invariant forall h :: h in old(headers) ==> h in headers
        invariant forall j :: 0 <= j < i ==> chain[j] in headers
      {
        if i == abortAt {
          return Some(i);
        }
        if chain[i] !in headers {
          assert Numbered(world, world[chain[i]]);
          var status := WriteHeader(chain[i], world[chain[i]], coins[i]);
          if status == NonStat {
            return Some(i);
          }
        }
      }
      failed := None;
    }

    /** `SetHead`: rewind the head to height `head` at most, deleting the headers above it. */
    method SetHead(head: nat)
      requires Valid()
      modifies this`headers, this`tds, this`canon, this`current
      ensures var p := old(Path(headers, genesis, current));
              var n := if head < |p| then head else |p| - 1;
              && current == p[n] && IndexOf(canon, p[..n + 1])
              && IsRewound(old(headers), p, n, headers) && tds.Keys == headers.Keys
      ensures forall h :: h in tds ==> tds[h] == old(tds)[h]
      ensures (forall h :: h in old(headers) ==> h in old(Path(headers, genesis, current))) ==> Valid()
    {
      hide Path, WellFormed, TotalDifficulty, Stored, Heaviest, IndexOf, IsRewound;
      StoredKeys(headers, genesis, tds);
      ghost var t, x, p := headers, current, Path(headers, genesis, current);
      var height := headers[current].number;
      var cur, n := current, height;
      assert IsRewound(t, p, height, headers) by {
        RewindNone(t, p);
      }
      while n > head
        invariant n <= height && cur in t && t[cur].number == n && p[n] == cur
        invariant (n == height || n >= head) && current == x && canon == old(canon)
        invariant IsRewound(t, p, n, headers) && tds.Keys == headers.Keys
        invariant forall h :: h in tds ==> h in old(tds) && tds[h] == old(tds)[h]
      {
        StepDown(t, genesis, x, cur);
        RewindOne(t, genesis, x, n, headers);
        headers, tds, cur, n := headers - {cur}, tds - {cur}, headers[cur].parent, n - 1;
      }
      DropNumbers(height, head, p);
      if forall h :: h in t ==> h in p {
        Rewound(t, genesis, x, n, headers, old(tds), tds);
      }
      current := cur;
    }

    method DropNumbers(height: nat, head: nat, ghost p: seq<Hash>)
      requires IndexOf(canon, p) && |p| == height + 1
      modifies this`canon
      ensures IndexOf(canon, p[..(if head < |p| then head + 1 else |p|)])
    {
      var i := height;
      while i > head
        invariant i <= height && (i == height || i >= head)
        invariant forall j :: (j in canon <==> 0 <= j < |p| && j <= i) && (j in canon ==> canon[j] == p[j])
      {
        canon := canon - {i};
        i := i - 1;
      }
    }

    /**
     `GetAncestor`: the ancestor `back` generations above the block `hash` at height `number`.
     Walking off the canonical chain costs one unit of `budget` a step.
     */
    method GetAncestor(hash: Hash, number: nat, back: nat, budget: nat) returns (r: Option<(Hash, nat)>, left: nat)
      requires Valid()
      ensures back > number ==> r == None && left == budget
      ensures back <= number && Known(headers, hash, number) ==>
                var p := Path(headers, genesis, hash);
                var side := set i | number - back < i <= number && !(i in canon && canon[i] == p[i]);
                var steps := if back == 1 then 0 else |side|;
                && (r.Some? <==> steps <= budget) && (r.Some? ==> r.value == (p[number - back], number - back))
                && left == (if steps <= budget then budget - steps else 0)
      ensures back <= number && !Known(headers, hash, number) ==>
                && r == (if back == 0 then Some((hash, number)) else None)
                && left == (if back <= 1 || budget == 0 then budget else budget - 1)
    {
      hide Path, WellFormed, Stored, Heaviest, CommonLen;
      if back > number {
        return None, budget;
      }
      if back == 1 {
        if Known(headers, hash, number) {
          PathParent(headers, genesis, hash, number);
          return Some((headers[hash].parent, number - 1)), budget;
        }
        return None, budget;
      }
      var h, n, a := hash, number, back;
      left := budget;
      ghost var known := Known(headers, hash, number);
      ghost var q := Path(headers, genesis, current);
      ghost var p := if known then Path(headers, genesis, hash) else [];
      if known {
        OffCounts(headers, genesis, current, hash, back, canon);
      }
      while a != 0
        invariant 0 <= a <= n <= number && number - n == back - a == budget - left
        invariant 0 <= n && (known ==> p[n] == h && Known(headers, h, n))
        invariant known ==> forall i :: n < i <= number ==> !(i < |q| && q[i] == p[i])
        invariant !known ==> n == number && h == hash && a == back
      {
        if n in canon && canon[n] == h {
          PathIn(headers, genesis, current, n);
          OnCanon(headers, genesis, current, hash, n, canon);
          Apart(q, p, n);
          return Some((canon[n - a], n - a)), left;
        }
        if left == 0 {
          return None, 0;
        }
        left, a := left - 1, a - 1;
        if !Known(headers, h, n) {
          return None, left;
        }
        StepDown(headers, genesis, hash, h);
        h, n := headers[h].parent, n - 1;
      }
      Apart(q, p, n);
      return Some((h, n)), left;
    }
  }

  /** `GetHeader` finds a header by its hash and number. */
  predicate Known(t: Tree, h: Hash, n: nat) {
    h in t && t[h].number == n
  }

  ghost predicate Numbered(t: Tree, b: Block) {
    b.parent in t ==> b.number == t[b.parent].number + 1
  }

  /** The length of the longest common prefix. */
  ghost function CommonLen(p: seq<Hash>, q: seq<Hash>): (k: nat)
    ensures Common(p, q, k)
  {
    if p == [] || q == [] || p[0] != q[0] then 0 else
      var k := CommonLen(p[1..], q[1..]);
      assert forall i :: 0 < i <= k ==> p[i] == p[1..][i - 1] && q[i] == q[1..][i - 1];
      k + 1
  }

  /** How many of the last `back` steps down from the end of `p` start outside `q`. */
  ghost function Off(q: seq<Hash>, p: seq<Hash>, back: nat): int {
    var off := |p| - CommonLen(q, p);
    if back < off then back else off
  }

  /** The heights passed on the way down at which the block is not the canonical one. */
  lemma OffCounts(t: Tree, g: Hash, head: Hash, h: Hash, back: nat, canon: map<nat, Hash>)
    requires WellFormed(t, g) && head in t && h in t && IndexOf(canon, Path(t, g, head)) && back <= t[h].number
    ensures
      var p, n := Path(t, g, h), t[h].number;
      |set i | n - back < i <= n && !(i in canon && canon[i] == p[i])| == Off(Path(t, g, head), p, back)
  {
    hide Path, CommonLen, WellFormed;
    var p, q, n := Path(t, g, h), Path(t, g, head), t[h].number;
    var k := CommonLen(q, p);
    forall i | 0 <= i <= n ensures i in canon && canon[i] == p[i] <==> i < k {
      if i in canon && canon[i] == p[i] {
        MeetBelow(t, g, head, h, i);
      }
    }
    SideRange(canon, p, n, back, k);
  }

  lemma SideRange(canon: map<nat, Hash>, p: seq<Hash>, n: nat, back: nat, k: nat)
    requires |p| == n + 1 && back <= n && k <= |p|
    requires forall i :: 0 <= i <= n ==> (i in canon && canon[i] == p[i] <==> i < k)
    ensures |set i | n - back < i <= n && !(i in canon && canon[i] == p[i])| == if back < |p| - k then back else |p| - k
  {
    var lo := if n - back + 1 < k then k else n - back + 1;
    assert (set i | n - back < i <= n && !(i in canon && canon[i] == p[i])) == Range(lo, n + 1 - lo);
  }

  lemma Apart(q: seq<Hash>, p: seq<Hash>, n: nat)
    requires forall i :: n < i < |p| ==> !(i < |q| && q[i] == p[i])
    ensures CommonLen(q, p) <= n + 1
  {
    var k := CommonLen(q, p);
    assert k > 0 ==> q[k - 1] == p[k - 1];
  }

  /** A block found in the index continues along the canonical path. */
  lemma OnCanon(t: Tree, g: Hash, head: Hash, h: Hash, n: nat, canon: map<nat, Hash>)
    requires WellFormed(t, g) && head in t && h in t && IndexOf(canon, Path(t, g, head))
    requires n in canon && n <= t[h].number && canon[n] == Path(t, g, h)[n]
    ensures forall m :: 0 <= m <= n ==> m in canon && canon[m] == Path(t, g, h)[m] == Path(t, g, head)[m]
  {
    MeetBelow(t, g, head, h, n);
  }

  // ----- rewinding -----

  /** What is left of `t` when the blocks of `p` above height `n` are deleted. */
  ghost predicate IsRewound(t: Tree, p: seq<Hash>, n: nat, t': Tree)
    requires n < |p|
  {
    forall h :: (h in t' <==> h in t && h !in p[n + 1..]) && (h in t' ==> t'[h] == t[h])
  }

  lemma RewindNone(t: Tree, p: seq<Hash>)
    requires p != []
    ensures IsRewound(t, p, |p| - 1, t)
  {
  }

  lemma RewindOne(t: Tree, g: Hash, x: Hash, n: nat, t': Tree)
    requires WellFormed(t, g) && x in t && 0 < n <= t[x].number && IsRewound(t, Path(t, g, x), n, t')
    ensures Path(t, g, x)[n] in t' && t'[Path(t, g, x)[n]] == t[Path(t, g, x)[n]]
    ensures IsRewound(t, Path(t, g, x), n - 1, t' - {Path(t, g, x)[n]})
  {
    hide Path;
    var p := Path(t, g, x);
    PathIn(t, g, x, n);
    OnlyBelow(t, g, x, n, n);
    assert p[n..] == [p[n]] + p[n + 1..];
  }

  lemma {:induction false} PathLighter(t: Tree, g: Hash, h: Hash, i: nat)
    requires WellFormed(t, g) && h in t && i <= t[h].number && Path(t, g, h)[i] in t
    ensures TotalDifficulty(t, g, Path(t, g, h)[i]) <= TotalDifficulty(t, g, h)
    decreases t[h].number
  {
    if i < t[h].number {
      DifficultyStep(t, g, h);
      PathLighter(t, g, t[h].parent, i);
    }
  }

  /** Rewinding a chain without side headers leaves such a chain. */
  lemma Rewound(t: Tree, g: Hash, x: Hash, n: nat, t': Tree, tds: map<Hash, nat>, tds': map<Hash, nat>)
    requires WellFormed(t, g) && x in t && n <= t[x].number && IsRewound(t, Path(t, g, x), n, t')
    requires forall h :: h in t ==> h in Path(t, g, x)
    requires Stored(t, g, tds) && tds'.Keys == t'.Keys && forall h :: h in tds' ==> tds'[h] == tds[h]
    ensures WellFormed(t', g) && Path(t, g, x)[n] in t' && Path(t', g, Path(t, g, x)[n]) == Path(t, g, x)[..n + 1]
    ensures Stored(t', g, tds') && Heaviest(tds', Path(t, g, x)[n])
  {
    hide Path, TotalDifficulty;
    var p := Path(t, g, x);
    forall h | h in t ensures t[h].number <= t[x].number && p[t[h].number] == h && (h in t' <==> t[h].number <= n) {
      var i :| 0 <= i < |p| && p[i] == h;
      PathIn(t, g, x, i);
      OnlyBelow(t, g, x, n, i);
    }
    RewoundTree(t, g, x, n, t');
    PathIn(t, g, x, n);
    PathGrows(t', t, g, p[n]);
    PathPrefix(t, g, x, n);
    forall h | h in t' ensures TotalDifficulty(t', g, h) == TotalDifficulty(t, g, h) <= TotalDifficulty(t, g, p[n]) {
      DifficultyGrows(t', t, g, h);
      assert p[..n + 1][t[h].number] == h;
      PathLighter(t, g, p[n], t[h].number);
    }
  }

  lemma OnlyBelow(t: Tree, g: Hash, x: Hash, n: nat, i: nat)
    requires WellFormed(t, g) && x in t && i <= t[x].number && n <= t[x].number
    ensures Path(t, g, x)[i] in Path(t, g, x)[n + 1..] <==> i > n
  {
    hide Path;
    var p := Path(t, g, x);
    PathIn(t, g, x, i);
    if p[i] in p[n + 1..] {
      var j :| 0 <= j < |p| - n - 1 && p[n + 1..][j] == p[i];
      PathIn(t, g, x, n + 1 + j);
    }
  }

  lemma RewoundTree(t: Tree, g: Hash, x: Hash, n: nat, t': Tree)
    requires WellFormed(t, g) && x in t && n <= t[x].number && IsRewound(t, Path(t, g, x), n, t')
    requires forall h :: h in t ==> (h in t' <==> t[h].number <= n)
    ensures WellFormed(t', g)
  {
    hide Path;
    forall h | h in t' && h != g ensures Linked(t', h) {
      assert Linked(t, h);
    }
  }

  /** Height zero holds only genesis, on every path. */
  lemma AtGenesis(t: Tree, g: Hash, x: Hash, h: Hash)
    requires WellFormed(t, g) && x in t && h in t
    ensures t[h].number == 0 ==> h == g == Path(t, g, x)[0]
  {
    assert h == g || Linked(t, h);
  }

  lemma Truncated(canon: map<nat, Hash>, t: Tree, g: Hash, x: Hash, number: nat)
    requires WellFormed(t, g) && x in t && number > 0
    requires IndexOf(canon, if number + 1 < |Path(t, g, x)| then Path(t, g, x)[..number + 1] else Path(t, g, x))
    ensures 0 in canon && forall i, j :: 0 <= i < j && j in canon ==> i in canon
    ensures forall j :: j in canon ==> j <= t[x].number && j <= number && canon[j] == Path(t, g, x)[j]
  {
  }

  lemma Extended(canon: map<nat, Hash>, t: Tree, g: Hash, h: Hash)
    requires WellFormed(t, g) && h in t && t[h].number > 0 && t[h].parent in t
    requires t[h].number == t[t[h].parent].number + 1
    requires forall j :: j in canon ==> j <= t[h].number
    requires forall j :: 0 <= j < t[h].number ==> j in canon && canon[j] == Path(t, g, t[h].parent)[j]
    requires t[h].number in canon && canon[t[h].number] == h
    ensures IndexOf(canon, Path(t, g, h))
  {
  }
}
