/** les/randselect.go: the 8-ary tree for weighted random selection. */
module RandSelect {
  import opened Transactions
  import opened WeightedSlots

  const WRS_BRANCHES := 8

  function Capacity(level: nat): (c: nat)
    ensures c > 0
  {
    if level == 0 then WRS_BRANCHES else WRS_BRANCHES * Capacity(level - 1)
  }

  ghost predicate IsLeaf(items: seq<Option<nat>>, weights: seq<nat>, slots: seq<Slot>) {
    && |items| == |weights| == |slots| == WRS_BRANCHES
    && forall i :: 0 <= i < |slots| ==>
         if items[i].None? then slots[i] == Free && weights[i] == 0 else slots[i] == Taken(items[i].value, weights[i])
  }

  ghost predicate IsInner(weights: seq<nat>, parts: seq<seq<Slot>>, slots: seq<Slot>, sub: nat) {
    && |weights| == |parts| == WRS_BRANCHES && Even(parts, sub) && slots == Join(parts)
    && forall i :: 0 <= i < |parts| ==> weights[i] == Weight(parts[i])
  }

  ghost predicate Summed(slots: seq<Slot>, sum: nat, cnt: nat) {
    sum == Weight(slots) && cnt == Count(slots) && Positive(slots)
  }

  ghost predicate Apart(reprs: seq<set<object>>) {
    forall i, j :: 0 <= i < j < |reprs| ==> reprs[i] !! reprs[j]
  }

  class WrsNode {
    const level: nat
    const maxItems: nat
    var items: seq<Option<nat>>
    var subs: seq<WrsNode?>
    var weights: seq<nat>
    var sumWeight: nat
    var itemCnt: nat
    ghost var parts: seq<seq<Slot>>
    ghost var reprs: seq<set<object>>
    ghost var slots: seq<Slot>
    ghost var Repr: set<object>

    /** Sum and count match the subtree, and so do those of every node below. */
    ghost predicate Valid()
      reads this, Repr
      ensures Valid() ==> this in Repr && maxItems == |slots| == Capacity(level)
      ensures Valid() ==> itemCnt == Count(slots) && sumWeight == Weight(slots)
      decreases level, 1
    {
      && this in Repr && maxItems == Capacity(level) == |slots|
      && Summed(slots, sumWeight, itemCnt)
      && (level == 0 ==> IsLeaf(items, weights, slots))
      && (level > 0 ==> && IsInner(weights, parts, slots, Capacity(level - 1))
                        && |subs| == |reprs| == WRS_BRANCHES && Apart(reprs)
                        && (forall i :: 0 <= i < |subs| ==> ValidSub(i)))
    }

    /** The node of branch `i` owns `reprs[i]` and stands for `parts[i]`. */
    ghost predicate ValidSub(i: nat)
      requires level > 0 && i < |subs| && i < |parts| && i < |reprs|
      reads this, Repr
      decreases level, 0
    {
      var sub := subs[i];
      if sub == null then parts[i] == Blank(Capacity(level - 1)) && reprs[i] == {}
      else
        && sub in Repr && sub.Repr == reprs[i] <= Repr && this !in reprs[i]
        && sub.level == level - 1 && sub.slots == parts[i] && sub.Valid()
    }

    constructor (level: nat, maxItems: nat)
      requires maxItems == Capacity(level)
      ensures Valid() && fresh(Repr) && this.level == level && slots == Blank(Capacity(level))
    {
      this.level, this.maxItems := level, maxItems;
      items, subs, weights := seq(WRS_BRANCHES, i => None), seq(WRS_BRANCHES, i => null), seq(WRS_BRANCHES, i => 0);
      sumWeight, itemCnt := 0, 0;
      slots := Blank(Capacity(level));
      parts := seq(WRS_BRANCHES, i => Blank(if level == 0 then 0 else Capacity(level - 1)));
      reprs := seq(WRS_BRANCHES, i => {});
      Repr := {this};
      BlankTotals(Blank(Capacity(level)));
      if level > 0 {
        BlankTotals(Blank(Capacity(level - 1)));
        BlankJoin(seq(WRS_BRANCHES, i => Blank(Capacity(level - 1))), Capacity(level - 1));
      }
    }

    /** A new root above a full one. */
    constructor Above(root: WrsNode)
      requires root.Valid()
      ensures Valid() && fresh(Repr - root.Repr) && level == root.level + 1
      ensures slots == root.slots + Blank(7 * Capacity(root.level)) && sumWeight == root.sumWeight
      ensures itemCnt == root.itemCnt
    {
      hide Join, Weight, Count;
      var sub := Capacity(root.level);
      level, maxItems := root.level + 1, root.maxItems * WRS_BRANCHES;
      items := seq(WRS_BRANCHES, i => None);
      subs, weights := [root] + seq(7, i => null), [root.sumWeight] + seq(7, i => 0);
      sumWeight, itemCnt := root.sumWeight, root.itemCnt;
      slots := root.slots + Blank(7 * sub);
      parts := [root.slots] + seq(7, i => Blank(sub));
      reprs := [root.Repr] + seq(7, i => {});
      Repr := root.Repr + {this};
      new;
      hide IsInner, Summed;
      assert Summed(root.slots, root.sumWeight, root.itemCnt);
      AboveInner(root.slots, root.sumWeight, root.itemCnt, sub);
      assert ValidSub(0);
    }

    method InsertLeaf(item: nat, weight: nat) returns (idx: nat)
      requires Valid() && level == 0 && itemCnt < maxItems && weight > 0
      modifies this
      ensures Valid() && Repr == old(Repr)
      ensures idx < |slots| && old(slots)[idx] == Free && slots == old(slots)[idx := Taken(item, weight)]
      ensures forall k :: 0 <= k < idx ==> old(slots)[k].Taken?
    {
      CountBound(slots);
      var branch := 0;
      while items[branch].Some?
        invariant 0 <= branch < WRS_BRANCHES
        invariant forall k :: 0 <= k < branch ==> slots[k].Taken?
        decreases WRS_BRANCHES - branch
      {
        branch := branch + 1;
        assert branch < WRS_BRANCHES;
      }
      TotalsUpdate(slots, branch, Taken(item, weight));
      itemCnt, sumWeight := itemCnt + 1, sumWeight + weight;
      weights, items := weights[branch := weights[branch] + weight], items[branch := Some(item)];
      slots := slots[branch := Taken(item, weight)];
      idx := branch;
    }

    /** The first branch with room; the tree is not full, so there is one. */
    method FindBranch() returns (branch: nat)
      requires Valid() && level > 0 && itemCnt < maxItems
      ensures branch < WRS_BRANCHES && Count(parts[branch]) < |parts[branch]|
      ensures forall i :: 0 <= i < branch ==> Count(parts[i]) == |parts[i]|
    {
      hide Join, Weight, Count;
      branch := 0;
      while subs[branch] != null && subs[branch].itemCnt == subs[branch].maxItems
        invariant 0 <= branch < WRS_BRANCHES
        invariant forall i :: 0 <= i < branch ==> Count(parts[i]) == |parts[i]|
        decreases WRS_BRANCHES - branch
      {
        assert ValidSub(branch);
        branch := branch + 1;
        if branch == WRS_BRANCHES {
          JoinFull(parts);
          assert false;
        }
      }
      assert ValidSub(branch);
      CountBound(parts[branch]);
      if subs[branch] == null {
        BlankTotals(parts[branch]);
      }
    }

    method Insert(item: nat, weight: nat) returns (idx: nat)
      requires Valid() && itemCnt < maxItems && weight > 0
      modifies Repr
      ensures Valid() && fresh(Repr - old(Repr))
      ensures idx < |slots| && old(slots)[idx] == Free && slots == old(slots)[idx := Taken(item, weight)]
      ensures forall k :: 0 <= k < idx ==> old(slots)[k].Taken?
      decreases level, 1
    {
      if level == 0 {
        idx := InsertLeaf(item, weight);
        return;
      }
      var branch := FindBranch();
      EnsureSub(branch);
      idx := InsertSub(branch, item, weight);
    }

    /** Make sure that the branch has a node. */
    method EnsureSub(branch: nat)
      requires Valid() && level > 0 && branch < WRS_BRANCHES
      modifies this
      ensures Valid() && fresh(Repr - old(Repr)) && slots == old(slots) && parts == old(parts)
      ensures subs[branch] != null && subs[branch].slots == parts[branch]
      ensures old(subs[branch]) != null ==> subs == old(subs)
    {
      hide Join, Weight, Count, Capacity, Even;
      assert ValidSub(branch);
      if subs[branch] == null {
        CapacityStep(level);
        var sub := new WrsNode(level - 1, maxItems / WRS_BRANCHES);
        label Made:
        subs, reprs := subs[branch := sub], reprs[branch := sub.Repr];
        Repr := Repr + sub.Repr;
        forall i | 0 <= i < |subs| ensures ValidSub(i) {
          assert i != branch ==> old@Made(ValidSub(i));
        }
      }
    }

    method InsertSub(branch: nat, item: nat, weight: nat) returns (idx: nat)
      requires Valid() && level > 0 && weight > 0 && branch < WRS_BRANCHES && subs[branch] != null
      requires Count(parts[branch]) < |parts[branch]|
      requires forall i :: 0 <= i < branch ==> Count(parts[i]) == |parts[i]|
      modifies Repr
      ensures Valid() && fresh(Repr - old(Repr))
      ensures idx < |slots| && old(slots)[idx] == Free && slots == old(slots)[idx := Taken(item, weight)]
      ensures forall k :: 0 <= k < idx ==> old(slots)[k].Taken?
      decreases level, 0
    {
      hide Join, Weight, Count, Capacity, Even;
      assert ValidSub(branch);
      var sub := subs[branch];
      label Before:
      var subIdx := sub.Insert(item, weight);
      idx := sub.maxItems * branch + subIdx;
      FirstFree(parts, Capacity(level - 1), branch, subIdx);
      InnerUpdate(weights, parts, slots, Capacity(level - 1), branch, subIdx, Taken(item, weight));
      itemCnt, sumWeight, weights := itemCnt + 1, sumWeight + weight, weights[branch := weights[branch] + weight];
      parts, slots := parts[branch := sub.slots], slots[idx := Taken(item, weight)];
      reprs, Repr := reprs[branch := sub.Repr], Repr + sub.Repr;
      forall i | 0 <= i < |subs| ensures ValidSub(i) {
        assert i != branch ==> old@Before(ValidSub(i));
      }
    }

    method SetWeightLeaf(idx: nat, weight: nat) returns (diff: int)
      requires Valid() && level == 0 && idx < |slots| && slots[idx].Taken?
      modifies this
      ensures Valid() && Repr == old(Repr) && diff == weight - old(slots)[idx].weight
      ensures slots == old(slots)[idx := Weighed(old(slots)[idx].item, weight)]
    {
      TotalsUpdate(slots, idx, Weighed(slots[idx].item, weight));
      var oldWeight := weights[idx];
      weights := weights[idx := weight];
      diff := weight - oldWeight;
      sumWeight := sumWeight + diff;
      if weight == 0 {
        items := items[idx := None];
        itemCnt := itemCnt - 1;
      }
      slots := slots[idx := Weighed(slots[idx].item, weight)];
    }

    method SetWeight(idx: nat, weight: nat) returns (diff: int)
      requires Valid() && idx < |slots| && slots[idx].Taken?
      modifies Repr
      ensures Valid() && Repr == old(Repr) && diff == weight - old(slots)[idx].weight
      ensures slots == old(slots)[idx := Weighed(old(slots)[idx].item, weight)]
      decreases level, 1
    {
      if level == 0 {
        diff := SetWeightLeaf(idx, weight);
        return;
      }
      CapacityStep(level);
      var branchItems := maxItems / WRS_BRANCHES;
      Branch(idx, branchItems);
      var branch := idx / branchItems;
      diff := SetWeightSub(branch, idx - branch * branchItems, idx, weight);
    }

    method SetWeightSub(branch: nat, subIdx: nat, ghost idx: nat, weight: nat) returns (diff: int)
      requires Valid() && level > 0 && branch < WRS_BRANCHES && subIdx < Capacity(level - 1)
      requires idx == branch * Capacity(level - 1) + subIdx && idx < |slots| && slots[idx].Taken?
      modifies Repr
      ensures Valid() && Repr == old(Repr) && diff == weight - old(slots)[idx].weight
      ensures slots == old(slots)[idx := Weighed(old(slots)[idx].item, weight)]
      decreases level, 0
    {
      hide Join, Weight, Count, Capacity, Even, IsInner, Apart, Summed;
      ghost var slot := Weighed(slots[idx].item, weight);
      Unpack(branch);
      assert ValidSub(branch);
      InnerUpdate(weights, parts, slots, Capacity(level - 1), branch, subIdx, slot);
      var sub := subs[branch];
      label Before:
      diff := sub.SetWeight(subIdx, weight);
      weights := weights[branch := weights[branch] + diff];
      sumWeight := sumWeight + diff;
      if weight == 0 {
        itemCnt := itemCnt - 1;
      }
      parts, slots := parts[branch := sub.slots], slots[idx := slot];
      forall i | 0 <= i < |subs| ensures ValidSub(i) {
        assert i != branch ==> old@Before(ValidSub(i));
      }
    }

    lemma Unpack(b: nat)
      requires Valid() && level > 0 && b < WRS_BRANCHES
      ensures Positive(slots) && |weights| == |parts| == |subs| == |reprs| == WRS_BRANCHES
      ensures Even(parts, Capacity(level - 1))
      ensures forall i :: 0 <= i < |reprs| && i != b ==> reprs[i] !! reprs[b]
    {
    }

    /** The weight of a branch is that of its stretch of slots. */
    lemma BranchWeight(i: nat)
      requires Valid() && i < WRS_BRANCHES
      ensures |weights| == WRS_BRANCHES && Start(level, i) <= Start(level, i + 1) <= |slots|
      ensures Weight(slots[..Start(level, i + 1)]) == Weight(slots[..Start(level, i)]) + weights[i]
    {
      if level == 0 {
        assert slots[..i + 1][..i] == slots[..i];
      } else {
        InnerWeight(weights, parts, slots, Capacity(level - 1), i);
      }
    }

    /** The value selects exactly one taken slot; the loop never falls through. */
    method Choose(val: nat) returns (item: nat, weight: nat, ghost idx: nat)
      requires Valid() && val < sumWeight
      ensures Selects(slots, val, idx) && slots[idx] == Taken(item, weight)
      decreases level
    {
      hide Join, Weight, Count, Capacity, IsInner, IsLeaf, Apart, Summed, Start, Selects;
      var rest, i := val, 0;
      Ends(slots);
      Starts(level);
      while i < WRS_BRANCHES
        invariant 0 <= i <= WRS_BRANCHES && 0 <= rest && Start(level, i) <= |slots|
        invariant val == rest + Weight(slots[..Start(level, i)])
      {
        BranchWeight(i);
        if rest < weights[i] {
          if level == 0 {
            LeafSelects(i, val);
            return items[i].value, weights[i], i;
          }
          item, weight, idx := ChooseSub(i, rest, val);
          return;
        }
        rest, i := rest - weights[i], i + 1;
      }
      assert false;
    }

    lemma LeafSelects(i: nat, val: nat)
      requires Valid() && level == 0 && i < WRS_BRANCHES && Start(level, i) <= |slots|
      requires Weight(slots[..Start(level, i)]) <= val < Weight(slots[..Start(level, i)]) + weights[i]
      ensures |items| == WRS_BRANCHES && items[i].Some? && slots[i] == Taken(items[i].value, weights[i])
      ensures Selects(slots, val, i)
    {
    }

    method ChooseSub(i: nat, rest: nat, ghost val: nat) returns (item: nat, weight: nat, ghost idx: nat)
      requires Valid() && level > 0 && i < WRS_BRANCHES && rest < weights[i]
      requires Start(level, i) <= |slots| && val == rest + Weight(slots[..Start(level, i)])
      ensures Selects(slots, val, idx) && slots[idx] == Taken(item, weight)
      decreases level, 0
    {
      hide Join, Weight, Count, Capacity;
      Unpack(i);
      assert ValidSub(i);
      ghost var sub := Capacity(level - 1);
      BlankTotals(Blank(sub));
      ghost var j: nat;
      item, weight, j := subs[i].Choose(rest);
      idx := i * sub + j;
      JoinAt(parts, sub, i, j);
      JoinSplit(parts, sub, i);
    }
  }

  /** The first slot of a branch. */
  ghost function Start(level: nat, branch: nat): nat {
    if level == 0 then branch else branch * Capacity(level - 1)
  }

  lemma Starts(level: nat)
    ensures Start(level, 0) == 0 && Start(level, WRS_BRANCHES) == Capacity(level)
  {
  }

  lemma InnerWeight(weights: seq<nat>, parts: seq<seq<Slot>>, slots: seq<Slot>, sub: nat, i: nat)
    requires IsInner(weights, parts, slots, sub) && i < WRS_BRANCHES
    ensures i * sub + sub <= |slots| && Weight(slots[..i * sub + sub]) == Weight(slots[..i * sub]) + weights[i]
  {
    hide Join, Weight;
    JoinSplit(parts, sub, i);
    var m := i * sub;
    assert slots[..m + sub] == slots[..m] + slots[m..m + sub];
    Totals(slots[..m], parts[i]);
  }

  lemma Ends(s: seq<Slot>)
    ensures Weight(s[..0]) == 0 && Weight(s[..|s|]) == Weight(s)
  {
    assert s[..|s|] == s;
  }

  /** Items and taken slots correspond one to one. */
  ghost predicate Indexed(slots: seq<Slot>, idx: map<nat, nat>) {
    && (forall x :: x in idx ==> idx[x] < |slots| && slots[idx[x]].Taken? && slots[idx[x]].item == x)
    && (forall i :: 0 <= i < |slots| && slots[i].Taken? ==> slots[i].item in idx && idx[slots[i].item] == i)
  }

  /** The stored weight of every item. */
  ghost function Weights(slots: seq<Slot>, idx: map<nat, nat>): map<nat, nat>
    requires Indexed(slots, idx)
  {
    map x | x in idx :: slots[idx[x]].weight
  }

  lemma IndexedInsert(slots: seq<Slot>, idx: map<nat, nat>, item: nat, i: nat, weight: nat)
    requires Indexed(slots, idx) && item !in idx && i < |slots| && slots[i] == Free
    ensures Indexed(slots[i := Taken(item, weight)], idx[item := i])
    ensures Weights(slots[i := Taken(item, weight)], idx[item := i]) == Weights(slots, idx)[item := weight]
  {
  }

  lemma IndexedSet(slots: seq<Slot>, idx: map<nat, nat>, item: nat, weight: nat)
    requires Indexed(slots, idx) && item in idx
    ensures var idx' := if weight == 0 then idx - {item} else idx;
            && Indexed(slots[idx[item] := Weighed(item, weight)], idx')
            && Weights(slots[idx[item] := Weighed(item, weight)], idx')
               == if weight == 0 then Weights(slots, idx) - {item} else Weights(slots, idx)[item := weight]
  {
  }

  lemma IndexedGrow(slots: seq<Slot>, idx: map<nat, nat>, n: nat)
    requires Indexed(slots, idx)
    ensures Indexed(slots + Blank(n), idx) && Weights(slots + Blank(n), idx) == Weights(slots, idx)
  {
  }

  /** `weightedRandomSelect`: the tree and the index of every item in it. */
  class WeightedRandomSelect {
    var root: WrsNode
    var idx: map<nat, nat>
    ghost var Repr: set<object>

    ghost predicate Valid()
      reads this, Repr
    {
      && this in Repr && root in Repr && root.Repr <= Repr && this !in root.Repr
      && root.Valid() && Indexed(root.slots, idx)
    }

    ghost function Stored(): map<nat, nat>
      requires Valid()
      reads this, Repr
    {
      Weights(root.slots, idx)
    }

    constructor ()
      ensures Valid() && fresh(Repr) && Stored() == map[]
    {
      var r := new WrsNode(0, WRS_BRANCHES);
      root, idx := r, map[];
      Repr := {this} + r.Repr;
      new;
    }

    /** `setWeight`: only the weight of `item` changes, zero removes it, and no other index moves. */
    method SetWeight(item: nat, weight: nat)
      requires Valid()
      modifies Repr
      ensures Valid() && fresh(Repr - old(Repr))
      ensures Stored() == if weight == 0 then old(Stored()) - {item} else old(Stored())[item := weight]
      ensures forall x :: x in idx && x in old(idx) ==> idx[x] == old(idx)[x]
      ensures root.sumWeight ==
              old(root.sumWeight) - (if item in old(Stored()) then old(Stored())[item] else 0) + weight
    {
      hide Weight, Count, Indexed, Join, Capacity, WrsNode.Valid, Weights;
      StoredItems(root.slots, idx);
      if item in idx {
        Taking(root.slots, idx, item);
        TotalsUpdate(root.slots, idx[item], Weighed(item, weight));
        IndexedSet(root.slots, idx, item, weight);
        var _ := root.SetWeight(idx[item], weight);
        if weight == 0 {
          idx := idx - {item};
        }
      } else if weight != 0 {
        InsertNew(item, weight);
      }
    }

    /** A new item goes into a tree with room, below a new root if need be. */
    method InsertNew(item: nat, weight: nat)
      requires Valid() && item !in idx && weight > 0
      modifies Repr
      ensures Valid() && fresh(Repr - old(Repr)) && Stored() == old(Stored())[item := weight]
      ensures forall x :: x in old(idx) ==> x in idx && idx[x] == old(idx)[x]
      ensures root.sumWeight == old(root.sumWeight) + weight
    {
      hide Weight, Count, Indexed, Join, Capacity, WrsNode.Valid, Weights;
      CountBound(root.slots);
      if root.itemCnt == root.maxItems {
        IndexedGrow(root.slots, idx, 7 * Capacity(root.level));
        root := new WrsNode.Above(root);
        Repr := Repr + root.Repr;
      }
      ghost var slots := root.slots;
      var i := root.Insert(item, weight);
      IndexedInsert(slots, idx, item, i, weight);
      TotalsUpdate(slots, i, Taken(item, weight));
      idx := idx[item := i];
      Repr := Repr + root.Repr;
    }

    /** The item on which a value below the total weight falls. */
    method Pick(val: nat) returns (choice: nat, weight: nat)
      requires Valid() && val < root.sumWeight
      ensures choice in Stored() && Stored()[choice] == weight > 0 && Falls(root.slots, val, choice, weight)
    {
      ghost var i: nat;
      choice, weight, i := root.Choose(val);
      Chosen(root.slots, idx, val, i);
    }

    /**
     `choose`: pick by stored weight; an item whose weight has dropped is re-weighed and accepted with the ratio
     of the new to the stored weight. `weightOf(k, x)` is what `x` reports when it is asked in draw `k`, and
     `random(j, n)` the `j`-th random number, below `n`.
     */
    method Choose(weightOf: (nat, nat) -> nat, random: (nat, nat) -> nat) returns (r: Option<nat>, ghost log: seq<Draw>)
      requires Valid() && forall j, n :: n > 0 ==> random(j, n) < n
      modifies Repr
      ensures Valid() && fresh(Repr - old(Repr)) && Stored() == Replayed(old(Stored()), log)
      ensures forall k :: 0 <= k < |log| ==> Drawn(old(Stored()), log, k, weightOf, random)
      ensures forall k :: 0 <= k < |log| ==> (Accepts(log[k], k, random) <==> r.Some? && k == |log| - 1)
      ensures r.Some? ==> log != [] && log[|log| - 1].item == r.value && log[|log| - 1].weight > 0
      ensures r.None? ==> Stored() == map[] && forall x :: x in old(Stored()) ==> Nullified(log, x)
    {
      hide Weight, Count, Indexed, Join, Capacity, Weights, Selects, Drawn, Valid, Replayed, Carries, Falls;
      ghost var was := Stored();
      log := [];
      var draws := 0;
      NoDraw(was);
      while true
        invariant Valid() && fresh(Repr - old(Repr)) && Stored() == Replayed(was, log) && draws == |log|
        invariant forall k :: 0 <= k < |log| ==> Drawn(was, log, k, weightOf, random)
        invariant forall k :: 0 <= k < |log| ==> !Accepts(log[k], k, random)
        decreases root.sumWeight
      {
        if root.sumWeight == 0 {
          NoItems();
          AllZero(was, log);
          return None, log;
        }
        SlotsCarry();
        var choice, lastWeight := Pick(random(2 * draws, root.sumWeight));
        var weight := weightOf(draws, choice);
        ghost var d := Draw(root.slots, choice, lastWeight, weight);
        OneDraw(was, log, d, weightOf, random);
        var coin := random(2 * draws + 1, lastWeight);
        log, draws := log + [d], draws + 1;
        if weight != lastWeight {
          SetWeight(choice, weight);
        }
        if weight >= lastWeight || coin < weight {
          return Some(choice), log;
        }
      }
    }

    /** The slots hold exactly the stored weights, and the root knows their sum. */
    lemma SlotsCarry()
      requires Valid()
      ensures Carries(root.slots, Stored()) && root.sumWeight == Weight(root.slots)
    {
      hide Weight, Count, Join, Capacity;
    }

    lemma NoItems()
      requires Valid() && root.sumWeight == 0
      ensures Stored() == map[]
    {
      if x :| x in idx {
        assert root.slots[idx[x]].Taken? && Positive(root.slots);
        Monotone(root.slots, idx[x], |root.slots|);
        Ends(root.slots);
      }
    }
  }

  /** In a draw from `slots` an item stored with one weight reported another. */
  datatype Draw = Draw(slots: seq<Slot>, item: nat, stored: nat, weight: nat)

  /** The stored weights after the draws of `log`: each gives its item the reported weight. */
  ghost function Replayed(was: map<nat, nat>, log: seq<Draw>): map<nat, nat> {
    if log == [] then was
    else
      var m, d := Replayed(was, log[..|log| - 1]), log[|log| - 1];
      if d.weight == 0 then m - {d.item} else m[d.item := d.weight]
  }

  ghost predicate Carries(slots: seq<Slot>, m: map<nat, nat>) {
    && (forall x :: x in m ==> Taken(x, m[x]) in slots)
    && (forall i :: 0 <= i < |slots| && slots[i].Taken? ==> slots[i].item in m && m[slots[i].item] == slots[i].weight)
  }

  /** `val` falls on the slot of an item. */
  ghost predicate Falls(slots: seq<Slot>, val: nat, item: nat, weight: nat) {
    exists i :: Selects(slots, val, i) && slots[i] == Taken(item, weight)
  }

  /** Draw `k` takes the item its random number falls on, by the weights stored then, and asks it. */
  ghost predicate Drawn(was: map<nat, nat>, log: seq<Draw>, k: nat, weightOf: (nat, nat) -> nat,
                        random: (nat, nat) -> nat)
    requires k < |log|
  {
    var d := log[k];
    && Carries(d.slots, Replayed(was, log[..k])) && Weight(d.slots) > 0
    && Falls(d.slots, random(2 * k, Weight(d.slots)), d.item, d.stored) && d.weight == weightOf(k, d.item)
  }

  /** A weight that has not dropped is accepted, a dropped one with the ratio of the new to the stored weight. */
  ghost predicate Accepts(d: Draw, k: nat, random: (nat, nat) -> nat) {
    d.weight >= d.stored || random(2 * k + 1, d.stored) < d.weight
  }

  ghost predicate Nullified(log: seq<Draw>, x: nat) {
    exists d :: d in log && d.item == x && d.weight == 0
  }

  lemma NoDraw(was: map<nat, nat>)
    ensures Replayed(was, []) == was
  {
  }

  lemma OneDraw(was: map<nat, nat>, log: seq<Draw>, d: Draw, weightOf: (nat, nat) -> nat, random: (nat, nat) -> nat)
    requires Carries(d.slots, Replayed(was, log)) && Weight(d.slots) > 0 && d.weight == weightOf(|log|, d.item)
    requires Falls(d.slots, random(2 * |log|, Weight(d.slots)), d.item, d.stored)
    ensures
      var m, log' := Replayed(was, log), log + [d];
      && Replayed(was, log') == (if d.weight == 0 then m - {d.item} else m[d.item := d.weight])
      && Drawn(was, log', |log|, weightOf, random)
      && (forall k :: 0 <= k < |log| && Drawn(was, log, k, weightOf, random) ==> Drawn(was, log', k, weightOf, random))
  {
    hide Replayed, Carries, Weight, Falls;
    var log' := log + [d];
    assert log'[..|log|] == log;
    assert forall k :: 0 <= k < |log| ==> log'[..k] == log[..k];
    Replays(was, log, d);
  }

  lemma Replays(was: map<nat, nat>, log: seq<Draw>, d: Draw)
    ensures
      var m := Replayed(was, log);
      Replayed(was, log + [d]) == if d.weight == 0 then m - {d.item} else m[d.item := d.weight]
  {
    assert (log + [d])[..|log|] == log;
  }

  /** What is no longer stored has reported zero. */
  lemma {:induction false} AllZero(was: map<nat, nat>, log: seq<Draw>)
    ensures forall x :: x in was && x !in Replayed(was, log) ==> Nullified(log, x)
  {
    if log != [] {
      var init, d := log[..|log| - 1], log[|log| - 1];
      AllZero(was, init);
      assert log == init + [d];
      forall x | Nullified(init, x) ensures Nullified(log, x) {
        var e :| e in init && e.item == x && e.weight == 0;
        assert e in log;
      }
      assert d in log;
    }
  }

  lemma StoredItems(slots: seq<Slot>, idx: map<nat, nat>)
    requires Indexed(slots, idx)
    ensures Weights(slots, idx).Keys == idx.Keys
  {
  }

  /** A selected slot is taken by an item of positive weight. */
  lemma Chosen(slots: seq<Slot>, idx: map<nat, nat>, val: nat, i: nat)
    requires Indexed(slots, idx) && Selects(slots, val, i)
    ensures slots[i].Taken? && slots[i].weight > 0 && slots[i].item in idx
    ensures Weights(slots, idx)[slots[i].item] == slots[i].weight
  {
  }

  lemma Taking(slots: seq<Slot>, idx: map<nat, nat>, item: nat)
    requires Indexed(slots, idx) && item in idx
    ensures idx[item] < |slots| && slots[idx[item]] == Taken(item, Weights(slots, idx)[item])
  {
  }

  /** The branch and offset of an index. */
  lemma Branch(idx: nat, sub: nat)
    requires sub > 0 && idx < WRS_BRANCHES * sub
    ensures var b := idx / sub; 0 <= b < WRS_BRANCHES && 0 <= idx - b * sub < sub && b * sub + (idx - b * sub) == idx
  {
  }

  lemma CapacityStep(level: nat)
    requires level > 0
    ensures Capacity(level) / WRS_BRANCHES == Capacity(level - 1)
  {
  }

  /** Full branches before it make the first free slot of a branch the first of all. */
  lemma FirstFree(parts: seq<seq<Slot>>, sub: nat, b: nat, j: nat)
    requires Even(parts, sub) && b < |parts| && j < sub
    requires forall i :: 0 <= i < b ==> Count(parts[i]) == |parts[i]|
    requires forall k :: 0 <= k < j ==> parts[b][k].Taken?
    ensures b * sub + j < |Join(parts)| && forall k :: 0 <= k < b * sub + j ==> Join(parts)[k].Taken?
  {
    hide Join, Weight, Count;
    JoinSplit(parts, sub, b);
    JoinFull(parts[..b]);
    CountBound(Join(parts[..b]));
    var s, m := Join(parts), b * sub;
    assert |s[..m]| == m && forall k :: 0 <= k < m ==> s[..m][k].Taken?;
    forall k | 0 <= k < m + j ensures s[k].Taken? {
      if k < m {
        assert s[k] == s[..m][k];
      } else {
        assert s[k] == s[m..m + sub][k - m] == parts[b][k - m];
      }
    }
  }

  function Weighed(item: nat, weight: nat): Slot {
    if weight == 0 then Free else Taken(item, weight)
  }

  lemma InnerUpdate(weights: seq<nat>, parts: seq<seq<Slot>>, slots: seq<Slot>, sub: nat, b: nat, j: nat, v: Slot)
    requires IsInner(weights, parts, slots, sub) && b < WRS_BRANCHES && j < sub
    ensures b * sub + j < |slots| && slots[b * sub + j] == parts[b][j]
    ensures weights[b] >= WeightOf(parts[b][j])
    ensures IsInner(weights[b := weights[b] - WeightOf(parts[b][j]) + WeightOf(v)], parts[b := parts[b][j := v]],
                    slots[b * sub + j := v], sub)
    ensures Weight(slots) >= WeightOf(parts[b][j]) && (parts[b][j].Taken? ==> Count(slots) > 0)
    ensures Positive(slots) && (v.Taken? ==> v.weight > 0) ==>
              Summed(slots[b * sub + j := v], Weight(slots) - WeightOf(parts[b][j]) + WeightOf(v),
                     Count(slots) - (if parts[b][j].Free? then 0 else 1) + if v.Free? then 0 else 1)
  {
    hide Join, Weight, Count;
    JoinAt(parts, sub, b, j);
    JoinUpdate(parts, sub, b, j, v);
    TotalsUpdate(parts[b], j, v);
    TotalsUpdate(parts[b], j, Free);
    TotalsUpdate(slots, b * sub + j, v);
    TotalsUpdate(slots, b * sub + j, Free);
  }

  lemma {:induction false} JoinFull(parts: seq<seq<Slot>>)
    requires forall i :: 0 <= i < |parts| ==> Count(parts[i]) == |parts[i]|
    ensures Count(Join(parts)) == |Join(parts)|
  {
    if parts != [] {
      JoinFull(parts[..|parts| - 1]);
      Totals(Join(parts[..|parts| - 1]), parts[|parts| - 1]);
    }
  }

  lemma BlankJoin(parts: seq<seq<Slot>>, sub: nat)
    requires forall i :: 0 <= i < |parts| ==> parts[i] == Blank(sub)
    ensures Join(parts) == Blank(|parts| * sub)
  {
    if parts != [] {
      BlankJoin(parts[..|parts| - 1], sub);
      assert |parts| * sub == (|parts| - 1) * sub + sub;
    }
  }

  lemma AboveInner(s: seq<Slot>, sum: nat, cnt: nat, sub: nat)
    requires Summed(s, sum, cnt) && |s| == sub
    ensures IsInner([sum] + seq(7, i => 0), [s] + seq(7, i => Blank(sub)), s + Blank(7 * sub), sub)
    ensures Summed(s + Blank(7 * sub), sum, cnt)
  {
    hide Join, Weight, Count;
    BlankTotals(Blank(7 * sub));
    BlankTotals(Blank(sub));
    Totals(s, Blank(7 * sub));
    JoinAbove(s, sub);
  }

  lemma JoinAbove(s: seq<Slot>, sub: nat)
    requires |s| == sub
    ensures Join([s] + seq(7, i => Blank(sub))) == s + Blank(7 * sub)
  {
    var blank := seq(7, i => Blank(sub));
    JoinMore([s], blank);
    BlankJoin(blank, sub);
    assert Join([s]) == s;
  }

  lemma {:induction false} JoinMore(a: seq<seq<Slot>>, b: seq<seq<Slot>>)
    ensures Join(a + b) == Join(a) + Join(b)
  {
    if b == [] {
      assert a + b == a;
    } else {
      assert (a + b)[..|a + b| - 1] == a + b[..|b| - 1];
      JoinMore(a, b[..|b| - 1]);
    }
  }
}
